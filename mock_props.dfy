/**
 * Properties of the reference run in MockData: what one game emits and
 * records, what the rolling window holds, and what the whole run's rows
 * look like.
 */
module MockProps {
  import opened Common
  import opened MockData

  function Last(rows: seq<GameRow>): GameRow
    requires |rows| > 0
  {
    rows[|rows| - 1]
  }

  // ------------------------------------------------------------ one game

  /** The emitted row: the right season, every column in the range the code gives it,
      and the date read after the post-game advance. */
  lemma GameRowFacts(s: League, season: int, g: GameDraws, eloCurve: real -> real)
    requires Inv(s) && ValidGame(g)
    ensures var r := PlayGame(s, season, g, eloCurve);
      var row := Last(r.rows);
      && row.season == season
      && RowInBounds(row)
      && row.date == r.currentDate
  {
  }

  /** Context is read before the result is recorded: the row's forms are the
      win rates of the windows as they were, and then the home team's window
      receives home_win and the away team's its complement. */
  lemma GameRecordsResult(s: League, season: int, g: GameDraws, eloCurve: real -> real)
    requires Inv(s) && ValidGame(g)
    ensures var r := PlayGame(s, season, g, eloCurve);
      var row := Last(r.rows);
      && row.homeRecentWinrate == Winrate(s.recentResults[row.homeTeam])
      && row.awayRecentWinrate == Winrate(s.recentResults[row.awayTeam])
      && r.recentResults == s.recentResults[row.homeTeam := Append(s.recentResults[row.homeTeam], row.homeWin)]
                                           [row.awayTeam := Append(s.recentResults[row.awayTeam], 1 - row.homeWin)]
      && r.rows == s.rows + [row]
      && row.homeTeam != row.awayTeam
  {
    var row := Matchup(s, season, g, eloCurve);
    var r := Record(s, row, GameDay(s, g));
    assert PlayGame(s, season, g, eloCurve) == r;
    assert Last(r.rows) == row;
  }

  /** Both teams are marked as having played on the game day, which is today
      or tomorrow; the row's date is that day or the one after it. */
  lemma GameDates(s: League, season: int, g: GameDraws, eloCurve: real -> real)
    requires Inv(s) && ValidGame(g)
    ensures var r := PlayGame(s, season, g, eloCurve);
      var row := Last(r.rows);
      && r.lastPlayed[row.homeTeam] == r.lastPlayed[row.awayTeam]
      && r.lastPlayed[row.homeTeam].Some?
      && 0 <= r.lastPlayed[row.homeTeam].value - s.currentDate <= 1
      && 0 <= row.date - r.lastPlayed[row.homeTeam].value <= 1
      && (forall t :: t != row.homeTeam && t != row.awayTeam ==> r.lastPlayed[t] == s.lastPlayed[t])
  {
  }

  /** The context of a season opener: both teams at the default rest and the
      neutral form. */
  lemma SeasonOpener(s: League, drift: seq<int>, season: int, g: GameDraws, eloCurve: real -> real)
    requires Inv(s) && |drift| == |TEAMS| && ValidGame(g)
    ensures var row := Matchup(StartSeason(s, drift), season, g, eloCurve);
      && row.homeRestDays == DEFAULT_REST && row.awayRestDays == DEFAULT_REST
      && row.homeRecentWinrate == 0.5 && row.awayRecentWinrate == 0.5
  {
  }

  /** How every column of a game's row follows from the state and the draws:
      rest and injuries as read on the game day, the ratings truncated, the
      clamped probability of their gap, the outcome against that probability,
      the two scores around 108 moved by gap / 50, and the date advanced
      exactly when the post-game roll hits. */
  lemma MatchupColumns(s: League, season: int, g: GameDraws, eloCurve: real -> real)
    requires Inv(s) && ValidGame(g)
    ensures var row := Matchup(s, season, g, eloCurve);
      var day := GameDay(s, g);
      var c := Context(RestDays(s.lastPlayed[row.homeTeam], day), RestDays(s.lastPlayed[row.awayTeam], day),
                       InjuryImpact(g.homeInjuryRoll, g.homeInjuryPick),
                       InjuryImpact(g.awayInjuryRoll, g.awayInjuryPick),
                       row.homeRecentWinrate, row.awayRecentWinrate);
      var ratings := EffectiveRatings(s.teamBase[row.homeTeam], s.teamBase[row.awayTeam], c);
      var gap := ratings.home - ratings.away;
      && row.homeRestDays == c.homeRest && row.awayRestDays == c.awayRest
      && row.homeInjuryImpact == c.homeInjury && row.awayInjuryImpact == c.awayInjury
      && row.homeRating == Trunc(ratings.home) && row.awayRating == Trunc(ratings.away)
      && row.homeWinProb == WinProbability(eloCurve, gap, g.probNoise)
      && (row.homeWin == 1 <==> g.outcomeRoll < row.homeWinProb)
      && row.homeScore == Score(BASE_POINTS + gap / POINTS_PER_ELO, g.homeScoreNoise)
      && row.awayScore == Score(BASE_POINTS - gap / POINTS_PER_ELO, g.awayScoreNoise)
      && (row.date == day + 1 <==> g.advanceRoll < ADVANCE_CHANCE)
  {
  }

  /** Scores are drawn independently of the outcome: changing only the outcome
      roll can turn a home win into a home loss while every other column,
      scores included, stays the same. */
  lemma ScoresDecoupledFromOutcome(s: League, season: int, g: GameDraws, eloCurve: real -> real)
    requires Inv(s) && ValidGame(g)
    ensures var won := Matchup(s, season, g.(outcomeRoll := 0.0), eloCurve);
      var lost := Matchup(s, season, g.(outcomeRoll := 1.0), eloCurve);
      && won.homeWin == 1 && lost.homeWin == 0
      && won == lost.(homeWin := 1)
  {
  }

  /** A home injury lowers the home rating and leaves the away rating alone. */
  lemma HomeInjuryLowersHomeRating(homeBase: int, awayBase: int, c: Context)
    requires c.homeInjury > 0
    ensures EffectiveRatings(homeBase, awayBase, c).home < EffectiveRatings(homeBase, awayBase, c.(homeInjury := 0)).home
    ensures EffectiveRatings(homeBase, awayBase, c).away == EffectiveRatings(homeBase, awayBase, c.(homeInjury := 0)).away
  {
  }

  // ------------------------------------------------------ team selection

  /** Different draws give different pairings ... */
  lemma PickInjective(f1: int, s1: int, f2: int, s2: int)
    requires 0 <= f1 < |TEAMS| && 0 <= s1 < |TEAMS| - 1
    requires 0 <= f2 < |TEAMS| && 0 <= s2 < |TEAMS| - 1
    requires Pick(f1, s1) == Pick(f2, s2)
    ensures f1 == f2 && s1 == s2
  {
    IndexOfListed(f1);
    IndexOfListed(f2);
    IndexOfListed(s1);
    IndexOfListed(s2);
    IndexOfListed(|TEAMS| - 1);
  }

  /** ... and every ordered pair of distinct teams is some draw's pairing, so
      the selection is uniform over the 90 ordered pairs. */
  lemma PickCoversAllPairs(home: Team, away: Team)
    requires home != away
    ensures exists f, s :: 0 <= f < |TEAMS| && 0 <= s < |TEAMS| - 1 && Pick(f, s) == (home, away)
  {
    var f := Index(home);
    var s := if Index(away) == |TEAMS| - 1 then f else Index(away);
    assert Pick(f, s) == (home, away);
  }

  // ------------------------------------------------------ rolling window

  function Min(a: int, b: int): int { if a < b then a else b }

  /** The newest (at most) FORM_WINDOW entries of a history, oldest first. */
  function Newest(h: seq<Outcome>): seq<Outcome> {
    h[|h| - Min(|h|, FORM_WINDOW)..]
  }

  /** While fewer than ten results have been seen, the window is the whole history. */
  lemma NewestShort(h: seq<Outcome>)
    requires |h| <= FORM_WINDOW
    ensures Newest(h) == h
  {
    assert Min(|h|, FORM_WINDOW) == |h|;
  }

  lemma NewestLong(h: seq<Outcome>)
    requires FORM_WINDOW <= |h|
    ensures Newest(h) == h[|h| - FORM_WINDOW..]
  {
    assert Min(|h|, FORM_WINDOW) == FORM_WINDOW;
  }

  lemma SplitLast(h: seq<Outcome>)
    requires h != []
    ensures h[..|h| - 1] + [h[|h| - 1]] == h
  {
  }

  lemma SlideWindow(init: seq<Outcome>, x: Outcome)
    requires FORM_WINDOW <= |init|
    ensures init[|init| - FORM_WINDOW..][1..] + [x] == (init + [x])[|init| + 1 - FORM_WINDOW..]
  {
  }

  lemma ReplayStepShort(h: seq<Outcome>)
    requires 0 < |h| <= FORM_WINDOW && Replay(h[..|h| - 1]) == Newest(h[..|h| - 1])
    ensures Replay(h) == Newest(h)
  {
    var init, x := h[..|h| - 1], h[|h| - 1];
    NewestShort(init);
    NewestShort(h);
    SplitLast(h);
    assert Replay(h) == Append(init, x);
  }

  lemma ReplayStepFull(h: seq<Outcome>)
    requires FORM_WINDOW < |h| && Replay(h[..|h| - 1]) == Newest(h[..|h| - 1])
    ensures Replay(h) == Newest(h)
  {
    var init, x := h[..|h| - 1], h[|h| - 1];
    NewestLong(init);
    NewestLong(h);
    SplitLast(h);
    SlideWindow(init, x);
    assert Replay(h) == Append(init[|init| - FORM_WINDOW..], x);
  }

  /** A window that has seen the results h holds exactly their newest ten:
      appending to a full window evicts the oldest entry. */
  lemma {:induction false} ReplayKeepsNewest(h: seq<Outcome>)
    ensures Replay(h) == Newest(h)
  {
    if h != [] {
      ReplayKeepsNewest(h[..|h| - 1]);
      if |h| <= FORM_WINDOW {
        ReplayStepShort(h);
      } else {
        ReplayStepFull(h);
      }
    }
  }

  lemma {:induction false} WinsOfAllWins(w: seq<Outcome>)
    requires forall i :: 0 <= i < |w| ==> w[i] == 1
    ensures Wins(w) == |w|
  {
    if w != [] {
      WinsOfAllWins(w[..|w| - 1]);
    }
  }

  /** A window of nothing but wins reports a win rate of exactly 1.0. */
  lemma PerfectWindow(w: seq<Outcome>)
    requires |w| > 0 && forall i :: 0 <= i < |w| ==> w[i] == 1
    ensures Winrate(w) == 1.0
  {
    WinsOfAllWins(w);
  }

  /** What one game row records for a team: its own result when it played, nothing otherwise. */
  function ResultFor(row: GameRow, t: Team): seq<Outcome> {
    if t == row.homeTeam then [row.homeWin]
    else if t == row.awayTeam then [1 - row.homeWin]
    else []
  }

  /** The results a team has recorded in the given rows, oldest first. */
  function TeamResults(rows: seq<GameRow>, t: Team): seq<Outcome> {
    if rows == [] then []
    else
      var row := Last(rows);
      TeamResults(rows[..|rows| - 1], t) + ResultFor(row, t)
  }

  lemma ReplaySnoc(h: seq<Outcome>, x: Outcome)
    ensures Replay(h + [x]) == Append(Replay(h), x)
  {
    assert (h + [x])[..|h|] == h;
  }

  lemma TeamResultsSnoc(done: seq<GameRow>, row: GameRow, t: Team)
    ensures TeamResults(done + [row], t) == TeamResults(done, t) + ResultFor(row, t)
  {
    var all := done + [row];
    assert all[..|all| - 1] == done && Last(all) == row;
  }

  /** Replaying the home team's history with this game's row appended
      appends the home result to the old window. */
  lemma WindowStepHome(w: seq<Outcome>, done: seq<GameRow>, row: GameRow)
    requires w == Replay(TeamResults(done, row.homeTeam))
    ensures Append(w, row.homeWin) == Replay(TeamResults(done + [row], row.homeTeam))
  {
    TeamResultsSnoc(done, row, row.homeTeam);
    ReplaySnoc(TeamResults(done, row.homeTeam), row.homeWin);
  }

  /** The same for the away team, whose result is the complement. */
  lemma WindowStepAway(w: seq<Outcome>, done: seq<GameRow>, row: GameRow)
    requires row.homeTeam != row.awayTeam
    requires w == Replay(TeamResults(done, row.awayTeam))
    ensures Append(w, 1 - row.homeWin) == Replay(TeamResults(done + [row], row.awayTeam))
  {
    var x: Outcome := 1 - row.homeWin;
    TeamResultsSnoc(done, row, row.awayTeam);
    assert ResultFor(row, row.awayTeam) == [x];
    ReplaySnoc(TeamResults(done, row.awayTeam), x);
  }

  /** A row in which a team does not play leaves its replayed window alone. */
  lemma WindowStepBystander(done: seq<GameRow>, row: GameRow, t: Team)
    requires t != row.homeTeam && t != row.awayTeam
    ensures TeamResults(done + [row], t) == TeamResults(done, t)
  {
    TeamResultsSnoc(done, row, t);
    assert TeamResults(done, t) + [] == TeamResults(done, t);
  }

  lemma SuffixSnoc(rows: seq<GameRow>, start: int, row: GameRow)
    requires 0 <= start <= |rows|
    ensures (rows + [row])[start..] == rows[start..] + [row]
  {
  }

  /** Within a season a team's window is the replay of that team's results
      in the season's rows so far. */
  lemma {:induction false} WindowFollowsSeason(s0: League, season: int, games: seq<GameDraws>, eloCurve: real -> real, t: Team)
    requires Inv(s0) && ValidGames(games)
    requires s0.recentResults[t] == []
    ensures var r := RunGames(s0, season, games, eloCurve);
      r.recentResults[t] == Replay(TeamResults(r.rows[|s0.rows|..], t))
    decreases |games|
  {
    if games == [] {
      assert s0.rows[|s0.rows|..] == [];
    } else {
      var init, g := games[..|games| - 1], games[|games| - 1];
      WindowFollowsSeason(s0, season, init, eloCurve, t);
      var before := RunGames(s0, season, init, eloCurve);
      var row := Matchup(before, season, g, eloCurve);
      var day := GameDay(before, g);
      var r := Record(before, row, day);
      assert RunGames(s0, season, games, eloCurve) == r;
      SuffixSnoc(before.rows, |s0.rows|, row);
      var done := before.rows[|s0.rows|..];
      if t == row.homeTeam {
        WindowStepHome(before.recentResults[t], done, row);
      } else if t == row.awayTeam {
        WindowStepAway(before.recentResults[t], done, row);
      } else {
        WindowStepBystander(done, row, t);
      }
    }
  }

  /** The form a game reads is the win rate over the team's newest ten
      results of the current season. */
  lemma FormIsNewestSeasonResults(s0: League, season: int, games: seq<GameDraws>, g: GameDraws, eloCurve: real -> real)
    requires Inv(s0) && ValidGames(games) && ValidGame(g)
    requires forall t: Team :: s0.recentResults[t] == []
    ensures var before := RunGames(s0, season, games, eloCurve);
      var row := Matchup(before, season, g, eloCurve);
      && row.homeRecentWinrate == Winrate(Newest(TeamResults(before.rows[|s0.rows|..], row.homeTeam)))
      && row.awayRecentWinrate == Winrate(Newest(TeamResults(before.rows[|s0.rows|..], row.awayTeam)))
  {
    var before := RunGames(s0, season, games, eloCurve);
    var row := Matchup(before, season, g, eloCurve);
    WindowFollowsSeason(s0, season, games, eloCurve, row.homeTeam);
    WindowFollowsSeason(s0, season, games, eloCurve, row.awayTeam);
    ReplayKeepsNewest(TeamResults(before.rows[|s0.rows|..], row.homeTeam));
    ReplayKeepsNewest(TeamResults(before.rows[|s0.rows|..], row.awayTeam));
  }
}
