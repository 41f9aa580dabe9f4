/**
 * generate_mock_games as the loop it is: local dictionaries updated in place,
 * a season loop around a game loop, proved to emit exactly the rows of the
 * reference run MockRun.MockGames (and therefore everything MockRun proves
 * of those rows).
 */
module MockGenerator {
  import opened Common
  import opened MockData
  import opened MockRun

  /** The offseason reshuffle: every strength moves by its drift, team by
      team in roster order. */
  method ApplyDrift(teamBase: map<Team, int>, drift: seq<int>) returns (r: map<Team, int>)
    requires (forall t: Team :: t in teamBase) && |drift| == |TEAMS|
    ensures forall t: Team :: t in r && r[t] == teamBase[t] + drift[Index(t)]
  {
    r := teamBase;
    for k := 0 to |TEAMS|
      invariant forall t: Team :: t in r
      invariant forall t: Team :: r[t] == teamBase[t] + (if Index(t) < k then drift[Index(t)] else 0)
    {
      IndexOfListed(k);
      r := r[TEAMS[k] := r[TEAMS[k]] + drift[k]];
    }
  }

  /** recent_results[t].clear() for every team. */
  method ClearWindows(recentResults: map<Team, seq<Outcome>>) returns (r: map<Team, seq<Outcome>>)
    requires forall t: Team :: t in recentResults
    ensures forall t: Team :: t in r && r[t] == []
  {
    r := recentResults;
    for k := 0 to |TEAMS|
      invariant forall t: Team :: t in r
      invariant forall t: Team :: Index(t) < k ==> r[t] == []
    {
      IndexOfListed(k);
      r := r[TEAMS[k] := []];
    }
  }

  /** The first half of one pass of the game loop: draw the pairing, maybe
      skip a day, read both teams' context on the game day, rate them, decide
      the game and its scores, and find the date the row carries (the game
      day, advanced when the post-game roll hits). This is the step-by-step
      counterpart of MockData.Matchup, which specifies it. */
  method MatchupRow(s: League, season: int, g: GameDraws, eloCurve: real -> real) returns (row: GameRow, day: int)
    requires Inv(s) && ValidGame(g)
    ensures row == Matchup(s, season, g, eloCurve) && day == GameDay(s, g)
  {
    var (home, away) := Pick(g.firstPick, g.secondPick);
    day := s.currentDate;
    if g.skipRoll < SKIP_CHANCE {
      day := day + 1;
    }
    assert day == GameDay(s, g);
    var homeRest := RestDays(s.lastPlayed[home], day);
    var awayRest := RestDays(s.lastPlayed[away], day);
    var homeInjury := InjuryImpact(g.homeInjuryRoll, g.homeInjuryPick);
    var awayInjury := InjuryImpact(g.awayInjuryRoll, g.awayInjuryPick);
    var homeForm := Winrate(s.recentResults[home]);
    var awayForm := Winrate(s.recentResults[away]);
    var c := Context(homeRest, awayRest, homeInjury, awayInjury, homeForm, awayForm);
    var ratings := EffectiveRatings(s.teamBase[home], s.teamBase[away], c);
    var eloDiff := ratings.home - ratings.away;
    var prob := WinProbability(eloCurve, eloDiff, g.probNoise);
    var homeWin: Outcome := if g.outcomeRoll < prob then 1 else 0;
    var homeScore := Score(BASE_POINTS + eloDiff / POINTS_PER_ELO, g.homeScoreNoise);
    var awayScore := Score(BASE_POINTS - eloDiff / POINTS_PER_ELO, g.awayScoreNoise);
    var date := day + (if g.advanceRoll < ADVANCE_CHANCE then 1 else 0);
    row := GameRow(season, date, home, away, Trunc(ratings.home), Trunc(ratings.away),
                   homeRest, awayRest, homeInjury, awayInjury, homeForm, awayForm,
                   prob, homeScore, awayScore, homeWin);
  }

  /** One pass of the game loop over the simulator's state: the results go
      into both windows, both teams are marked as played on the game day, the
      clock moves to the row's date and the row is appended. */
  method PlayOneGame(s: League, season: int, g: GameDraws, eloCurve: real -> real) returns (r: League)
    requires Inv(s) && ValidGame(g)
    ensures r == PlayGame(s, season, g, eloCurve)
  {
    var row, day := MatchupRow(s, season, g, eloCurve);
    var homeWindow := Append(s.recentResults[row.homeTeam], row.homeWin);
    var awayWindow := Append(s.recentResults[row.awayTeam], 1 - row.homeWin);
    var recentResults := s.recentResults[row.homeTeam := homeWindow][row.awayTeam := awayWindow];
    var lastPlayed := s.lastPlayed[row.homeTeam := Some(day)][row.awayTeam := Some(day)];
    r := League(s.teamBase, lastPlayed, recentResults, row.date, s.rows + [row]);
  }

  lemma DriftedMap(base: map<Team, int>, drift: seq<int>, teamBase: map<Team, int>)
    requires (forall t: Team :: t in base) && |drift| == |TEAMS|
    requires forall t: Team :: t in teamBase && teamBase[t] == base[t] + drift[Index(t)]
    ensures teamBase == map t | t in TEAMS :: base[t] + drift[Index(t)]
  {
    AllTeamsListed();
  }

  lemma ClearedMap(recentResults: map<Team, seq<Outcome>>)
    requires forall t: Team :: t in recentResults && recentResults[t] == []
    ensures recentResults == map t | t in TEAMS :: []
  {
    AllTeamsListed();
  }

  /** The state the reset steps produce is the opening state of the reference run. */
  lemma OpeningState(s: League, drift: seq<int>, teamBase: map<Team, int>, recentResults: map<Team, seq<Outcome>>)
    requires Inv(s) && |drift| == |TEAMS|
    requires forall t: Team :: t in teamBase && teamBase[t] == s.teamBase[t] + drift[Index(t)]
    requires forall t: Team :: t in recentResults && recentResults[t] == []
    ensures League(teamBase, map t | t in TEAMS :: None, recentResults, s.currentDate, s.rows) == StartSeason(s, drift)
  {
    DriftedMap(s.teamBase, drift, teamBase);
    ClearedMap(recentResults);
  }

  /** The game loop of one season, started from the season's opening state. */
  method PlayGames(opening: League, season: int, games: seq<GameDraws>, eloCurve: real -> real) returns (state: League)
    requires Inv(opening) && ValidGames(games)
    ensures state == RunGames(opening, season, games, eloCurve)
  {
    state := opening;
    assert games[..0] == [];
    var i := 0;
    while i < |games|
      invariant 0 <= i <= |games|
      invariant ValidGames(games[..i])
      invariant state == RunGames(opening, season, games[..i], eloCurve)
    {
      GamesStep(opening, season, games, i, eloCurve);
      state := PlayOneGame(state, season, games[i], eloCurve);
      i := i + 1;
    }
    assert games[..i] == games;
  }

  /** One pass of the season loop: the offseason drift, the reset of
      last-played dates and windows, the season's games, then the offseason gap. */
  method PlaySeason(s: League, season: int, sd: SeasonDraws, eloCurve: real -> real) returns (r: League)
    requires Inv(s) && |sd.drift| == |TEAMS| && ValidGames(sd.games)
    ensures r == EndSeason(RunGames(StartSeason(s, sd.drift), season, sd.games, eloCurve))
  {
    var teamBase := ApplyDrift(s.teamBase, sd.drift);
    var lastPlayed: map<Team, Option<int>> := map t | t in TEAMS :: None;
    var recentResults := ClearWindows(s.recentResults);
    OpeningState(s, sd.drift, teamBase, recentResults);
    var state := PlayGames(League(teamBase, lastPlayed, recentResults, s.currentDate, s.rows), season, sd.games, eloCurve);
    r := state.(currentDate := state.currentDate + SEASON_GAP);
  }

  /** The season loop, started from the initial state. */
  method PlaySeasons(start: League, seasons: int, draws: seq<SeasonDraws>, eloCurve: real -> real)
    returns (state: League)
    requires Inv(start) && Playable(draws) && |draws| == RangeLength(seasons)
    ensures state == RunSeasons(start, draws, eloCurve)
  {
    state := start;
    var season := 1;
    while season <= seasons
      invariant 1 <= season <= RangeLength(seasons) + 1
      invariant Playable(draws[..season - 1])
      invariant state == RunSeasons(start, draws[..season - 1], eloCurve)
    {
      SeasonPrefixStep(start, draws, season - 1, eloCurve);
      state := PlaySeason(state, season, draws[season - 1], eloCurve);
      season := season + 1;
    }
    assert draws[..season - 1] == draws;
  }

  /** generate_mock_games: the rows of the reference run, and so every
      property proved of them. */
  method GenerateMockGames(seasons: int, gamesPerSeason: int, baseDate: int, draws: Draws, eloCurve: real -> real)
    returns (rows: seq<GameRow>)
    requires ValidDraws(draws, seasons, gamesPerSeason)
    ensures rows == MockGames(seasons, gamesPerSeason, baseDate, draws, eloCurve)
    ensures |rows| == RangeLength(seasons) * RangeLength(gamesPerSeason)
    ensures Chronological(rows)
    ensures forall i :: 0 <= i < |rows| ==> 1 <= rows[i].season <= seasons && RowInBounds(rows[i])
    ensures 0 < gamesPerSeason ==> forall i :: 0 <= i < |rows| ==> rows[i].season == i / gamesPerSeason + 1
    ensures forall i :: 0 <= i < |rows| ==> baseDate <= rows[i].date
  {
    var state := PlaySeasons(Initial(draws.initial, baseDate), seasons, draws.seasons, eloCurve);
    rows := state.rows;
  }
}
