/**
 * The synthetic league simulator of src/mock_data.py (generate_mock_games).
 *
 * Randomness is an oracle: every call the simulator makes into the random
 * module is a field of a `Draws` value supplied by the caller, consumed in the
 * order the source consumes it. The Elo curve 1 / (1 + 10 ** (-d / 400)) is
 * the parameter `eloCurve`; only the clamp applied to its value matters here.
 * Calendar dates are day numbers.
 */
module MockData {
  import opened Common

  // ---------------------------------------------------------------- teams

  datatype Team = LAL | BOS | GSW | PHX | MIL | DEN | MIA | DAL | NYK | CHI

  /** The roster, in the order the source lists it (and draws from it). */
  const TEAMS: seq<Team> := [LAL, BOS, GSW, PHX, MIL, DEN, MIA, DAL, NYK, CHI]

  /** The position of a team in TEAMS. */
  function Index(t: Team): (i: nat)
    ensures i < |TEAMS| && TEAMS[i] == t
  {
    match t
    case LAL => 0
    case BOS => 1
    case GSW => 2
    case PHX => 3
    case MIL => 4
    case DEN => 5
    case MIA => 6
    case DAL => 7
    case NYK => 8
    case CHI => 9
  }

  lemma IndexOfListed(i: int)
    requires 0 <= i < |TEAMS|
    ensures Index(TEAMS[i]) == i
  {
    if i == 0 {} else if i == 1 {} else if i == 2 {} else if i == 3 {} else if i == 4 {}
    else if i == 5 {} else if i == 6 {} else if i == 7 {} else if i == 8 {} else {}
  }

  /** No team is listed twice. */
  lemma TeamsDistinct(i: int, j: int)
    requires 0 <= i < |TEAMS| && 0 <= j < |TEAMS| && i != j
    ensures TEAMS[i] != TEAMS[j]
  {
    IndexOfListed(i);
    IndexOfListed(j);
  }

  // ------------------------------------------------------------ constants

  const FORM_WINDOW := 10
  const DEFAULT_REST := 3
  const MAX_REST := 7
  const SEASON_GAP := 120
  const SKIP_CHANCE: real := 0.15
  const ADVANCE_CHANCE: real := 0.75
  const INJURY_CHANCE: real := 0.12
  const INJURY_CHOICES: seq<int> := [10, 15, 20, 25, 35, 50]
  const INJURY_LEVELS: set<int> := {0, 10, 15, 20, 25, 35, 50}
  const HOME_COURT := 55
  const REST_WEIGHT := 6
  const FORM_WEIGHT: real := 50.0
  const MIN_PROB: real := 0.01
  const MAX_PROB: real := 0.99
  const BASE_POINTS: real := 108.0
  const POINTS_PER_ELO: real := 50.0
  const MIN_SCORE := 80
  const MAX_SCORE := 150
  const BASE_LOW := 1480
  const BASE_HIGH := 1620
  const DRIFT := 25

  // ---------------------------------------------------------- the oracle

  /** The draws one game consumes, in the order the source makes them. */
  datatype GameDraws = GameDraws(
    firstPick: int,        // random.sample: index into the 10-team pool
    secondPick: int,       // random.sample: index into the 9 teams left
    skipRoll: real,        // random.random() for the day skip
    homeInjuryRoll: real,  // random.random() for the home injury
    homeInjuryPick: int,   // random.choice index, used only when the roll hits
    awayInjuryRoll: real,
    awayInjuryPick: int,
    probNoise: real,       // random.uniform(-0.03, 0.03)
    outcomeRoll: real,     // random.random() deciding the winner
    homeScoreNoise: real,  // random.gauss(0, 8)
    awayScoreNoise: real,
    advanceRoll: real)     // random.random() for the post-game advance

  /** One season's draws: the per-team drift (in roster order), then its games. */
  datatype SeasonDraws = SeasonDraws(drift: seq<int>, games: seq<GameDraws>)

  /** The whole run: the initial strengths (in roster order), then every season. */
  datatype Draws = Draws(initial: seq<int>, seasons: seq<SeasonDraws>)

  /** What the random module guarantees of one game's draws. */
  ghost predicate ValidGame(g: GameDraws) {
    && 0 <= g.firstPick < |TEAMS|
    && 0 <= g.secondPick < |TEAMS| - 1
    && 0 <= g.homeInjuryPick < |INJURY_CHOICES|
    && 0 <= g.awayInjuryPick < |INJURY_CHOICES|
  }

  ghost predicate ValidGames(games: seq<GameDraws>) {
    forall g <- games :: ValidGame(g)
  }

  /** Seasons whose draws the simulator can consume. */
  ghost predicate Playable(seasons: seq<SeasonDraws>) {
    forall sd <- seasons :: |sd.drift| == |TEAMS| && ValidGames(sd.games)
  }

  ghost predicate ValidSeason(sd: SeasonDraws, gamesPerSeason: int) {
    && |sd.drift| == |TEAMS|
    && (forall k :: 0 <= k < |sd.drift| ==> -DRIFT <= sd.drift[k] <= DRIFT)
    && |sd.games| == RangeLength(gamesPerSeason)
    && ValidGames(sd.games)
  }

  /** Draws for `seasons` seasons of `gamesPerSeason` games, each within randint's range. */
  ghost predicate ValidDraws(d: Draws, seasons: int, gamesPerSeason: int) {
    && |d.initial| == |TEAMS|
    && (forall k :: 0 <= k < |d.initial| ==> BASE_LOW <= d.initial[k] <= BASE_HIGH)
    && |d.seasons| == RangeLength(seasons)
    && (forall sd <- d.seasons :: ValidSeason(sd, gamesPerSeason))
  }

  // ----------------------------------------------------------------- state

  /** A game result as the source stores it: 1 for a win, 0 for a loss. */
  type Outcome = x: int | 0 <= x <= 1

  /** One emitted row, in the source's column order. */
  datatype GameRow = GameRow(
    season: int,
    date: int,
    homeTeam: Team,
    awayTeam: Team,
    homeRating: int,
    awayRating: int,
    homeRestDays: int,
    awayRestDays: int,
    homeInjuryImpact: int,
    awayInjuryImpact: int,
    homeRecentWinrate: real,
    awayRecentWinrate: real,
    homeWinProb: real,
    homeScore: int,
    awayScore: int,
    homeWin: Outcome)

  /** Everything generate_mock_games keeps between games. */
  datatype League = League(
    teamBase: map<Team, int>,
    lastPlayed: map<Team, Option<int>>,
    recentResults: map<Team, seq<Outcome>>,
    currentDate: int,
    rows: seq<GameRow>)

  /** Every team has an entry in each dictionary, no window is over capacity,
      and no team was last seen after today. */
  ghost predicate Inv(s: League) {
    && (forall t: Team :: t in s.teamBase && t in s.lastPlayed && t in s.recentResults)
    && (forall t: Team :: |s.recentResults[t]| <= FORM_WINDOW)
    && (forall t: Team :: s.lastPlayed[t].Some? ==> s.lastPlayed[t].value <= s.currentDate)
  }

  // ------------------------------------------------------- rolling window

  /** deque(maxlen=10).append: the window keeps the newest entries of w + [x]. */
  function Append(w: seq<Outcome>, x: Outcome): (r: seq<Outcome>)
    requires |w| <= FORM_WINDOW
    ensures |r| == if |w| < FORM_WINDOW then |w| + 1 else FORM_WINDOW
    ensures r == (w + [x])[|w| + 1 - |r|..]
  {
    if |w| < FORM_WINDOW then w + [x] else w[1..] + [x]
  }

  /** The window obtained by appending every result of h, in order, to an empty window. */
  function Replay(h: seq<Outcome>): (w: seq<Outcome>)
    ensures |w| <= FORM_WINDOW
  {
    if h == [] then [] else Append(Replay(h[..|h| - 1]), h[|h| - 1])
  }

  /** The number of wins in a window (Python's sum). */
  function Wins(w: seq<Outcome>): (n: nat)
    ensures n <= |w|
  {
    if w == [] then 0 else Wins(w[..|w| - 1]) + w[|w| - 1]
  }

  /** winrate: 0.5 for an empty window, else wins / length. */
  function Winrate(w: seq<Outcome>): (r: real)
    ensures 0.0 <= r <= 1.0
    ensures |w| == 0 ==> r == 0.5
  {
    if |w| == 0 then 0.5 else Wins(w) as real / |w| as real
  }

  lemma QuotientTimesDivisor(r: real, k: real, n: real)
    requires n > 0.0 && r == k / n
    ensures r * n == k
  {
  }

  /** A non-empty window's rate is its share of wins. */
  lemma WinrateIsShareOfWins(w: seq<Outcome>)
    requires |w| > 0
    ensures Winrate(w) * (|w| as real) == Wins(w) as real
  {
    QuotientTimesDivisor(Winrate(w), Wins(w) as real, |w| as real);
  }

  // ------------------------------------------------------------- context

  /** random.sample(TEAMS, 2): the first draw picks from the whole pool, the
      drawn slot is refilled with the pool's last team, and the second draw
      picks from the first nine slots. */
  function Pick(first: int, second: int): (r: (Team, Team))
    requires 0 <= first < |TEAMS| && 0 <= second < |TEAMS| - 1
    ensures r.0 != r.1
  {
    var home := TEAMS[first];
    var away := if second == first then TEAMS[|TEAMS| - 1] else TEAMS[second];
    TeamsDistinct(first, if second == first then |TEAMS| - 1 else second);
    (home, away)
  }

  /** rest_days: 3 before the team's first game of the season, else the days
      since its last game, capped at 7. */
  function RestDays(last: Option<int>, today: int): (r: int)
    ensures last.None? ==> r == DEFAULT_REST
    ensures last.Some? ==> r <= MAX_REST
    ensures last.Some? && r < MAX_REST ==> r == today - last.value
    ensures last.Some? && r == MAX_REST ==> today - last.value >= MAX_REST
    ensures last.Some? && last.value <= today ==> 0 <= r
  {
    match last
    case None => DEFAULT_REST
    case Some(day) => if today - day < MAX_REST then today - day else MAX_REST
  }

  /** injury_impact: with the roll under 0.12 a listed impact, otherwise none. */
  function InjuryImpact(roll: real, pick: int): (r: int)
    requires 0 <= pick < |INJURY_CHOICES|
    ensures r in INJURY_LEVELS
    ensures r != 0 <==> roll < INJURY_CHANCE
  {
    if roll < INJURY_CHANCE then INJURY_CHOICES[pick] else 0
  }

  /** What both teams bring into a game, read before the game is recorded. */
  datatype Context = Context(
    homeRest: int, awayRest: int,
    homeInjury: int, awayInjury: int,
    homeForm: real, awayForm: real)

  datatype Ratings = Ratings(home: real, away: real)

  /** Effective ratings: home court, rest and form effects move points from
      one side to the other; injuries only subtract. */
  function EffectiveRatings(homeBase: int, awayBase: int, c: Context): (r: Ratings)
    ensures r.home - r.away
         == (homeBase - awayBase + HOME_COURT + 2 * REST_WEIGHT * (c.homeRest - c.awayRest)
             - c.homeInjury + c.awayInjury) as real
            + 2.0 * FORM_WEIGHT * (c.homeForm - c.awayForm)
    ensures r.home + r.away == (homeBase + awayBase + HOME_COURT - c.homeInjury - c.awayInjury) as real
  {
    var restEffect := (REST_WEIGHT * (c.homeRest - c.awayRest)) as real;
    var formEffect := FORM_WEIGHT * (c.homeForm - c.awayForm);
    Ratings((homeBase + HOME_COURT) as real + restEffect + formEffect - c.homeInjury as real,
            awayBase as real - restEffect - formEffect - c.awayInjury as real)
  }

  /** The Elo curve's value at the rating difference plus its noise,
      clamped to [0.01, 0.99]. */
  function WinProbability(eloCurve: real -> real, eloDiff: real, noise: real): (p: real)
    ensures MIN_PROB <= p <= MAX_PROB
    ensures MIN_PROB <= eloCurve(eloDiff) + noise <= MAX_PROB ==> p == eloCurve(eloDiff) + noise
    ensures eloCurve(eloDiff) + noise < MIN_PROB ==> p == MIN_PROB
    ensures MAX_PROB < eloCurve(eloDiff) + noise ==> p == MAX_PROB
  {
    ClampReal(eloCurve(eloDiff) + noise, MIN_PROB, MAX_PROB)
  }

  /** A score: int() of the expected points plus noise, clamped to [80, 150]. */
  function Score(expected: real, noise: real): (s: int)
    ensures MIN_SCORE <= s <= MAX_SCORE
    ensures MIN_SCORE as real <= expected + noise < (MAX_SCORE + 1) as real
            ==> s as real <= expected + noise < s as real + 1.0
    ensures expected + noise < MIN_SCORE as real ==> s == MIN_SCORE
    ensures (MAX_SCORE + 1) as real <= expected + noise ==> s == MAX_SCORE
  {
    ClampInt(Trunc(expected + noise), MIN_SCORE, MAX_SCORE)
  }

  // ------------------------------------------------------ reference run

  /** The ranges the code gives a row's columns: distinct teams, rest capped
      at 7, one of the injury levels, forms in [0, 1], the probability clamp
      and the score clamp. */
  ghost predicate RowInBounds(row: GameRow) {
    && row.homeTeam != row.awayTeam
    && 0 <= row.homeRestDays <= MAX_REST && 0 <= row.awayRestDays <= MAX_REST
    && row.homeInjuryImpact in INJURY_LEVELS && row.awayInjuryImpact in INJURY_LEVELS
    && 0.0 <= row.homeRecentWinrate <= 1.0 && 0.0 <= row.awayRecentWinrate <= 1.0
    && MIN_PROB <= row.homeWinProb <= MAX_PROB
    && MIN_SCORE <= row.homeScore <= MAX_SCORE && MIN_SCORE <= row.awayScore <= MAX_SCORE
  }

  /** The day a game is played on: today, or tomorrow when the skip roll hits. */
  function GameDay(s: League, g: GameDraws): (d: int)
    ensures 0 <= d - s.currentDate <= 1
    ensures d == s.currentDate + 1 <==> g.skipRoll < SKIP_CHANCE
  {
    if g.skipRoll < SKIP_CHANCE then s.currentDate + 1 else s.currentDate
  }

  /** Everything one game computes before it touches the state: the pairing,
      the context read on the game day, the ratings, the probability, the
      outcome and the scores. The row's date is the game day advanced by the
      post-game roll, because the source formats the date after that advance. */
  function Matchup(s: League, season: int, g: GameDraws, eloCurve: real -> real): (row: GameRow)
    requires Inv(s) && ValidGame(g)
    ensures (row.homeTeam, row.awayTeam) == Pick(g.firstPick, g.secondPick)
    ensures row.season == season && RowInBounds(row)
    ensures 0 <= row.date - GameDay(s, g) <= 1
    ensures row.homeRecentWinrate == Winrate(s.recentResults[row.homeTeam])
    ensures row.awayRecentWinrate == Winrate(s.recentResults[row.awayTeam])
  {
    var (home, away) := Pick(g.firstPick, g.secondPick);
    var today := GameDay(s, g);
    var c := Context(RestDays(s.lastPlayed[home], today), RestDays(s.lastPlayed[away], today),
                     InjuryImpact(g.homeInjuryRoll, g.homeInjuryPick),
                     InjuryImpact(g.awayInjuryRoll, g.awayInjuryPick),
                     Winrate(s.recentResults[home]), Winrate(s.recentResults[away]));
    var ratings := EffectiveRatings(s.teamBase[home], s.teamBase[away], c);
    var eloDiff := ratings.home - ratings.away;
    var prob := WinProbability(eloCurve, eloDiff, g.probNoise);
    var homeWin: Outcome := if g.outcomeRoll < prob then 1 else 0;
    var homeScore := Score(BASE_POINTS + eloDiff / POINTS_PER_ELO, g.homeScoreNoise);
    var awayScore := Score(BASE_POINTS - eloDiff / POINTS_PER_ELO, g.awayScoreNoise);
    var date := today + (if g.advanceRoll < ADVANCE_CHANCE then 1 else 0);
    GameRow(season, date, home, away, Trunc(ratings.home), Trunc(ratings.away),
            c.homeRest, c.awayRest, c.homeInjury, c.awayInjury, c.homeForm, c.awayForm,
            prob, homeScore, awayScore, homeWin)
  }

  /** The bookkeeping after a game: push the result into both windows (the
      away team gets the complement), mark both teams as played on the game
      day, move the clock to the row's date and append the row. */
  function Record(s: League, row: GameRow, day: int): (r: League)
    requires Inv(s) && s.currentDate <= day <= row.date
    ensures Inv(r)
    ensures r.rows == s.rows + [row]
    ensures r.teamBase == s.teamBase && r.currentDate == row.date
    ensures r.lastPlayed[row.homeTeam] == Some(day) && r.lastPlayed[row.awayTeam] == Some(day)
    ensures forall t :: t != row.homeTeam && t != row.awayTeam ==> r.lastPlayed[t] == s.lastPlayed[t]
    ensures row.homeTeam != row.awayTeam ==>
      && r.recentResults[row.homeTeam] == Append(s.recentResults[row.homeTeam], row.homeWin)
      && r.recentResults[row.awayTeam] == Append(s.recentResults[row.awayTeam], 1 - row.homeWin)
    ensures forall t :: t != row.homeTeam && t != row.awayTeam ==> r.recentResults[t] == s.recentResults[t]
  {
    League(s.teamBase,
           s.lastPlayed[row.homeTeam := Some(day)][row.awayTeam := Some(day)],
           s.recentResults[row.homeTeam := Append(s.recentResults[row.homeTeam], row.homeWin)]
                          [row.awayTeam := Append(s.recentResults[row.awayTeam], 1 - row.homeWin)],
           row.date,
           s.rows + [row])
  }

  /** One pass of the inner loop body. */
  function PlayGame(s: League, season: int, g: GameDraws, eloCurve: real -> real): (r: League)
    requires Inv(s) && ValidGame(g)
    ensures Inv(r)
    ensures |r.rows| == |s.rows| + 1 && r.rows[..|s.rows|] == s.rows
    ensures r.teamBase == s.teamBase
    ensures s.currentDate <= r.currentDate <= s.currentDate + 2
  {
    Record(s, Matchup(s, season, g, eloCurve), GameDay(s, g))
  }

  /** The first `|games|` passes of the inner loop, in order. */
  function RunGames(s: League, season: int, games: seq<GameDraws>, eloCurve: real -> real): (r: League)
    requires Inv(s) && ValidGames(games)
    ensures Inv(r)
    ensures |r.rows| == |s.rows| + |games| && r.rows[..|s.rows|] == s.rows
    ensures r.teamBase == s.teamBase
    ensures s.currentDate <= r.currentDate
    decreases |games|
  {
    if games == [] then s
    else
      var before := RunGames(s, season, games[..|games| - 1], eloCurve);
      PlayGame(before, season, games[|games| - 1], eloCurve)
  }

  lemma AllTeamsListed()
    ensures forall t: Team :: t in TEAMS
  {
    forall t: Team ensures t in TEAMS {
      assert TEAMS[Index(t)] == t;
    }
  }

  /** The start of a season: drift every strength, forget last-played dates,
      clear every window. */
  function StartSeason(s: League, drift: seq<int>): (r: League)
    requires Inv(s) && |drift| == |TEAMS|
    ensures Inv(r)
    ensures forall t: Team :: r.teamBase[t] == s.teamBase[t] + drift[Index(t)]
    ensures forall t: Team :: r.lastPlayed[t] == None && r.recentResults[t] == []
    ensures r.currentDate == s.currentDate && r.rows == s.rows
  {
    AllTeamsListed();
    League(map t | t in TEAMS :: s.teamBase[t] + drift[Index(t)],
           map t | t in TEAMS :: None,
           map t | t in TEAMS :: [],
           s.currentDate, s.rows)
  }

  /** The offseason gap after a season's games. */
  function EndSeason(s: League): (r: League)
    requires Inv(s)
    ensures Inv(r)
    ensures r.currentDate == s.currentDate + SEASON_GAP
    ensures r.rows == s.rows && r.teamBase == s.teamBase
    ensures r.lastPlayed == s.lastPlayed && r.recentResults == s.recentResults
  {
    s.(currentDate := s.currentDate + SEASON_GAP)
  }

  /** The first `|seasons|` passes of the season loop; the last one is season number |seasons|. */
  function RunSeasons(s: League, seasons: seq<SeasonDraws>, eloCurve: real -> real): (r: League)
    requires Inv(s)
    requires Playable(seasons)
    ensures Inv(r)
    decreases |seasons|
  {
    if seasons == [] then s
    else
      var n := |seasons|;
      var before := RunSeasons(s, seasons[..n - 1], eloCurve);
      var sd := seasons[n - 1];
      EndSeason(RunGames(StartSeason(before, sd.drift), n, sd.games, eloCurve))
  }

  /** The state before the season loop. */
  function Initial(initial: seq<int>, baseDate: int): (r: League)
    requires |initial| == |TEAMS|
    ensures Inv(r) && r.rows == [] && r.currentDate == baseDate
    ensures forall t: Team :: r.teamBase[t] == initial[Index(t)]
  {
    AllTeamsListed();
    League(map t | t in TEAMS :: initial[Index(t)],
           map t | t in TEAMS :: None,
           map t | t in TEAMS :: [],
           baseDate, [])
  }
}
