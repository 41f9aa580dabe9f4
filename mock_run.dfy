/**
 * Properties of a whole run of generate_mock_games: how many rows it emits,
 * that they come out in calendar order with the offseason gap between
 * seasons, and how far the latent strengths can drift.
 */
module MockRun {
  import opened Common
  import opened MockData
  import opened MockProps

  // ------------------------------------------------------------ ordering

  /** Rows are in emission order: seasons and dates never go backwards, and a
      row of a later season is dated at least SEASON_GAP days after every row
      of an earlier one. */
  ghost predicate Chronological(rows: seq<GameRow>) {
    forall i, j :: 0 <= i < j < |rows| ==>
      && rows[i].season <= rows[j].season
      && rows[i].date <= rows[j].date
      && (rows[i].season < rows[j].season ==> rows[i].date + SEASON_GAP <= rows[j].date)
  }

  /** What holds of the rows while season `season` is being played and the
      clock reads `clock`: they are chronological, numbered 1..season, in
      bounds, dated between the run's first day `origin` and today, and every
      earlier season's rows are at least one offseason behind. */
  ghost predicate Played(rows: seq<GameRow>, season: int, origin: int, clock: int) {
    && Chronological(rows)
    && origin <= clock
    && (forall i :: 0 <= i < |rows| ==> 1 <= rows[i].season <= season && RowInBounds(rows[i]))
    && (forall i :: 0 <= i < |rows| ==> origin <= rows[i].date <= clock)
    && (forall i :: 0 <= i < |rows| && rows[i].season < season ==> rows[i].date + SEASON_GAP <= clock)
  }

  /** What holds between seasons: in addition, every row is an offseason behind. */
  ghost predicate Between(rows: seq<GameRow>, season: int, origin: int, clock: int) {
    && Played(rows, season, origin, clock)
    && (forall i :: 0 <= i < |rows| ==> rows[i].date + SEASON_GAP <= clock)
  }

  lemma PlayedSnoc(rows: seq<GameRow>, season: int, origin: int, clock: int, row: GameRow)
    requires Played(rows, season, origin, clock)
    requires row.season == season && 1 <= season && RowInBounds(row) && clock <= row.date
    ensures Played(rows + [row], season, origin, row.date)
  {
    var all := rows + [row];
    forall i, j | 0 <= i < j < |all|
      ensures && all[i].season <= all[j].season
              && all[i].date <= all[j].date
              && (all[i].season < all[j].season ==> all[i].date + SEASON_GAP <= all[j].date)
    {
      if j < |rows| {
        assert all[i] == rows[i] && all[j] == rows[j];
      } else {
        assert all[i] == rows[i] && all[j] == row;
      }
    }
  }

  /** One game keeps the in-season invariant. */
  lemma GameKeepsPlayed(s: League, season: int, origin: int, g: GameDraws, eloCurve: real -> real)
    requires Inv(s) && ValidGame(g) && 1 <= season
    requires Played(s.rows, season, origin, s.currentDate)
    ensures var r := PlayGame(s, season, g, eloCurve);
      Played(r.rows, season, origin, r.currentDate)
  {
    var r := PlayGame(s, season, g, eloCurve);
    GameRowFacts(s, season, g, eloCurve);
    GameRecordsResult(s, season, g, eloCurve);
    PlayedSnoc(s.rows, season, origin, s.currentDate, Last(r.rows));
  }

  /** A season's games keep the in-season invariant. */
  lemma {:induction false} GamesKeepPlayed(s: League, season: int, origin: int, games: seq<GameDraws>, eloCurve: real -> real)
    requires Inv(s) && ValidGames(games) && 1 <= season
    requires Played(s.rows, season, origin, s.currentDate)
    ensures var r := RunGames(s, season, games, eloCurve);
      Played(r.rows, season, origin, r.currentDate)
    decreases |games|
  {
    if games != [] {
      var init := games[..|games| - 1];
      GamesKeepPlayed(s, season, origin, init, eloCurve);
      GameKeepsPlayed(RunGames(s, season, init, eloCurve), season, origin, games[|games| - 1], eloCurve);
    }
  }

  /** Opening season n after n - 1 closed seasons. */
  lemma OpenSeason(rows: seq<GameRow>, n: int, origin: int, clock: int)
    requires Between(rows, n - 1, origin, clock)
    ensures Played(rows, n, origin, clock)
  {
  }

  /** Closing a season: the offseason gap puts every row one gap behind. */
  lemma CloseSeason(rows: seq<GameRow>, n: int, origin: int, clock: int)
    requires Played(rows, n, origin, clock)
    ensures Between(rows, n, origin, clock + SEASON_GAP)
  {
  }

  /** One more pass of the game loop. */
  lemma GamesStep(s: League, season: int, games: seq<GameDraws>, i: int, eloCurve: real -> real)
    requires Inv(s) && ValidGames(games) && 0 <= i < |games|
    ensures ValidGames(games[..i]) && ValidGames(games[..i + 1])
    ensures RunGames(s, season, games[..i + 1], eloCurve)
         == PlayGame(RunGames(s, season, games[..i], eloCurve), season, games[i], eloCurve)
  {
    assert games[..i + 1][..i] == games[..i];
  }

  /** One more pass of the season loop. */
  lemma SeasonStep(s: League, seasons: seq<SeasonDraws>, eloCurve: real -> real)
    requires Inv(s) && Playable(seasons) && seasons != []
    ensures Playable(seasons[..|seasons| - 1])
    ensures var n := |seasons|;
      var before := RunSeasons(s, seasons[..n - 1], eloCurve);
      RunSeasons(s, seasons, eloCurve)
        == EndSeason(RunGames(StartSeason(before, seasons[n - 1].drift), n, seasons[n - 1].games, eloCurve))
  {
  }

  /** The season loop's pass k + 1, stated over prefixes of the season draws. */
  lemma SeasonPrefixStep(s: League, seasons: seq<SeasonDraws>, k: int, eloCurve: real -> real)
    requires Inv(s) && Playable(seasons) && 0 <= k < |seasons|
    ensures Playable(seasons[..k]) && Playable(seasons[..k + 1])
    ensures |seasons[k].drift| == |TEAMS| && ValidGames(seasons[k].games)
    ensures RunSeasons(s, seasons[..k + 1], eloCurve)
         == EndSeason(RunGames(StartSeason(RunSeasons(s, seasons[..k], eloCurve), seasons[k].drift),
                               k + 1, seasons[k].games, eloCurve))
  {
    assert seasons[k] in seasons;
    assert seasons[..k + 1][..k] == seasons[..k];
    SeasonStep(s, seasons[..k + 1], eloCurve);
  }

  /** One season keeps the between-seasons invariant, one season further on. */
  lemma SeasonKeepsBetween(before: League, n: int, origin: int, sd: SeasonDraws, eloCurve: real -> real)
    requires Inv(before) && |sd.drift| == |TEAMS| && ValidGames(sd.games) && 1 <= n
    requires Between(before.rows, n - 1, origin, before.currentDate)
    ensures var r := EndSeason(RunGames(StartSeason(before, sd.drift), n, sd.games, eloCurve));
      Between(r.rows, n, origin, r.currentDate)
  {
    var newSeason := StartSeason(before, sd.drift);
    OpenSeason(newSeason.rows, n, origin, newSeason.currentDate);
    GamesKeepPlayed(newSeason, n, origin, sd.games, eloCurve);
    var played := RunGames(newSeason, n, sd.games, eloCurve);
    CloseSeason(played.rows, n, origin, played.currentDate);
  }

  /** The season loop's pass n keeps the between-seasons invariant. */
  lemma SeasonsBetweenStep(s: League, origin: int, seasons: seq<SeasonDraws>, eloCurve: real -> real)
    requires Inv(s) && Playable(seasons) && seasons != []
    requires var before := RunSeasons(s, seasons[..|seasons| - 1], eloCurve);
      Between(before.rows, |seasons| - 1, origin, before.currentDate)
    ensures var r := RunSeasons(s, seasons, eloCurve);
      Between(r.rows, |seasons|, origin, r.currentDate)
  {
    var n := |seasons|;
    SeasonStep(s, seasons, eloCurve);
    var sd := seasons[n - 1];
    assert sd in seasons;
    SeasonKeepsBetween(RunSeasons(s, seasons[..n - 1], eloCurve), n, origin, sd, eloCurve);
  }

  /** Every prefix of the season loop leaves the rows chronological, numbered
      1..k after k seasons, in bounds, and an offseason behind the clock. */
  lemma {:induction false} SeasonsKeepBetween(s: League, origin: int, seasons: seq<SeasonDraws>, eloCurve: real -> real)
    requires Inv(s) && Between(s.rows, 0, origin, s.currentDate)
    requires Playable(seasons)
    ensures var r := RunSeasons(s, seasons, eloCurve);
      Between(r.rows, |seasons|, origin, r.currentDate)
    decreases |seasons|
  {
    if seasons != [] {
      SeasonStep(s, seasons, eloCurve);
      SeasonsKeepBetween(s, origin, seasons[..|seasons| - 1], eloCurve);
      SeasonsBetweenStep(s, origin, seasons, eloCurve);
    }
  }

  // -------------------------------------------------------------- counts

  lemma MulStep(n: int, k: int)
    ensures (n - 1) * k + k == n * k
  {
  }

  /** The season loop emits exactly one row per game draw. */
  lemma {:induction false} SeasonsRowCount(s: League, seasons: seq<SeasonDraws>, gamesPerSeason: nat, eloCurve: real -> real)
    requires Inv(s)
    requires Playable(seasons)
    requires forall sd <- seasons :: |sd.games| == gamesPerSeason
    ensures |RunSeasons(s, seasons, eloCurve).rows| == |s.rows| + |seasons| * gamesPerSeason
    decreases |seasons|
  {
    if seasons != [] {
      var n := |seasons|;
      SeasonStep(s, seasons, eloCurve);
      SeasonsRowCount(s, seasons[..n - 1], gamesPerSeason, eloCurve);
      var before := RunSeasons(s, seasons[..n - 1], eloCurve);
      var sd := seasons[n - 1];
      assert sd in seasons;
      var played := RunGames(StartSeason(before, sd.drift), n, sd.games, eloCurve);
      assert |played.rows| == |before.rows| + gamesPerSeason;
      MulStep(n, gamesPerSeason);
    }
  }

  // -------------------------------------------------------- season labels

  /** Multiplying by a positive g keeps a strict order, read backwards. */
  lemma MulLess(a: int, b: int, g: int)
    requires 0 < g && a * g < b * g
    ensures a < b
  {
    assert (b - a) * g == b * g - a * g;
  }

  /** Row i of a run made of blocks of g rows lies in block i / g. */
  lemma BlockDiv(i: int, q: int, g: int)
    requires 0 < g && q * g <= i < q * g + g
    ensures i / g == q
  {
    var d := i / g;
    assert d * g <= i < d * g + g;
    assert (q + 1) * g == q * g + g && (d + 1) * g == d * g + g;
    MulLess(d, q + 1, g);
    MulLess(q, d + 1, g);
  }

  /** Every row from index `from` on belongs to season `season`. */
  ghost predicate LabelledFrom(rows: seq<GameRow>, from: nat, season: int) {
    forall i :: from <= i < |rows| ==> rows[i].season == season
  }

  /** The first g rows belong to season 1, the next g to season 2, and so on. */
  ghost predicate SeasonBlocks(rows: seq<GameRow>, g: int)
    requires 0 < g
  {
    forall i :: 0 <= i < |rows| ==> rows[i].season == i / g + 1
  }

  lemma LabelSnoc(before: seq<GameRow>, after: seq<GameRow>, from: nat, season: int)
    requires |after| == |before| + 1 && after[..|before|] == before
    requires LabelledFrom(before, from, season) && after[|before|].season == season
    ensures LabelledFrom(after, from, season)
  {
    forall i | from <= i < |after|
      ensures after[i].season == season
    {
      if i < |before| {
        assert after[..|before|][i] == before[i];
      }
    }
  }

  /** One game appends a row labelled with the loop's season. */
  lemma GameKeepsLabel(s: League, season: int, from: nat, g: GameDraws, eloCurve: real -> real)
    requires Inv(s) && ValidGame(g)
    requires LabelledFrom(s.rows, from, season)
    ensures LabelledFrom(PlayGame(s, season, g, eloCurve).rows, from, season)
  {
    GameRowFacts(s, season, g, eloCurve);
    LabelSnoc(s.rows, PlayGame(s, season, g, eloCurve).rows, from, season);
  }

  /** Every row a season's games append carries that season's number. */
  lemma {:induction false} GamesLabelRows(s: League, season: int, games: seq<GameDraws>, eloCurve: real -> real)
    requires Inv(s) && ValidGames(games)
    ensures LabelledFrom(RunGames(s, season, games, eloCurve).rows, |s.rows|, season)
    decreases |games|
  {
    if games != [] {
      var init := games[..|games| - 1];
      GamesLabelRows(s, season, init, eloCurve);
      GameKeepsLabel(RunGames(s, season, init, eloCurve), season, |s.rows|, games[|games| - 1], eloCurve);
    }
  }

  /** A block of g rows labelled n appended after n - 1 blocks extends the
      block layout. */
  lemma BlocksExtend(before: seq<GameRow>, after: seq<GameRow>, n: int, g: int)
    requires 0 < g && SeasonBlocks(before, g) && |before| == (n - 1) * g
    requires |after| == |before| + g && after[..|before|] == before
    requires LabelledFrom(after, |before|, n)
    ensures SeasonBlocks(after, g)
  {
    forall i | 0 <= i < |after|
      ensures after[i].season == i / g + 1
    {
      if i < |before| {
        assert after[..|before|][i] == before[i];
      } else {
        BlockDiv(i, n - 1, g);
      }
    }
  }

  /** One more season of g games, played after n - 1 seasons laid out in
      blocks of g, extends the layout by block n. */
  lemma SeasonKeepsBlocks(before: League, n: int, g: int, sd: SeasonDraws, eloCurve: real -> real)
    requires Inv(before) && |sd.drift| == |TEAMS| && ValidGames(sd.games)
    requires 0 < g && |sd.games| == g
    requires SeasonBlocks(before.rows, g) && |before.rows| == (n - 1) * g
    ensures SeasonBlocks(EndSeason(RunGames(StartSeason(before, sd.drift), n, sd.games, eloCurve)).rows, g)
  {
    var start := StartSeason(before, sd.drift);
    GamesLabelRows(start, n, sd.games, eloCurve);
    BlocksExtend(before.rows, RunGames(start, n, sd.games, eloCurve).rows, n, g);
  }

  /** From an empty start with g games a season, row i belongs to season
      i / g + 1: the first g rows are season 1, the next g season 2, and so on. */
  lemma {:induction false} SeasonsLabelRows(s: League, seasons: seq<SeasonDraws>, g: int, eloCurve: real -> real)
    requires Inv(s) && s.rows == [] && Playable(seasons)
    requires 0 < g && forall sd <- seasons :: |sd.games| == g
    ensures SeasonBlocks(RunSeasons(s, seasons, eloCurve).rows, g)
    decreases |seasons|
  {
    if seasons != [] {
      var n := |seasons|;
      var prefix := seasons[..n - 1];
      SeasonStep(s, seasons, eloCurve);
      assert forall sd <- prefix :: sd in seasons;
      SeasonsLabelRows(s, prefix, g, eloCurve);
      SeasonsRowCount(s, prefix, g, eloCurve);
      var sd := seasons[n - 1];
      assert sd in seasons;
      SeasonKeepsBlocks(RunSeasons(s, prefix, eloCurve), n, g, sd, eloCurve);
    }
  }

  // ------------------------------------------------------------ strength

  /** The total drift team number k has received over the given seasons. */
  function DriftSum(seasons: seq<SeasonDraws>, k: int): int
    requires 0 <= k && forall sd <- seasons :: k < |sd.drift|
  {
    if seasons == [] then 0
    else DriftSum(seasons[..|seasons| - 1], k) + seasons[|seasons| - 1].drift[k]
  }

  /** A team's latent strength is its initial draw plus every drift it has received. */
  lemma {:induction false} StrengthIsInitialPlusDrift(s: League, seasons: seq<SeasonDraws>, eloCurve: real -> real, t: Team)
    requires Inv(s)
    requires Playable(seasons)
    ensures RunSeasons(s, seasons, eloCurve).teamBase[t] == s.teamBase[t] + DriftSum(seasons, Index(t))
    decreases |seasons|
  {
    if seasons != [] {
      var n := |seasons|;
      SeasonStep(s, seasons, eloCurve);
      StrengthIsInitialPlusDrift(s, seasons[..n - 1], eloCurve, t);
    }
  }

  /** k drifts of at most DRIFT each move a strength by at most k * DRIFT. */
  lemma {:induction false} DriftBounded(seasons: seq<SeasonDraws>, k: int)
    requires 0 <= k && forall sd <- seasons :: k < |sd.drift| && -DRIFT <= sd.drift[k] <= DRIFT
    ensures -DRIFT * |seasons| <= DriftSum(seasons, k) <= DRIFT * |seasons|
    decreases |seasons|
  {
    if seasons != [] {
      DriftBounded(seasons[..|seasons| - 1], k);
    }
  }

  // ----------------------------------------------------------- whole run

  /** What generate_mock_games returns: seasons * games_per_season rows (none
      for a non-positive argument), in chronological order with the offseason
      gap between seasons, the first games_per_season rows labelled season 1,
      the next ones season 2 and so on, every column in range, and no row
      dated before base_date. */
  lemma MockGamesProperties(seasons: int, gamesPerSeason: int, baseDate: int, draws: Draws, eloCurve: real -> real)
    requires ValidDraws(draws, seasons, gamesPerSeason)
    ensures var rows := RunSeasons(Initial(draws.initial, baseDate), draws.seasons, eloCurve).rows;
      && |rows| == RangeLength(seasons) * RangeLength(gamesPerSeason)
      && Chronological(rows)
      && (forall i :: 0 <= i < |rows| ==> 1 <= rows[i].season <= seasons && RowInBounds(rows[i]))
      && (0 < gamesPerSeason ==> forall i :: 0 <= i < |rows| ==> rows[i].season == i / gamesPerSeason + 1)
      && (forall i :: 0 <= i < |rows| ==> baseDate <= rows[i].date)
  {
    var s := Initial(draws.initial, baseDate);
    SeasonsKeepBetween(s, baseDate, draws.seasons, eloCurve);
    SeasonsRowCount(s, draws.seasons, RangeLength(gamesPerSeason), eloCurve);
    if 0 < gamesPerSeason {
      SeasonsLabelRows(s, draws.seasons, gamesPerSeason, eloCurve);
    }
  }

  /** After the run every latent strength lies within seasons * 25 of the
      initial range [1480, 1620]. */
  lemma MockStrengthBounded(seasons: int, gamesPerSeason: int, baseDate: int, draws: Draws, eloCurve: real -> real)
    requires ValidDraws(draws, seasons, gamesPerSeason)
    ensures forall t: Team ::
      var strength := RunSeasons(Initial(draws.initial, baseDate), draws.seasons, eloCurve).teamBase[t];
      BASE_LOW - DRIFT * RangeLength(seasons) <= strength <= BASE_HIGH + DRIFT * RangeLength(seasons)
  {
    var s := Initial(draws.initial, baseDate);
    forall t: Team
      ensures var strength := RunSeasons(s, draws.seasons, eloCurve).teamBase[t];
        BASE_LOW - DRIFT * RangeLength(seasons) <= strength <= BASE_HIGH + DRIFT * RangeLength(seasons)
    {
      StrengthIsInitialPlusDrift(s, draws.seasons, eloCurve, t);
      DriftBounded(draws.seasons, Index(t));
    }
  }

  /** The rows generate_mock_games returns for the given draws: the rows of
      the season loop run from the initial state. */
  function MockGames(seasons: int, gamesPerSeason: int, baseDate: int, draws: Draws, eloCurve: real -> real)
    : (rows: seq<GameRow>)
    requires ValidDraws(draws, seasons, gamesPerSeason)
    ensures |rows| == RangeLength(seasons) * RangeLength(gamesPerSeason)
    ensures Chronological(rows)
    ensures forall i :: 0 <= i < |rows| ==> 1 <= rows[i].season <= seasons && RowInBounds(rows[i])
    ensures 0 < gamesPerSeason ==> forall i :: 0 <= i < |rows| ==> rows[i].season == i / gamesPerSeason + 1
    ensures forall i :: 0 <= i < |rows| ==> baseDate <= rows[i].date
  {
    MockGamesProperties(seasons, gamesPerSeason, baseDate, draws, eloCurve);
    RunSeasons(Initial(draws.initial, baseDate), draws.seasons, eloCurve).rows
  }
}
