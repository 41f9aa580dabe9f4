# Sports outcome predictor: the mock league simulator and the preprocessing step, in Dafny

This project models two pieces of `sports-outcome-predictor`:

- `src/mock_data.py`, `generate_mock_games`: a synthetic basketball league.
  Ten teams get a latent strength, which drifts before every season. For each game the
  simulator draws a pairing and may skip a calendar day. It reads both teams'
  rest days, an injury hit and their form, which is the win rate over the last ten
  results. From these it builds effective ratings, a clamped home-win probability,
  an outcome and two clamped scores. It then records the result in both teams'
  ten-result windows and last-played dates, may advance the clock, and emits
  one row. An offseason gap of 120 days follows each season.
- `src/preprocess.py`, `preprocess`: it turns a games table into the classifier's
  features. It recognises the mock schema, which takes precedence, and the
  FiveThirtyEight schema. It builds `home_elo`, `away_elo`, `elo_diff`, any optional
  mock columns and `home_win`, and then drops incomplete rows.

How the pieces map onto Dafny:

- `generate_mock_games` is imperative, and so is its model `MockGenerator.GenerateMockGames`.
  That method loops over seasons and games. It updates the strength map, the
  last-played map, the per-team windows, the clock and the row list. It is proved to
  emit exactly the rows of a pure reference run, `MockRun.MockGames`, which folds
  one game step (`MockData.PlayGame`) over the games and seasons.
- What the simulator promises is proved about the reference run in `MockProps` and
  `MockRun`:
  - every column's range;
  - distinct teams in each pairing;
  - chronological rows with the offseason gap between seasons;
  - the row count, and the season label of every row;
  - form as the win rate of the newest ten results of the current season;
  - how far strengths can drift.
- `preprocess` is a pure function over a frame. A frame is its column names and its rows;
  a row maps a column name to a cell, and a missing cell (NaN) is `None`. Its outcome
  is a `Result` whose failure is the `ValueError` the source raises.

Randomness is an oracle. Every call into `random` is a field of a `Draws` value,
consumed in the source's order: the initial strengths, then per season the drift
and per game up to twelve draws. The two injury picks are `random.choice` calls that
the code makes only when its injury roll hits; a pick is ignored otherwise. `random.sample(TEAMS, 2)` is modelled as CPython's
pool-swap selection, which uses two index draws. The Elo curve
`1 / (1 + 10 ** (-d / 400))` is the parameter `eloCurve`. Dates are day numbers.
Floats are exact reals.

Details of the code that the model keeps:

- The offseason drift is applied before every season, including the first
  (`mock_data.py:33-36`).
- Scores use `int()`, which truncates toward zero (`mock_data.py:103-104`); they are not rounded.
- The clamp at `mock_data.py:96` allows a probability of exactly 0.01 or 0.99.
- The form effect `50 * (home_form - away_form)` (`mock_data.py:87`) reaches ±50 on each
  side, although the comment on the line above it says about ±25.
- Scores are clamped to [80, 150] (`mock_data.py:105-106`), although the comment at
  `mock_data.py:101` says 90–140.

The FiveThirtyEight branch compares scores with `>`. A missing score makes that
comparison false, so such a row is kept with `home_win = 0`; it is not dropped
(`preprocess.py:50-51`). `Preprocess.FteKept` and `Preprocess.FteAgrees` state this.

## Model

| member | source | states |
|---|---|---|
| Common.Trunc | sports-outcome-predictor/src/mock_data.py:103-104 | `int()` on a float truncates toward zero: the result is within one of the input, on the input's side of zero |
| Common.ClampInt | sports-outcome-predictor/src/mock_data.py:105-106 | `max(80, min(s, 150))`: in range, the identity inside, the bound outside |
| Common.ClampReal | sports-outcome-predictor/src/mock_data.py:96 | `min(max(p, 0.01), 0.99)`: in range, the identity inside, the bound outside |
| Common.RangeLength | sports-outcome-predictor/src/mock_data.py:33-43 | `range` runs zero times for a non-positive count, else the count |
| MockData.Index | sports-outcome-predictor/src/mock_data.py:6 | every team has a position in the roster, and the roster holds that team there |
| MockData.IndexOfListed | sports-outcome-predictor/src/mock_data.py:6 | the position of the team listed at i is i |
| MockData.TeamsDistinct | sports-outcome-predictor/src/mock_data.py:6 | no team is listed twice |
| MockData.Append | sports-outcome-predictor/src/mock_data.py:109-110 | `deque(maxlen=10).append` grows a short window by one, keeps a full one at ten, and holds the newest entries of window + [x] |
| MockData.Replay | sports-outcome-predictor/src/mock_data.py:28 | a window built by appends never holds more than ten results |
| MockData.Wins | sports-outcome-predictor/src/mock_data.py:74 | `sum` of a window is at most its length |
| MockData.Winrate | sports-outcome-predictor/src/mock_data.py:71-74 | form lies in [0, 1] and is 0.5 for an empty window |
| MockData.WinrateIsShareOfWins | sports-outcome-predictor/src/mock_data.py:74 | a non-empty window's form times its length is its number of wins |
| MockData.Pick | sports-outcome-predictor/src/mock_data.py:44 | `random.sample(TEAMS, 2)` never pairs a team with itself |
| MockData.RestDays | sports-outcome-predictor/src/mock_data.py:51-55 | 3 with no game yet; otherwise the days since the last game, capped at 7, never negative |
| MockData.InjuryImpact | sports-outcome-predictor/src/mock_data.py:62-65 | one of 0, 10, 15, 20, 25, 35 or 50, and non-zero exactly when the 12% roll hits |
| MockData.EffectiveRatings | sports-outcome-predictor/src/mock_data.py:81-90 | the rating gap is base gap + 55 + 12 × rest gap − home injury + away injury + 100 × form gap; the rating sum is the base sum + 55 − both injuries |
| MockData.WinProbability | sports-outcome-predictor/src/mock_data.py:94-96 | curve value plus noise, clamped into [0.01, 0.99]: equal inside, the bound outside |
| MockData.Score | sports-outcome-predictor/src/mock_data.py:102-106 | in [80, 150]; inside the range, the truncation of expectation plus noise; the bound beyond it |
| MockData.GameDay | sports-outcome-predictor/src/mock_data.py:47-48 | the game day is today, or tomorrow exactly when the 15% skip roll hits |
| MockData.Matchup | sports-outcome-predictor/src/mock_data.py:44-136 | the row's pairing is the drawn pair, its season is the loop's, every column is in range, its date is the game day or the next, and its form columns are the two windows' win rates; MockProps.MatchupColumns states the other columns |
| MockProps.MatchupColumns | sports-outcome-predictor/src/mock_data.py:44-117 | each column as the code derives it: rest and injury from the state and rolls, the truncated effective ratings, the clamped probability, home_win = 1 exactly when the outcome roll is below it, both scores from the rating gap, and the date advanced exactly when the 75% roll hits |
| MockData.Record | sports-outcome-predictor/src/mock_data.py:108-119 | appends the row, moves today to the row's date, appends each team's result to its window, marks both as played on the game day, keeps the invariant, changes nothing else |
| MockData.PlayGame | sports-outcome-predictor/src/mock_data.py:43-136 | one game keeps the invariant, appends exactly one row, keeps the strengths and moves the clock forward by at most two days |
| MockData.RunGames | sports-outcome-predictor/src/mock_data.py:43-136 | a season's games keep the invariant, append one row per game after the old rows, keep the strengths and never move the clock back |
| MockData.StartSeason | sports-outcome-predictor/src/mock_data.py:34-41 | every strength moves by its drift; every last-played date and window is cleared; the clock and rows are unchanged |
| MockData.EndSeason | sports-outcome-predictor/src/mock_data.py:138-139 | the clock moves 120 days; rows, strengths, last-played dates and windows are unchanged |
| MockData.RunSeasons | sports-outcome-predictor/src/mock_data.py:33-139 | the season loop keeps the invariant: every team in every map, no window over ten, no team last seen after today |
| MockData.Initial | sports-outcome-predictor/src/mock_data.py:21-31 | each team's strength is its initial draw; no rows; the clock at the base date; the invariant holds |
| MockProps.GameRowFacts | sports-outcome-predictor/src/mock_data.py:117-136 | the row emitted by a game carries the loop's season, every column in range, and the date after the post-game advance |
| MockProps.GameRecordsResult | sports-outcome-predictor/src/mock_data.py:70-119 | form is read before the result is recorded; then home gets the result, away its complement, the row is appended, and the teams differ |
| MockProps.GameDates | sports-outcome-predictor/src/mock_data.py:112-117 | both teams are marked played on the same day, today or tomorrow; the row is dated that day or the next; other teams are untouched |
| MockProps.SeasonOpener | sports-outcome-predictor/src/mock_data.py:38-74 | the first game of a season has rest 3 and form 0.5 for both teams |
| MockProps.ScoresDecoupledFromOutcome | sports-outcome-predictor/src/mock_data.py:98-106 | flipping only the outcome roll flips home_win and changes no other column: scores do not decide the winner |
| MockProps.HomeInjuryLowersHomeRating | sports-outcome-predictor/src/mock_data.py:89-90 | a home injury strictly lowers the home rating and leaves the away rating alone |
| MockProps.PickInjective | sports-outcome-predictor/src/mock_data.py:44 | distinct index draws give distinct ordered pairs |
| MockProps.PickCoversAllPairs | sports-outcome-predictor/src/mock_data.py:44 | every ordered pair of distinct teams can be drawn |
| MockProps.ReplayKeepsNewest | sports-outcome-predictor/src/mock_data.py:109-110 | the window after any sequence of appends is the newest ten results, oldest evicted first |
| MockProps.PerfectWindow | sports-outcome-predictor/src/mock_data.py:71-74 | a non-empty window of wins has form 1 |
| MockProps.ReplaySnoc | sports-outcome-predictor/src/mock_data.py:109-110 | replaying one more result is one more append |
| MockProps.WindowFollowsSeason | sports-outcome-predictor/src/mock_data.py:108-110 | after any games of a season, a team's window is the window of its results in this season's rows |
| MockProps.FormIsNewestSeasonResults | sports-outcome-predictor/src/mock_data.py:70-110 | a row's form columns are the win rates of each team's newest ten results this season |
| MockRun.GamesKeepPlayed | sports-outcome-predictor/src/mock_data.py:43-136 | a season's games keep the rows chronological, numbered, in bounds, between the first day and today, and earlier seasons an offseason behind |
| MockRun.SeasonKeepsBetween | sports-outcome-predictor/src/mock_data.py:33-139 | one more season keeps every row an offseason behind the clock |
| MockRun.SeasonsKeepBetween | sports-outcome-predictor/src/mock_data.py:33-139 | after k seasons the rows are chronological, numbered 1..k, in bounds and an offseason behind the clock |
| MockRun.SeasonsRowCount | sports-outcome-predictor/src/mock_data.py:33-119 | the season loop emits exactly one row per game draw |
| MockRun.GamesLabelRows | sports-outcome-predictor/src/mock_data.py:43-136 | every row a season's games append carries that season's number |
| MockRun.SeasonsLabelRows | sports-outcome-predictor/src/mock_data.py:33-136 | with g games a season, the first g rows are season 1, the next g season 2 and so on: row i is season i / g + 1 |
| MockRun.StrengthIsInitialPlusDrift | sports-outcome-predictor/src/mock_data.py:21-36 | a team's strength is its initial draw plus every drift it has received |
| MockRun.DriftBounded | sports-outcome-predictor/src/mock_data.py:36 | k drifts in [-25, 25] move a strength by at most 25k |
| MockRun.MockGamesProperties | sports-outcome-predictor/src/mock_data.py:12-141 | seasons × games_per_season rows (none for a non-positive count); chronological with the 120-day gap between seasons; row i is labelled season i / games_per_season + 1; every column in range; no date before base_date |
| MockRun.MockStrengthBounded | sports-outcome-predictor/src/mock_data.py:21-36 | after the run every strength lies in [1480 − 25k, 1620 + 25k] for k seasons |
| MockRun.MockGames | sports-outcome-predictor/src/mock_data.py:12-141 | the rows of the reference run: their count, chronology, season label i / games_per_season + 1 for row i, bounds and start date |
| MockGenerator.ApplyDrift | sports-outcome-predictor/src/mock_data.py:35-36 | the loop adds each team's drift to its strength |
| MockGenerator.ClearWindows | sports-outcome-predictor/src/mock_data.py:40-41 | the loop empties every team's window |
| MockGenerator.MatchupRow | sports-outcome-predictor/src/mock_data.py:44-106 | the imperative game body computes the reference row and game day |
| MockGenerator.PlayOneGame | sports-outcome-predictor/src/mock_data.py:43-119 | one pass of the game loop is the reference game step |
| MockGenerator.PlayGames | sports-outcome-predictor/src/mock_data.py:43-136 | the game loop is the reference run of the season's games |
| MockGenerator.PlaySeason | sports-outcome-predictor/src/mock_data.py:33-139 | one pass of the season loop is drift, reset, the season's games and the offseason gap |
| MockGenerator.PlaySeasons | sports-outcome-predictor/src/mock_data.py:33-139 | the season loop is the reference run of all the seasons |
| MockGenerator.GenerateMockGames | sports-outcome-predictor/src/mock_data.py:12-141 | the rows are the reference run's, so they have its count, chronology, season label i / games_per_season + 1 for row i, bounds and start date |
| Preprocess.Filter | sports-outcome-predictor/src/preprocess.py:37-39 | keeps exactly the elements that pass the test, never more than the input |
| Preprocess.FilterIsSubsequence | sports-outcome-predictor/src/preprocess.py:37-39 | filtering keeps the input's order |
| Preprocess.FilterCounts | sports-outcome-predictor/src/preprocess.py:42 | every copy of a kept value survives and no copy of a dropped one |
| Preprocess.PresentOptional | sports-outcome-predictor/src/preprocess.py:36-39 | the optional columns added are exactly the MOCK_OPTIONAL names the input has |
| Preprocess.PresentOptionalFacts | sports-outcome-predictor/src/preprocess.py:8-39 | the optional columns added come in MOCK_OPTIONAL order; all seven when all are present |
| Preprocess.MockColumnsLayout | sports-outcome-predictor/src/preprocess.py:31-41 | mock output columns: home_elo, away_elo, elo_diff, then the present optional columns in order, then home_win |
| Preprocess.MockColumnsComplete | sports-outcome-predictor/src/preprocess.py:8-41 | with every optional column present, the output has all eleven columns in order |
| Preprocess.EloDiff | sports-outcome-predictor/src/preprocess.py:34 | the difference is missing exactly when a rating is, and otherwise added to away_elo gives home_elo |
| Preprocess.MockRow | sports-outcome-predictor/src/preprocess.py:31-41 | a mock row has exactly the columns home_elo, away_elo, elo_diff, home_win and the present optional ones |
| Preprocess.FteRow | sports-outcome-predictor/src/preprocess.py:46-50 | a FiveThirtyEight row has exactly the four output columns, and its home_win is never missing: always 0 or 1 |
| Preprocess.DropNa | sports-outcome-predictor/src/preprocess.py:42-51 | keeps the columns; a row survives exactly when none of its cells is missing; never more rows |
| Preprocess.DropNaKeepsOrder | sports-outcome-predictor/src/preprocess.py:42-51 | dropna keeps the rows' order |
| Preprocess.DropNaCounts | sports-outcome-predictor/src/preprocess.py:42-51 | dropna keeps every copy of a complete row and no copy of another |
| Preprocess.Preprocess | sports-outcome-predictor/src/preprocess.py:18-57 | ValueError exactly when neither schema is complete; a cast error exactly when the mock schema is complete and some home_win is missing; otherwise mock columns whenever the mock schema is complete (even with FiveThirtyEight columns), else the FiveThirtyEight columns; never more rows; no missing cell |
| Preprocess.MockFrame | sports-outcome-predictor/src/preprocess.py:31-41 | the mock frame before dropna: the mock columns, one row per input row, complete exactly when its input row has both ratings and every present optional value, and then agreeing with it |
| Preprocess.FteFrame | sports-outcome-predictor/src/preprocess.py:46-50 | the FiveThirtyEight frame before dropna: its four columns, one row per input row, complete exactly when both pre-game ratings are there, and then agreeing with it |
| Preprocess.MockRowCells | sports-outcome-predictor/src/preprocess.py:31-41 | a mock output row renames the ratings, holds their difference, copies the present optional columns and truncates the target |
| Preprocess.MockRowFacts | sports-outcome-predictor/src/preprocess.py:31-42 | a mock row survives dropna exactly when both ratings and every present optional value are there, and it then agrees with its input row |
| Preprocess.MockBranchRows | sports-outcome-predictor/src/preprocess.py:30-42 | every mock output row agrees with a kept input row, every kept input row yields one, there are exactly as many output rows as kept input rows, in input order |
| Preprocess.FteRowFacts | sports-outcome-predictor/src/preprocess.py:46-51 | a FiveThirtyEight row survives exactly when both Elo ratings are there; home_win is 1 exactly when both scores are there and score1 > score2, else 0 |
| Preprocess.FteBranchRows | sports-outcome-predictor/src/preprocess.py:45-51 | without the mock schema but with the FiveThirtyEight one, preprocess succeeds; every output row agrees with a kept input row, every kept input row yields one, there are exactly as many output rows as kept input rows, in input order |
| Preprocess.EloDiffIsDifference | sports-outcome-predictor/src/preprocess.py:34-49 | in either branch every output row's elo_diff is home_elo − away_elo |

## Left out

- `write_csv` and the `__main__` block: file I/O and the CSV header.
- `logistic`: `generate_mock_games` never calls it.
- The random module: the seed, the Mersenne Twister, and the uniform and Gaussian distributions.
  The draws are an oracle, constrained only to the ranges that `randint`, `sample` and `choice` guarantee.
  Reproducibility under a fixed seed therefore holds by construction: the same draws give the same rows.
- The Elo curve's floating-point value: it is the parameter `eloCurve`, and only the clamp around it is modelled.
- Floating-point rounding throughout: floats are exact reals.
- `datetime`, `timedelta` and `strftime`: dates are day numbers, and the `YYYY-MM-DD` text form is not modelled.
- MockData.Matchup: the emitted form and probability columns hold full precision. The source rounds them to 3 and 4 places with `round`.
- MockRun.MockGames: the `deque` and the dictionaries are values (`seq` and `map`), so aliasing between them is not modelled.
- Preprocess.Preprocess: pandas dtypes are not modelled. A non-numeric cell that makes `astype(float)` raise, and an infinite target that makes `astype(int)` raise, are outside the model; cells are finite reals or missing.
- Preprocess.Preprocess: the output frame's index labels (pandas keeps the input's index after `dropna`) and duplicate column names are not modelled.
- `generate_mock_games`' default arguments (seasons=2, games_per_season=600, seed=42 and
  base_date=2022-10-01, `mock_data.py:13-16`): every argument is passed explicitly, and the seed
  only selects the draws, which are an oracle here.
- `df.copy()`: frames are values, so the caller's frame is never changed.
- `train.py`, `fetch_data.py`, `api.py` and `predict.py` are not part of this model.
