/**
 * preprocess: turn a games table into the feature frame the classifier
 * trains on. A frame is its column names plus its rows; a row maps a column
 * name to a cell, and a missing cell (pandas' NaN) is None. Two input
 * schemas are recognised: the mock generator's and FiveThirtyEight's.
 */
module Preprocess {
  import opened Common

  type Cell = Option<real>
  type Row = map<string, Cell>

  datatype Frame = Frame(columns: seq<string>, rows: seq<Row>)

  /** Why preprocess raises ValueError: neither schema is present, or the
      mock target column holds a missing value that astype(int) cannot cast. */
  datatype SchemaError = UnrecognizedSchema | NonFiniteTarget

  /** A row's cell in a column; a column the row lacks reads as missing. */
  function Get(row: Row, c: string): Cell {
    if c in row then row[c] else None
  }

  const MOCK_REQUIRED: seq<string> := ["home_rating", "away_rating", "home_win"]

  const MOCK_OPTIONAL: seq<string> :=
    ["home_rest_days", "away_rest_days",
     "home_injury_impact", "away_injury_impact",
     "home_recent_winrate", "away_recent_winrate",
     "home_win_prob"]

  const FTE_REQUIRED: seq<string> := ["elo1_pre", "elo2_pre", "score1", "score2"]

  /** The columns of the FiveThirtyEight branch's output, in order. */
  const FTE_COLUMNS: seq<string> := ["home_elo", "away_elo", "elo_diff", "home_win"]

  /** all(c in columns for c in required) */
  predicate HasAll(columns: seq<string>, required: seq<string>) {
    forall c <- required :: c in columns
  }

  // ------------------------------------------------------------ filtering

  /** The elements of xs that satisfy keep, in their original order. */
  function Filter<T(==)>(xs: seq<T>, keep: T -> bool): (r: seq<T>)
    ensures |r| <= |xs|
    ensures forall x <- r :: x in xs && keep(x)
    ensures forall x <- xs :: keep(x) ==> x in r
  {
    if xs == [] then []
    else if keep(xs[0]) then [xs[0]] + Filter(xs[1..], keep)
    else Filter(xs[1..], keep)
  }

  /** a can be obtained from b by deleting elements. */
  ghost predicate IsSubsequence<T>(a: seq<T>, b: seq<T>)
    decreases |b|
  {
    if a == [] then true
    else if b == [] then false
    else (a[0] == b[0] && IsSubsequence(a[1..], b[1..])) || IsSubsequence(a, b[1..])
  }

  /** Filtering keeps the original order. */
  lemma {:induction false} FilterIsSubsequence<T>(xs: seq<T>, keep: T -> bool)
    ensures IsSubsequence(Filter(xs, keep), xs)
    decreases |xs|
  {
    if xs != [] {
      FilterIsSubsequence(xs[1..], keep);
      var rest := Filter(xs[1..], keep);
      if keep(xs[0]) {
        assert Filter(xs, keep) == [xs[0]] + rest;
        assert ([xs[0]] + rest)[1..] == rest;
      }
    }
  }

  /** Filtering keeps every copy of a kept value and no copy of a dropped one. */
  lemma {:induction false} FilterCounts<T>(xs: seq<T>, keep: T -> bool)
    ensures forall x :: multiset(Filter(xs, keep))[x] == if keep(x) then multiset(xs)[x] else 0
    decreases |xs|
  {
    if xs != [] {
      FilterCounts(xs[1..], keep);
      assert xs == [xs[0]] + xs[1..];
      assert multiset(xs) == multiset([xs[0]]) + multiset(xs[1..]);
      if keep(xs[0]) {
        assert Filter(xs, keep) == [xs[0]] + Filter(xs[1..], keep);
      }
    }
  }

  /** Two lists of equal length filtered by tests that agree position by
      position keep the same number of elements. */
  lemma {:induction false} FilterLengths<S, T>(xs: seq<S>, keepX: S -> bool, ys: seq<T>, keepY: T -> bool)
    requires |xs| == |ys| && forall i :: 0 <= i < |xs| ==> keepX(xs[i]) == keepY(ys[i])
    ensures |Filter(xs, keepX)| == |Filter(ys, keepY)|
    decreases |xs|
  {
    if xs != [] {
      assert keepX(xs[0]) == keepY(ys[0]);
      assert forall i :: 0 <= i < |xs| - 1 ==> xs[1..][i] == xs[i + 1] && ys[1..][i] == ys[i + 1];
      FilterLengths(xs[1..], keepX, ys[1..], keepY);
    }
  }

  /** Filtering with a test every element passes changes nothing. */
  lemma {:induction false} FilterKeepsAll<T>(xs: seq<T>, keep: T -> bool)
    requires forall x <- xs :: keep(x)
    ensures Filter(xs, keep) == xs
    decreases |xs|
  {
    if xs != [] {
      assert xs[0] in xs;
      assert forall x <- xs[1..] :: x in xs;
      FilterKeepsAll(xs[1..], keep);
      assert [xs[0]] + xs[1..] == xs;
    }
  }

  // -------------------------------------------------------------- columns

  /** The loop over MOCK_OPTIONAL: the optional columns the input has. */
  function PresentOptional(columns: seq<string>): (r: seq<string>)
    ensures forall c <- r :: c in MOCK_OPTIONAL && c in columns
    ensures forall c <- MOCK_OPTIONAL :: c in columns ==> c in r
  {
    Filter(MOCK_OPTIONAL, c => c in columns)
  }

  /** The columns of the mock branch's output, in the order they are added. */
  function MockColumns(columns: seq<string>): seq<string> {
    ["home_elo", "away_elo", "elo_diff"] + PresentOptional(columns) + ["home_win"]
  }

  /** The optional columns kept come in MOCK_OPTIONAL order; with all of
      them present, they are all of MOCK_OPTIONAL. */
  lemma PresentOptionalFacts(columns: seq<string>)
    ensures IsSubsequence(PresentOptional(columns), MOCK_OPTIONAL)
    ensures HasAll(columns, MOCK_OPTIONAL) ==> PresentOptional(columns) == MOCK_OPTIONAL
  {
    FilterIsSubsequence(MOCK_OPTIONAL, c => c in columns);
    if HasAll(columns, MOCK_OPTIONAL) {
      FilterKeepsAll(MOCK_OPTIONAL, c => c in columns);
    }
  }

  lemma Bracketed<T>(head: seq<T>, middle: seq<T>, tail: seq<T>)
    requires |tail| == 1
    ensures var r := head + middle + tail;
      r[..|head|] == head && r[|head|..|r| - 1] == middle && r[|r| - 1] == tail[0]
  {
  }

  /** Mock output is home_elo, away_elo, elo_diff, then exactly the optional
      columns the input has, in MOCK_OPTIONAL order, then home_win. */
  lemma MockColumnsLayout(columns: seq<string>)
    ensures var r := MockColumns(columns);
      && 4 <= |r| <= 4 + |MOCK_OPTIONAL|
      && r[..3] == ["home_elo", "away_elo", "elo_diff"]
      && r[|r| - 1] == "home_win"
      && (forall c <- r[3..|r| - 1] :: c in MOCK_OPTIONAL && c in columns)
      && (forall c <- MOCK_OPTIONAL :: c in columns ==> c in r[3..|r| - 1])
      && IsSubsequence(r[3..|r| - 1], MOCK_OPTIONAL)
  {
    PresentOptionalFacts(columns);
    Bracketed(["home_elo", "away_elo", "elo_diff"], PresentOptional(columns), ["home_win"]);
  }

  /** With every optional column present, the mock output has all eleven columns. */
  lemma MockColumnsComplete(columns: seq<string>)
    requires HasAll(columns, MOCK_OPTIONAL)
    ensures MockColumns(columns) == ["home_elo", "away_elo", "elo_diff"] + MOCK_OPTIONAL + ["home_win"]
  {
    PresentOptionalFacts(columns);
  }

  // ----------------------------------------------------------------- rows

  /** home_elo - away_elo on cells: missing when either side is. */
  function EloDiff(home: Cell, away: Cell): (d: Cell)
    ensures d.Some? <==> home.Some? && away.Some?
    ensures d.Some? ==> d.value + away.value == home.value
  {
    if home.Some? && away.Some? then Some(home.value - away.value) else None
  }

  /** One row of the mock branch, before dropna: the ratings, their
      difference, the present optional columns copied, and the target cast
      to an integer (truncation toward zero). */
  function MockRow(present: seq<string>, src: Row): (r: Row)
    requires Get(src, "home_win").Some?
    ensures r.Keys == {"home_elo", "away_elo", "elo_diff", "home_win"} + (set c | c in present)
  {
    var home := Get(src, "home_rating");
    var away := Get(src, "away_rating");
    (map["home_elo" := home, "away_elo" := away, "elo_diff" := EloDiff(home, away)]
      + (map c | c in present :: Get(src, c)))
      ["home_win" := Some(Trunc(Get(src, "home_win").value) as real)]
  }

  /** One row of the FiveThirtyEight branch, before dropna: a missing score
      makes the comparison false, so the target is then 0, not missing. */
  function FteRow(src: Row): (r: Row)
    ensures r.Keys == {"home_elo", "away_elo", "elo_diff", "home_win"}
    ensures r["home_win"] == Some(1.0) || r["home_win"] == Some(0.0)
  {
    var home := Get(src, "elo1_pre");
    var away := Get(src, "elo2_pre");
    var s1 := Get(src, "score1");
    var s2 := Get(src, "score2");
    map["home_elo" := home, "away_elo" := away, "elo_diff" := EloDiff(home, away),
        "home_win" := Some(if s1.Some? && s2.Some? && s1.value > s2.value then 1.0 else 0.0)]
  }

  /** No cell of the row is missing in any of the frame's columns. */
  predicate Complete(columns: seq<string>, row: Row) {
    forall c <- columns :: Get(row, c).Some?
  }

  /** dropna: exactly the complete rows survive, in order. */
  function DropNa(f: Frame): (r: Frame)
    ensures r.columns == f.columns && |r.rows| <= |f.rows|
    ensures forall row :: row in r.rows <==> row in f.rows && Complete(f.columns, row)
  {
    Frame(f.columns, Filter(f.rows, row => Complete(f.columns, row)))
  }

  /** dropna keeps every copy of a complete row and no copy of another. */
  lemma DropNaCounts(f: Frame)
    ensures forall row :: multiset(DropNa(f).rows)[row]
                       == if Complete(f.columns, row) then multiset(f.rows)[row] else 0
  {
    var keep := row => Complete(f.columns, row);
    FilterCounts(f.rows, keep);
    assert DropNa(f).rows == Filter(f.rows, keep);
    forall row
      ensures multiset(DropNa(f).rows)[row] == if Complete(f.columns, row) then multiset(f.rows)[row] else 0
    {
      assert keep(row) == Complete(f.columns, row);
    }
  }

  lemma DropNaKeepsOrder(f: Frame)
    ensures IsSubsequence(DropNa(f).rows, f.rows)
  {
    FilterIsSubsequence(f.rows, row => Complete(f.columns, row));
  }

  // ----------------------------------------------------------- preprocess

  /** The mock branch before dropna: one output row per input row, complete
      exactly when its input row has both ratings and every present optional
      value, and then agreeing with it. */
  function MockFrame(df: Frame): (r: Frame)
    requires forall src <- df.rows :: Get(src, "home_win").Some?
    ensures r.columns == MockColumns(df.columns) && |r.rows| == |df.rows|
    ensures forall i :: 0 <= i < |df.rows| ==>
      var p := PresentOptional(df.columns);
      && (Complete(r.columns, r.rows[i]) <==> MockKept(p, df.rows[i]))
      && (MockKept(p, df.rows[i]) ==> MockAgrees(p, df.rows[i], r.rows[i]))
  {
    var present := PresentOptional(df.columns);
    var rows := seq(|df.rows|, i requires 0 <= i < |df.rows| => MockRow(present, df.rows[i]));
    MockRowsFacts(present, df.rows, rows);
    Frame(MockColumns(df.columns), rows)
  }

  /** The FiveThirtyEight branch before dropna: one output row per input row,
      complete exactly when its input row has both pre-game ratings, and then
      agreeing with it. */
  function FteFrame(df: Frame): (r: Frame)
    ensures r.columns == FTE_COLUMNS && |r.rows| == |df.rows|
    ensures forall i :: 0 <= i < |df.rows| ==>
      && (Complete(FTE_COLUMNS, r.rows[i]) <==> FteKept(df.rows[i]))
      && (FteKept(df.rows[i]) ==> FteAgrees(df.rows[i], r.rows[i]))
  {
    var rows := seq(|df.rows|, i requires 0 <= i < |df.rows| => FteRow(df.rows[i]));
    FteRowsFacts(df.rows, rows);
    Frame(FTE_COLUMNS, rows)
  }

  /** preprocess: the mock schema wins whenever its three required columns are
      present, whatever else the input has; otherwise the FiveThirtyEight
      schema; otherwise ValueError. Either branch ends with dropna. */
  function Preprocess(df: Frame): (r: Result<Frame, SchemaError>)
    ensures r == Failure(UnrecognizedSchema)
        <==> !HasAll(df.columns, MOCK_REQUIRED) && !HasAll(df.columns, FTE_REQUIRED)
    ensures r == Failure(NonFiniteTarget)
        <==> HasAll(df.columns, MOCK_REQUIRED) && exists src <- df.rows :: Get(src, "home_win").None?
    ensures r.Success? && HasAll(df.columns, MOCK_REQUIRED) ==> r.value.columns == MockColumns(df.columns)
    ensures r.Success? && !HasAll(df.columns, MOCK_REQUIRED) ==> r.value.columns == FTE_COLUMNS
    ensures r.Success? ==> |r.value.rows| <= |df.rows|
    ensures r.Success? ==> forall row <- r.value.rows :: Complete(r.value.columns, row)
  {
    if HasAll(df.columns, MOCK_REQUIRED) then
      if exists src <- df.rows :: Get(src, "home_win").None? then Failure(NonFiniteTarget)
      else Success(DropNa(MockFrame(df)))
    else if HasAll(df.columns, FTE_REQUIRED) then
      Success(DropNa(FteFrame(df)))
    else
      Failure(UnrecognizedSchema)
  }

  // ----------------------------------------------------------------- rows out

  /** What one mock output row says about the input row it comes from: the
      ratings renamed, their difference, the present optional columns copied,
      and the target truncated to an integer. */
  ghost predicate MockAgrees(present: seq<string>, src: Row, row: Row) {
    && Get(src, "home_win").Some?
    && Get(src, "home_rating").Some? && Get(src, "away_rating").Some?
    && Get(row, "home_elo") == Get(src, "home_rating")
    && Get(row, "away_elo") == Get(src, "away_rating")
    && Get(row, "elo_diff").Some?
    && Get(row, "elo_diff").value == Get(src, "home_rating").value - Get(src, "away_rating").value
    && (forall c <- present :: Get(row, c) == Get(src, c))
    && Get(row, "home_win") == Some(Trunc(Get(src, "home_win").value) as real)
  }

  /** A mock input row survives dropna exactly when both ratings and every
      present optional column hold values. */
  ghost predicate MockKept(present: seq<string>, src: Row) {
    Get(src, "home_rating").Some? && Get(src, "away_rating").Some?
    && forall c <- present :: Get(src, c).Some?
  }

  lemma CompleteSplits(head: seq<string>, middle: seq<string>, tail: seq<string>, row: Row)
    ensures Complete(head + middle + tail, row)
        <==> Complete(head, row) && Complete(middle, row) && Complete(tail, row)
  {
  }

  /** None of the fixed output names is an optional column. */
  lemma FixedNamesNotOptional()
    ensures "home_elo" !in MOCK_OPTIONAL && "away_elo" !in MOCK_OPTIONAL
    ensures "elo_diff" !in MOCK_OPTIONAL && "home_win" !in MOCK_OPTIONAL
  {
  }

  lemma MockRowCells(present: seq<string>, src: Row)
    requires Get(src, "home_win").Some? && forall c <- present :: c in MOCK_OPTIONAL
    ensures var r := MockRow(present, src);
      && Get(r, "home_elo") == Get(src, "home_rating")
      && Get(r, "away_elo") == Get(src, "away_rating")
      && Get(r, "elo_diff") == EloDiff(Get(src, "home_rating"), Get(src, "away_rating"))
      && (forall c <- present :: Get(r, c) == Get(src, c))
      && Get(r, "home_win") == Some(Trunc(Get(src, "home_win").value) as real)
  {
    FixedNamesNotOptional();
    var home := Get(src, "home_rating");
    var away := Get(src, "away_rating");
    var fixed := map["home_elo" := home, "away_elo" := away, "elo_diff" := EloDiff(home, away)];
    var copied := map c | c in present :: Get(src, c);
    var r := MockRow(present, src);
    assert r == (fixed + copied)["home_win" := Some(Trunc(Get(src, "home_win").value) as real)];
    assert "home_elo" !in copied && "away_elo" !in copied && "elo_diff" !in copied;
    forall c <- present
      ensures Get(r, c) == Get(src, c)
    {
      assert c != "home_win" && c in copied;
    }
  }

  /** A mock row is complete exactly when its input row has both ratings and
      every present optional value, and then it agrees with that input row. */
  lemma MockRowFacts(present: seq<string>, src: Row)
    requires Get(src, "home_win").Some? && forall c <- present :: c in MOCK_OPTIONAL
    ensures Complete(["home_elo", "away_elo", "elo_diff"] + present + ["home_win"], MockRow(present, src))
        <==> MockKept(present, src)
    ensures MockKept(present, src) ==> MockAgrees(present, src, MockRow(present, src))
  {
    var r := MockRow(present, src);
    MockRowCells(present, src);
    var fixed := ["home_elo", "away_elo", "elo_diff"];
    CompleteSplits(fixed, present, ["home_win"], r);
    assert Complete(fixed, r) <==> Get(src, "home_rating").Some? && Get(src, "away_rating").Some?;
    assert Complete(present, r) <==> forall c <- present :: Get(src, c).Some?;
  }

  lemma MockRowsFacts(present: seq<string>, srcs: seq<Row>, rows: seq<Row>)
    requires forall c <- present :: c in MOCK_OPTIONAL
    requires forall src <- srcs :: Get(src, "home_win").Some?
    requires |rows| == |srcs| && forall i :: 0 <= i < |srcs| ==> rows[i] == MockRow(present, srcs[i])
    ensures forall i :: 0 <= i < |srcs| ==>
      && (Complete(["home_elo", "away_elo", "elo_diff"] + present + ["home_win"], rows[i]) <==> MockKept(present, srcs[i]))
      && (MockKept(present, srcs[i]) ==> MockAgrees(present, srcs[i], rows[i]))
  {
    forall i | 0 <= i < |srcs|
      ensures && (Complete(["home_elo", "away_elo", "elo_diff"] + present + ["home_win"], rows[i]) <==> MockKept(present, srcs[i]))
              && (MockKept(present, srcs[i]) ==> MockAgrees(present, srcs[i], rows[i]))
    {
      assert srcs[i] in srcs;
      MockRowFacts(present, srcs[i]);
    }
  }

  /** The mock branch: every output row agrees with an input row that has its
      ratings and present optional values, every such input row yields an
      output row, there are as many output rows as such input rows, and the
      output keeps the input's order. */
  lemma MockBranchRows(df: Frame)
    requires HasAll(df.columns, MOCK_REQUIRED) && Preprocess(df).Success?
    ensures var out := Preprocess(df).value.rows; var p := PresentOptional(df.columns);
      && (forall row <- out :: exists src <- df.rows :: MockKept(p, src) && MockAgrees(p, src, row))
      && (forall src <- df.rows :: MockKept(p, src) ==> exists row <- out :: MockAgrees(p, src, row))
      && |out| == |Filter(df.rows, src => MockKept(p, src))|
      && IsSubsequence(out, MockFrame(df).rows)
  {
    var p := PresentOptional(df.columns);
    var all := MockFrame(df);
    var out := Preprocess(df).value.rows;
    assert out == DropNa(all).rows;
    forall row <- out
      ensures exists src <- df.rows :: MockKept(p, src) && MockAgrees(p, src, row)
    {
      var i :| 0 <= i < |all.rows| && all.rows[i] == row;
      assert df.rows[i] in df.rows;
    }
    forall src <- df.rows | MockKept(p, src)
      ensures exists row <- out :: MockAgrees(p, src, row)
    {
      var i :| 0 <= i < |df.rows| && df.rows[i] == src;
      assert all.rows[i] in all.rows;
    }
    FilterLengths(all.rows, row => Complete(all.columns, row), df.rows, src => MockKept(p, src));
    DropNaKeepsOrder(all);
  }

  /** What one FiveThirtyEight output row says about its input row: the pre-game
      Elo ratings renamed, their difference, and a home win exactly when both
      scores are present and the home score is strictly larger (a tie or a
      missing score is a 0). */
  ghost predicate FteAgrees(src: Row, row: Row) {
    var s1 := Get(src, "score1");
    var s2 := Get(src, "score2");
    && Get(src, "elo1_pre").Some? && Get(src, "elo2_pre").Some?
    && Get(row, "home_elo") == Get(src, "elo1_pre")
    && Get(row, "away_elo") == Get(src, "elo2_pre")
    && Get(row, "elo_diff").Some?
    && Get(row, "elo_diff").value == Get(src, "elo1_pre").value - Get(src, "elo2_pre").value
    && (Get(row, "home_win") == Some(1.0) <==> s1.Some? && s2.Some? && s1.value > s2.value)
    && (Get(row, "home_win") == Some(0.0) <==> !(s1.Some? && s2.Some? && s1.value > s2.value))
  }

  /** A FiveThirtyEight input row survives dropna exactly when both pre-game
      ratings hold values; missing scores do not drop it. */
  ghost predicate FteKept(src: Row) {
    Get(src, "elo1_pre").Some? && Get(src, "elo2_pre").Some?
  }

  lemma FteRowFacts(src: Row)
    ensures Complete(FTE_COLUMNS, FteRow(src)) <==> FteKept(src)
    ensures FteKept(src) ==> FteAgrees(src, FteRow(src))
  {
    var r := FteRow(src);
    assert Get(r, "home_elo") == Get(src, "elo1_pre");
    assert Get(r, "away_elo") == Get(src, "elo2_pre");
    assert Get(r, "elo_diff") == EloDiff(Get(src, "elo1_pre"), Get(src, "elo2_pre"));
    assert Get(r, "home_win").Some?;
  }

  lemma FteRowsFacts(srcs: seq<Row>, rows: seq<Row>)
    requires |rows| == |srcs| && forall i :: 0 <= i < |srcs| ==> rows[i] == FteRow(srcs[i])
    ensures forall i :: 0 <= i < |srcs| ==>
      && (Complete(FTE_COLUMNS, rows[i]) <==> FteKept(srcs[i]))
      && (FteKept(srcs[i]) ==> FteAgrees(srcs[i], rows[i]))
  {
    forall i | 0 <= i < |srcs|
      ensures && (Complete(FTE_COLUMNS, rows[i]) <==> FteKept(srcs[i]))
              && (FteKept(srcs[i]) ==> FteAgrees(srcs[i], rows[i]))
    {
      FteRowFacts(srcs[i]);
    }
  }

  /** The FiveThirtyEight branch, taken when the mock columns are incomplete
      and the FiveThirtyEight ones are present: it succeeds, every output row
      agrees with an input row whose ratings are present, every such input
      row yields an output row, there are as many output rows as such input
      rows, and the output keeps the input's order. */
  lemma FteBranchRows(df: Frame)
    requires !HasAll(df.columns, MOCK_REQUIRED) && HasAll(df.columns, FTE_REQUIRED)
    ensures Preprocess(df).Success?
    ensures var out := Preprocess(df).value.rows;
      && (forall row <- out :: exists src <- df.rows :: FteKept(src) && FteAgrees(src, row))
      && (forall src <- df.rows :: FteKept(src) ==> exists row <- out :: FteAgrees(src, row))
      && |out| == |Filter(df.rows, FteKept)|
      && IsSubsequence(out, FteFrame(df).rows)
  {
    var all := FteFrame(df);
    var out := Preprocess(df).value.rows;
    assert out == DropNa(all).rows;
    forall row <- out
      ensures exists src <- df.rows :: FteKept(src) && FteAgrees(src, row)
    {
      var i :| 0 <= i < |all.rows| && all.rows[i] == row;
      assert df.rows[i] in df.rows;
    }
    forall src <- df.rows | FteKept(src)
      ensures exists row <- out :: FteAgrees(src, row)
    {
      var i :| 0 <= i < |df.rows| && df.rows[i] == src;
      assert all.rows[i] in all.rows;
    }
    FilterLengths(all.rows, row => Complete(all.columns, row), df.rows, FteKept);
    DropNaKeepsOrder(all);
  }

  /** In either branch every output row's elo_diff is its home_elo minus its away_elo. */
  lemma EloDiffIsDifference(df: Frame)
    requires Preprocess(df).Success?
    ensures forall row <- Preprocess(df).value.rows ::
      && Get(row, "home_elo").Some? && Get(row, "away_elo").Some? && Get(row, "elo_diff").Some?
      && Get(row, "elo_diff").value == Get(row, "home_elo").value - Get(row, "away_elo").value
  {
    if HasAll(df.columns, MOCK_REQUIRED) {
      MockBranchRows(df);
    } else {
      FteBranchRows(df);
    }
  }
}
