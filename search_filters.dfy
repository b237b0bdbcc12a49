/** The pure filters of the identifier-audit utility (Search.py): directory
    skip patterns and the per-file and overall A/B expectation check. */
module SearchFilters {
  import opened Strings
  import opened SearchTypes

  /** A skip pattern matches a directory name: a pattern ending in '*'
      matches every name starting with the text before the '*', any other
      pattern only the identical name. */
  predicate PatternMatches(name: string, p: string) {
    if |p| > 0 && p[|p| - 1] == '*' then p[..|p| - 1] <= name else name == p
  }

  /** `should_skip_dir`: the patterns are tried in order and the first match
      skips the directory. */
  function ShouldSkipDir(name: string, patterns: seq<string>): (r: bool)
    ensures r <==> exists i :: 0 <= i < |patterns| && PatternMatches(name, patterns[i])
  {
    if patterns == [] then false
    else if PatternMatches(name, patterns[0]) then true
    else
      var r := ShouldSkipDir(name, patterns[1..]);
      assert forall i :: 1 <= i < |patterns| ==> patterns[i] == patterns[1..][i - 1];
      r
  }

  /** Skipping under a concatenated list is skipping under either part, so
      the outcome does not depend on how the patterns are grouped. */
  lemma SkipConcat(name: string, ps: seq<string>, qs: seq<string>)
    ensures ShouldSkipDir(name, ps + qs) == (ShouldSkipDir(name, ps) || ShouldSkipDir(name, qs))
  {
    if ShouldSkipDir(name, ps + qs) {
      var i :| 0 <= i < |ps + qs| && PatternMatches(name, (ps + qs)[i]);
      if i >= |ps| {
        assert qs[i - |ps|] == (ps + qs)[i];
      }
    }
    if ShouldSkipDir(name, ps) {
      var i :| 0 <= i < |ps| && PatternMatches(name, ps[i]);
      assert (ps + qs)[i] == ps[i];
    }
    if ShouldSkipDir(name, qs) {
      var i :| 0 <= i < |qs| && PatternMatches(name, qs[i]);
      assert (ps + qs)[|ps| + i] == qs[i];
    }
  }

  /** The pattern "*" skips every directory; with no patterns nothing is
      skipped. */
  lemma StarSkipsAll(name: string, ps: seq<string>)
    requires "*" in ps
    ensures ShouldSkipDir(name, ps)
    ensures !ShouldSkipDir(name, [])
  {
    var i :| 0 <= i < |ps| && ps[i] == "*";
    assert PatternMatches(name, ps[i]);
  }

  /** The non-ratio values of `--expect`. */
  datatype Expectation = Equal | AAtLeastB | BAtLeastA

  /** `check_expectation` for the three integer modes. */
  function CheckExpectation(row: CompareRow, mode: Expectation, tolerance: int): (ok: bool)
  {
    match mode
    case Equal => (if row.diff < 0 then -row.diff else row.diff) <= tolerance
    case AAtLeastB => row.diff >= -tolerance
    case BAtLeastA => row.diff <= tolerance
  }

  /** What each mode accepts, stated on the counts: equal means the counts
      are within the tolerance of each other, a>=b that A falls short of B
      by at most the tolerance, b>=a that A exceeds B by at most it. */
  lemma CheckExpectationMeaning(row: CompareRow, tolerance: int)
    requires row.diff == row.countA - row.countB
    ensures CheckExpectation(row, Equal, tolerance) <==> row.countB - tolerance <= row.countA <= row.countB + tolerance
    ensures CheckExpectation(row, AAtLeastB, tolerance) <==> row.countA + tolerance >= row.countB
    ensures CheckExpectation(row, BAtLeastA, tolerance) <==> row.countB + tolerance >= row.countA
    ensures CheckExpectation(row, Equal, tolerance) <==>
              CheckExpectation(row, AAtLeastB, tolerance) && CheckExpectation(row, BAtLeastA, tolerance)
  {
  }

  /** Raising the tolerance never turns a passing row into a failing one. */
  lemma CheckExpectationMonotone(row: CompareRow, mode: Expectation, t: int, t': int)
    requires t <= t' && CheckExpectation(row, mode, t)
    ensures CheckExpectation(row, mode, t')
  {
  }

  function TotalA(rows: seq<CompareRow>): int {
    if rows == [] then 0 else TotalA(rows[..|rows| - 1]) + rows[|rows| - 1].countA
  }

  function TotalB(rows: seq<CompareRow>): int {
    if rows == [] then 0 else TotalB(rows[..|rows| - 1]) + rows[|rows| - 1].countB
  }

  /** The `<TOTAL>` row built from the per-file rows. */
  function OverallRow(rows: seq<CompareRow>): (r: CompareRow)
    ensures r.diff == r.countA - r.countB && r.locsA == [] && r.locsB == []
  {
    CompareRow("<TOTAL>", TotalA(rows), TotalB(rows), TotalA(rows) - TotalB(rows), [], [])
  }

  function TotalDiff(rows: seq<CompareRow>): int {
    if rows == [] then 0 else TotalDiff(rows[..|rows| - 1]) + rows[|rows| - 1].diff
  }

  /** The overall difference is the sum of the per-file differences. */
  lemma {:induction false} OverallDiffIsSum(rows: seq<CompareRow>)
    requires forall i :: 0 <= i < |rows| ==> rows[i].diff == rows[i].countA - rows[i].countB
    ensures OverallRow(rows).diff == TotalDiff(rows)
    decreases |rows|
  {
    if rows != [] {
      OverallDiffIsSum(rows[..|rows| - 1]);
    }
  }

  /** With tolerance 0, files that all meet the expectation make a total
      that meets it too. */
  lemma {:induction false} ExactRowsGiveExactTotal(rows: seq<CompareRow>, mode: Expectation)
    requires forall i :: 0 <= i < |rows| ==> rows[i].diff == rows[i].countA - rows[i].countB
    requires forall i :: 0 <= i < |rows| ==> CheckExpectation(rows[i], mode, 0)
    ensures CheckExpectation(OverallRow(rows), mode, 0)
    decreases |rows|
  {
    if rows != [] {
      var init := rows[..|rows| - 1];
      ExactRowsGiveExactTotal(init, mode);
      assert CheckExpectation(rows[|rows| - 1], mode, 0);
    }
  }

  /** With a positive tolerance the total may fail although every file
      passes: two files one A-hit ahead each pass "equal" at tolerance 1,
      their total does not. */
  lemma TolerancesDoNotAdd()
    ensures var rows := [CompareRow("x", 1, 0, 1, [], []), CompareRow("y", 1, 0, 1, [], [])];
            (forall i :: 0 <= i < |rows| ==> CheckExpectation(rows[i], Equal, 1)) &&
            !CheckExpectation(OverallRow(rows), Equal, 1)
  {
    var rows := [CompareRow("x", 1, 0, 1, [], []), CompareRow("y", 1, 0, 1, [], [])];
    var first := rows[..1];
    assert first == [rows[0]];
    assert first[..|first| - 1] == [];
    assert TotalA(first) == TotalA([]) + 1 == 1;
    assert TotalB(first) == TotalB([]) + 0 == 0;
    assert rows[..|rows| - 1] == first;
    assert TotalA(rows) == TotalA(first) + 1 == 2;
    assert TotalB(rows) == TotalB(first) + 0 == 0;
  }
}
