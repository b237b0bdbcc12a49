/** The A/B count of one file (`scan_file_compare`, Search.py) and the
    rendering of its location lists (`format_locs`). The file's identifiers
    arrive as a token sequence; a file that cannot be read arrives as None. */
module CompareScan {
  import opened Strings
  import opened SearchTypes

  /** A token counts for A when its key equals A's key. */
  predicate IsA(tok: Token, a: string, ci: bool) {
    Fold(tok.text, ci) == Fold(a, ci)
  }

  /** A token counts for B when it does not count for A and its key equals
      B's key. */
  predicate IsB(tok: Token, a: string, b: string, ci: bool) {
    !IsA(tok, a, ci) && Fold(tok.text, ci) == Fold(b, ci)
  }

  function At(path: string, tok: Token): Occurrence {
    Occurrence(path, tok.line, tok.col)
  }

  /** Every A hit of the token sequence, in order. */
  function HitsA(path: string, toks: seq<Token>, a: string, ci: bool): (r: seq<Occurrence>)
    ensures |r| <= |toks|
  {
    if toks == [] then []
    else
      var init := HitsA(path, toks[..|toks| - 1], a, ci);
      var last := toks[|toks| - 1];
      if IsA(last, a, ci) then init + [At(path, last)] else init
  }

  /** Every B hit of the token sequence, in order. */
  function HitsB(path: string, toks: seq<Token>, a: string, b: string, ci: bool): (r: seq<Occurrence>)
    ensures |r| <= |toks|
  {
    if toks == [] then []
    else
      var init := HitsB(path, toks[..|toks| - 1], a, b, ci);
      var last := toks[|toks| - 1];
      if IsB(last, a, b, ci) then init + [At(path, last)] else init
  }

  /** The row `scan_file_compare` returns for a readable file. */
  function CompareRowOf(path: string, toks: seq<Token>, a: string, b: string, ci: bool, locsPerFile: int): CompareRow {
    var ha := HitsA(path, toks, a, ci);
    var hb := HitsB(path, toks, a, b, ci);
    CompareRow(path, |ha|, |hb|, |ha| - |hb|, Keep(ha, locsPerFile), Keep(hb, locsPerFile))
  }

  /** Each token counts toward at most one side, so the two counts together
      never exceed the number of tokens. */
  lemma {:induction false} CountsPartitionTokens(path: string, toks: seq<Token>, a: string, b: string, ci: bool)
    ensures |HitsA(path, toks, a, ci)| + |HitsB(path, toks, a, b, ci)| <= |toks|
    decreases |toks|
  {
    if toks != [] {
      CountsPartitionTokens(path, toks[..|toks| - 1], a, b, ci);
    }
  }

  /** When A and B have the same key, A wins every tie and B is never
      counted. */
  lemma {:induction false} SameKeyCountsOnlyA(path: string, toks: seq<Token>, a: string, b: string, ci: bool)
    requires Fold(a, ci) == Fold(b, ci)
    ensures HitsB(path, toks, a, b, ci) == []
    decreases |toks|
  {
    if toks != [] {
      SameKeyCountsOnlyA(path, toks[..|toks| - 1], a, b, ci);
    }
  }

  /** The A hits are exactly the positions of the tokens matching A, in
      order. */
  lemma {:induction false} HitsAAreMatches(path: string, toks: seq<Token>, a: string, ci: bool)
    ensures forall o :: o in HitsA(path, toks, a, ci) <==>
              exists i :: 0 <= i < |toks| && IsA(toks[i], a, ci) && o == At(path, toks[i])
    decreases |toks|
  {
    if toks != [] {
      var init := toks[..|toks| - 1];
      HitsAAreMatches(path, init, a, ci);
      forall o | o in HitsA(path, toks, a, ci)
        ensures exists i :: 0 <= i < |toks| && IsA(toks[i], a, ci) && o == At(path, toks[i])
      {
        if o in HitsA(path, init, a, ci) {
          var i :| 0 <= i < |init| && IsA(init[i], a, ci) && o == At(path, init[i]);
          assert toks[i] == init[i];
        } else {
          assert IsA(toks[|toks| - 1], a, ci) && o == At(path, toks[|toks| - 1]);
        }
      }
      forall o | exists i :: 0 <= i < |toks| && IsA(toks[i], a, ci) && o == At(path, toks[i])
        ensures o in HitsA(path, toks, a, ci)
      {
        var i :| 0 <= i < |toks| && IsA(toks[i], a, ci) && o == At(path, toks[i]);
        if i < |init| {
          assert init[i] == toks[i];
        }
      }
    }
  }

  /** The B hits are exactly the positions of the tokens that match B and
      not A. */
  lemma {:induction false} HitsBAreMatches(path: string, toks: seq<Token>, a: string, b: string, ci: bool)
    ensures forall o :: o in HitsB(path, toks, a, b, ci) <==>
              exists i :: 0 <= i < |toks| && IsB(toks[i], a, b, ci) && o == At(path, toks[i])
    decreases |toks|
  {
    if toks != [] {
      var init := toks[..|toks| - 1];
      HitsBAreMatches(path, init, a, b, ci);
      forall o | o in HitsB(path, toks, a, b, ci)
        ensures exists i :: 0 <= i < |toks| && IsB(toks[i], a, b, ci) && o == At(path, toks[i])
      {
        if o in HitsB(path, init, a, b, ci) {
          var i :| 0 <= i < |init| && IsB(init[i], a, b, ci) && o == At(path, init[i]);
          assert toks[i] == init[i];
        } else {
          assert IsB(toks[|toks| - 1], a, b, ci) && o == At(path, toks[|toks| - 1]);
        }
      }
      forall o | exists i :: 0 <= i < |toks| && IsB(toks[i], a, b, ci) && o == At(path, toks[i])
        ensures o in HitsB(path, toks, a, b, ci)
      {
        var i :| 0 <= i < |toks| && IsB(toks[i], a, b, ci) && o == At(path, toks[i]);
        if i < |init| {
          assert init[i] == toks[i];
        }
      }
    }
  }

  /** The positions of the tokens that count for A. */
  ghost function PositionsA(toks: seq<Token>, a: string, ci: bool): set<int> {
    set i | 0 <= i < |toks| && IsA(toks[i], a, ci)
  }

  /** The positions of the tokens that count for B. */
  ghost function PositionsB(toks: seq<Token>, a: string, b: string, ci: bool): set<int> {
    set i | 0 <= i < |toks| && IsB(toks[i], a, b, ci)
  }

  /** One more token adds its position to the side it counts for. */
  lemma PositionsStep(toks: seq<Token>, a: string, b: string, ci: bool)
    requires toks != []
    ensures var n := |toks| - 1;
            PositionsA(toks, a, ci) == PositionsA(toks[..n], a, ci) + (if IsA(toks[n], a, ci) then {n} else {})
    ensures var n := |toks| - 1;
            PositionsB(toks, a, b, ci) == PositionsB(toks[..n], a, b, ci) + (if IsB(toks[n], a, b, ci) then {n} else {})
  {
    var n := |toks| - 1;
    var init := toks[..n];
    forall i | 0 <= i < n ensures toks[i] == init[i] { }
  }

  /** `count_a` and `count_b` are the numbers of token positions that count
      for A and for B. */
  lemma {:induction false} HitCounts(path: string, toks: seq<Token>, a: string, b: string, ci: bool)
    ensures |HitsA(path, toks, a, ci)| == |PositionsA(toks, a, ci)|
    ensures |HitsB(path, toks, a, b, ci)| == |PositionsB(toks, a, b, ci)|
    decreases |toks|
  {
    if toks != [] {
      var n := |toks| - 1;
      HitCounts(path, toks[..n], a, b, ci);
      PositionsStep(toks, a, b, ci);
      assert n !in PositionsA(toks[..n], a, ci);
      assert n !in PositionsB(toks[..n], a, b, ci);
    }
  }

  /** Extending the scanned prefix by one token extends the hits of the
      side it counts for. */
  lemma HitsStep(path: string, toks: seq<Token>, n: nat, a: string, b: string, ci: bool)
    requires n < |toks|
    ensures HitsA(path, toks[..n + 1], a, ci) ==
            HitsA(path, toks[..n], a, ci) + (if IsA(toks[n], a, ci) then [At(path, toks[n])] else [])
    ensures HitsB(path, toks[..n + 1], a, b, ci) ==
            HitsB(path, toks[..n], a, b, ci) + (if IsB(toks[n], a, b, ci) then [At(path, toks[n])] else [])
  {
    assert toks[..n + 1][..n] == toks[..n];
  }

  /** `if cap == 0 or len(l) < cap: l.append(x)` on a list holding the
      kept part of `hits`: afterwards it holds the kept part of `hits + [x]`. */
  method AppendCapped(ghost hits: seq<Occurrence>, l: seq<Occurrence>, x: Occurrence, cap: int) returns (l': seq<Occurrence>)
    requires l == Keep(hits, cap)
    ensures l' == Keep(hits + [x], cap)
  {
    KeepAppend(hits, x, cap);
    l' := l;
    if cap == 0 || |l| < cap {
      l' := l + [x];
    }
  }

  /** The counting loop of `scan_file_compare`: every token is matched
      against A first and B second; the counters record the hits and the
      location lists their first `locsPerFile` positions (all of them when
      `locsPerFile` is 0). */
  method CountTokens(path: string, toks: seq<Token>, a: string, b: string, ci: bool, locsPerFile: int)
    returns (ca: int, cb: int, la: seq<Occurrence>, lb: seq<Occurrence>)
    ensures ca == |HitsA(path, toks, a, ci)| && la == Keep(HitsA(path, toks, a, ci), locsPerFile)
    ensures cb == |HitsB(path, toks, a, b, ci)| && lb == Keep(HitsB(path, toks, a, b, ci), locsPerFile)
  {
    var acmp := Fold(a, ci);
    var bcmp := Fold(b, ci);
    ca, cb, la, lb := 0, 0, [], [];
    var n := 0;
    while n < |toks|
      invariant n <= |toks|
      invariant ca == |HitsA(path, toks[..n], a, ci)| && la == Keep(HitsA(path, toks[..n], a, ci), locsPerFile)
      invariant cb == |HitsB(path, toks[..n], a, b, ci)| && lb == Keep(HitsB(path, toks[..n], a, b, ci), locsPerFile)
    {
      var tok := toks[n];
      HitsStep(path, toks, n, a, b, ci);
      var tcmp := Fold(tok.text, ci);
      if tcmp == acmp {
        ca := ca + 1;
        la := AppendCapped(HitsA(path, toks[..n], a, ci), la, Occurrence(path, tok.line, tok.col), locsPerFile);
      } else if tcmp == bcmp {
        cb := cb + 1;
        lb := AppendCapped(HitsB(path, toks[..n], a, b, ci), lb, Occurrence(path, tok.line, tok.col), locsPerFile);
      }
      n := n + 1;
    }
    assert toks[..n] == toks;
  }

  /** `scan_file_compare`: a file that cannot be read gives an empty row,
      a readable one the counts and capped locations of its A and B hits. */
  method ScanFileCompare(path: string, text: Option<seq<Token>>, a: string, b: string, ci: bool, locsPerFile: int)
    returns (row: CompareRow)
    ensures text.None? ==> row == CompareRow(path, 0, 0, 0, [], [])
    ensures text.Some? ==> row == CompareRowOf(path, text.value, a, b, ci, locsPerFile)
  {
    if text.None? {
      return CompareRow(path, 0, 0, 0, [], []);
    }
    var ca, cb, la, lb := CountTokens(path, text.value, a, b, ci, locsPerFile);
    row := CompareRow(path, ca, cb, ca - cb, la, lb);
  }

  /** Python's `locs[:maxItems]`: a negative bound counts from the end. */
  function SliceTo<T>(l: seq<T>, maxItems: int): (r: seq<T>)
    ensures r <= l
    ensures |r| == if maxItems >= 0 then Min(maxItems, |l|) else Max(|l| + maxItems, 0)
  {
    if maxItems >= 0 then l[..Min(maxItems, |l|)] else l[..Max(|l| + maxItems, 0)]
  }

  function LineCol(o: Occurrence): string {
    IntToString(o.line) + ":" + IntToString(o.col)
  }

  /** `", ".join(f"{o.line}:{o.col}" for o in shown)`. */
  function JoinLocs(shown: seq<Occurrence>): string {
    if shown == [] then ""
    else if |shown| == 1 then LineCol(shown[0])
    else JoinLocs(shown[..|shown| - 1]) + ", " + LineCol(shown[|shown| - 1])
  }

  /** The suffix naming how many locations were left out; the ellipsis is
      stored as the three characters U+00E2 U+20AC U+00A6 (a UTF-8 '…'
      decoded as Windows-1252). */
  function MoreSuffix(hidden: int): string {
    ", \U{E2}\U{20AC}\U{A6}(+" + IntToString(hidden) + ")"
  }

  /** `format_locs`: the first `maxItems` locations as "line:col" joined by
      ", ", followed by a count of the rest when there are more. */
  function FormatLocs(locs: seq<Occurrence>, maxItems: int): string {
    var s := JoinLocs(SliceTo(locs, maxItems));
    if |locs| > maxItems then s + MoreSuffix(|locs| - maxItems) else s
  }

  lemma NoColonInNumber(n: int)
    ensures CountChar(IntToString(n), ':') == 0
  {
    CountCharAbsent(IntToString(n), ':');
  }

  lemma {:induction false} JoinLocsColons(shown: seq<Occurrence>)
    ensures CountChar(JoinLocs(shown), ':') == |shown|
    decreases |shown|
  {
    if shown != [] {
      var o := shown[|shown| - 1];
      NoColonInNumber(o.line);
      NoColonInNumber(o.col);
      CountCharAppend(IntToString(o.line), ":", ':');
      CountCharAppend(IntToString(o.line) + ":", IntToString(o.col), ':');
      assert CountChar(":", ':') == 1 by {
        assert ":"[..0] == [];
      }
      if |shown| > 1 {
        JoinLocsColons(shown[..|shown| - 1]);
        CountCharAppend(JoinLocs(shown[..|shown| - 1]), ", ", ':');
        CountCharAbsent(", ", ':');
        CountCharAppend(JoinLocs(shown[..|shown| - 1]) + ", ", LineCol(o), ':');
      }
    }
  }

  lemma SuffixHasNoColon(hidden: int)
    ensures CountChar(MoreSuffix(hidden), ':') == 0
  {
    var head := ", \U{E2}\U{20AC}\U{A6}(+";
    NoColonInNumber(hidden);
    CountCharAbsent(head, ':');
    CountCharAbsent(")", ':');
    CountCharAppend(head, IntToString(hidden), ':');
    CountCharAppend(head + IntToString(hidden), ")", ':');
  }

  /** The rendered text holds one "line:col" entry per location shown: as
      many ':' as shown locations, which is min(maxItems, |locs|) for a
      non-negative bound. */
  lemma FormatLocsEntries(locs: seq<Occurrence>, maxItems: int)
    ensures CountChar(FormatLocs(locs, maxItems), ':') == |SliceTo(locs, maxItems)|
    ensures maxItems >= 0 ==> CountChar(FormatLocs(locs, maxItems), ':') == Min(maxItems, |locs|)
  {
    JoinLocsColons(SliceTo(locs, maxItems));
    if |locs| > maxItems {
      SuffixHasNoColon(|locs| - maxItems);
      CountCharAppend(JoinLocs(SliceTo(locs, maxItems)), MoreSuffix(|locs| - maxItems), ':');
    }
  }

  lemma JoinLocsEnd(shown: seq<Occurrence>)
    ensures JoinLocs(shown) == [] <==> shown == []
    ensures shown != [] ==> IsDigit(JoinLocs(shown)[|JoinLocs(shown)| - 1])
  {
    if shown != [] {
      var s := IntToString(shown[|shown| - 1].col);
      assert LineCol(shown[|shown| - 1])[|LineCol(shown[|shown| - 1])| - 1] == s[|s| - 1];
    }
  }

  /** The text ends in ')' exactly when some locations were left out, and
      when none were it is the plain join of all of them. */
  lemma FormatLocsTruncation(locs: seq<Occurrence>, maxItems: int)
    ensures var r := FormatLocs(locs, maxItems);
            |r| > 0 && r[|r| - 1] == ')' <==> |locs| > maxItems
    ensures |locs| <= maxItems ==> FormatLocs(locs, maxItems) == JoinLocs(locs)
  {
    JoinLocsEnd(SliceTo(locs, maxItems));
    if |locs| <= maxItems {
      assert SliceTo(locs, maxItems) == locs;
    }
  }
}
