/** The cut-off edit distance of the identifier-audit utility
    (`bounded_levenshtein`, Search.py): the Levenshtein distance when it is
    at most k, and k + 1 otherwise, computed row by row over a diagonal band
    of width k with an early exit once a whole row exceeds k. */
module EditDistance {
  import opened Strings

  function Min3(x: int, y: int, z: int): int { Min(x, Min(y, z)) }

  function Cost(x: char, y: char): nat { if x == y then 0 else 1 }

  /** Levenshtein distance between the prefixes a[..i] and b[..j]: the least
      number of single-character insertions, deletions and substitutions
      turning one into the other. */
  function Dist(a: string, b: string, i: nat, j: nat): nat
    requires i <= |a| && j <= |b|
    decreases i + j
  {
    if i == 0 then j
    else if j == 0 then i
    else Min3(Dist(a, b, i - 1, j) + 1, Dist(a, b, i, j - 1) + 1, Dist(a, b, i - 1, j - 1) + Cost(a[i - 1], b[j - 1]))
  }

  /** Levenshtein distance of two whole strings. */
  function Levenshtein(a: string, b: string): nat {
    Dist(a, b, |a|, |b|)
  }

  /** The result of a cut-off comparison: the distance itself up to k, and
      k + 1 above. */
  function Cap(x: int, k: int): int { if x <= k then x else k + 1 }

  lemma {:induction false} DistSymmetric(a: string, b: string, i: nat, j: nat)
    requires i <= |a| && j <= |b|
    ensures Dist(a, b, i, j) == Dist(b, a, j, i)
    decreases i + j
  {
    if i > 0 && j > 0 {
      DistSymmetric(a, b, i - 1, j);
      DistSymmetric(a, b, i, j - 1);
      DistSymmetric(a, b, i - 1, j - 1);
      DistUnfold(a, b, i, j);
      DistUnfold(b, a, j, i);
    }
  }

  /** The distance is symmetric. */
  lemma LevenshteinSymmetric(a: string, b: string)
    ensures Levenshtein(a, b) == Levenshtein(b, a)
  {
    DistSymmetric(a, b, |a|, |b|);
  }

  /** Every edit changes the length by at most one, so the distance is at
      least the difference of the lengths. */
  lemma {:induction false} DistAtLeastGap(a: string, b: string, i: nat, j: nat)
    requires i <= |a| && j <= |b|
    ensures Dist(a, b, i, j) >= i - j && Dist(a, b, i, j) >= j - i
    decreases i + j
  {
    if i > 0 && j > 0 {
      DistAtLeastGap(a, b, i - 1, j);
      DistAtLeastGap(a, b, i, j - 1);
      DistAtLeastGap(a, b, i - 1, j - 1);
    }
  }

  lemma {:induction false} DistSelf(a: string, i: nat)
    requires i <= |a|
    ensures Dist(a, a, i, i) == 0
  {
    if i > 0 {
      DistSelf(a, i - 1);
    }
  }

  /** A string is at distance 0 from itself, and the distance is at least
      the difference of the lengths. */
  lemma LevenshteinBounds(a: string, b: string)
    ensures a == b ==> Levenshtein(a, b) == 0
    ensures Levenshtein(a, b) >= |a| - |b| && Levenshtein(a, b) >= |b| - |a|
  {
    if a == b {
      DistSelf(a, |a|);
    }
    DistAtLeastGap(a, b, |a|, |b|);
  }

  /** Once every entry of row i exceeds k, so does every entry of every
      later row, and in particular the whole distance. */
  lemma {:induction false} RowAboveStaysAbove(a: string, b: string, i: nat, k: int)
    requires i <= |a|
    requires forall j :: 0 <= j <= |b| ==> Dist(a, b, i, j) > k
    ensures Dist(a, b, |a|, |b|) > k
    decreases |a| - i
  {
    if i < |a| {
      NextRowAbove(a, b, i, i + 1, k, |b|);
      RowAboveStaysAbove(a, b, i + 1, k);
    }
  }

  lemma {:induction false} NextRowAbove(a: string, b: string, i: nat, i': nat, k: int, m: nat)
    requires i' == i + 1 && i' <= |a| && m <= |b|
    requires forall j :: 0 <= j <= |b| ==> Dist(a, b, i, j) > k
    ensures forall j :: 0 <= j <= m ==> Dist(a, b, i', j) > k
  {
    if m > 0 {
      NextRowAbove(a, b, i, i', k, m - 1);
      assert Dist(a, b, i', m - 1) > k;
      assert Dist(a, b, i, m) > k && Dist(a, b, i, m - 1) > k;
    } else {
      assert Dist(a, b, i, 0) > k;
    }
  }

  /** The table the banded computation fills in: row 0 and column 0 as in
      the full table, cells more than k off the diagonal fixed at k + 1,
      and every other cell by the Levenshtein recurrence from its
      neighbours in this same table. */
  function Band(s: string, t: string, i: nat, j: nat, k: int): int
    requires i <= |s| && j <= |t|
    decreases i + j
  {
    if i == 0 then j
    else if j == 0 then i
    else if j < i - k || j > i + k then k + 1
    else Min3(Band(s, t, i - 1, j, k) + 1, Band(s, t, i, j - 1, k) + 1, Band(s, t, i - 1, j - 1, k) + Cost(s[i - 1], t[j - 1]))
  }

  /** One cell, cut off at k: the recurrence gives the same cut-off result
      whether fed exact or cut-off neighbours. */
  lemma CapCell(x: int, y: int, z: int, x': int, y': int, z': int, c: nat, k: int)
    requires Cap(x, k) == Cap(x', k) && Cap(y, k) == Cap(y', k) && Cap(z, k) == Cap(z', k)
    requires c <= 1 && k >= 0
    ensures Cap(Min3(x + 1, y + 1, z + c), k) == Cap(Min3(x' + 1, y' + 1, z' + c), k)
  {
  }

  /** A cell inside the band is given by the recurrence. */
  lemma BandUnfold(s: string, t: string, i: nat, j: nat, k: int)
    requires 1 <= i <= |s| && 1 <= j <= |t| && i - k <= j <= i + k
    ensures Band(s, t, i, j, k) == Min3(Band(s, t, i - 1, j, k) + 1, Band(s, t, i, j - 1, k) + 1, Band(s, t, i - 1, j - 1, k) + Cost(s[i - 1], t[j - 1]))
  {
  }

  /** A cell off row 0 and column 0 is given by the recurrence. */
  lemma DistUnfold(s: string, t: string, i: nat, j: nat)
    requires 1 <= i <= |s| && 1 <= j <= |t|
    ensures Dist(s, t, i, j) == Min3(Dist(s, t, i - 1, j) + 1, Dist(s, t, i, j - 1) + 1, Dist(s, t, i - 1, j - 1) + Cost(s[i - 1], t[j - 1]))
  {
  }

  /** A cell off the band is k + 1 in the banded table and more than k in
      the full one. */
  lemma BandAgreesOff(s: string, t: string, i: nat, j: nat, k: int)
    requires 1 <= i <= |s| && 1 <= j <= |t| && k >= 0 && (j < i - k || j > i + k)
    ensures Cap(Band(s, t, i, j, k), k) == Cap(Dist(s, t, i, j), k)
  {
    DistAtLeastGap(s, t, i, j);
  }

  /** A cell inside the band agrees up to the cut-off when its three
      neighbours do. */
  lemma BandAgreesIn(s: string, t: string, i: nat, j: nat, k: int)
    requires 1 <= i <= |s| && 1 <= j <= |t| && k >= 0 && i - k <= j <= i + k
    requires Cap(Band(s, t, i - 1, j, k), k) == Cap(Dist(s, t, i - 1, j), k)
    requires Cap(Band(s, t, i, j - 1, k), k) == Cap(Dist(s, t, i, j - 1), k)
    requires Cap(Band(s, t, i - 1, j - 1, k), k) == Cap(Dist(s, t, i - 1, j - 1), k)
    ensures Cap(Band(s, t, i, j, k), k) == Cap(Dist(s, t, i, j), k)
  {
    BandUnfold(s, t, i, j, k);
    DistUnfold(s, t, i, j);
    CapCell(Band(s, t, i - 1, j, k), Band(s, t, i, j - 1, k), Band(s, t, i - 1, j - 1, k),
            Dist(s, t, i - 1, j), Dist(s, t, i, j - 1), Dist(s, t, i - 1, j - 1), Cost(s[i - 1], t[j - 1]), k);
  }

  /** Row 0 and column 0 are the same in both tables. */
  lemma BandAgreesEdge(s: string, t: string, i: nat, j: nat, k: int)
    requires i <= |s| && j <= |t| && (i == 0 || j == 0)
    ensures Band(s, t, i, j, k) == Dist(s, t, i, j)
  {
  }

  /** Cut off at k, the banded table is the Levenshtein table: a cell off
      the band is more than k away from the diagonal, so its true distance
      exceeds k too. */
  lemma {:induction false} BandAgrees(s: string, t: string, i: nat, j: nat, k: int)
    requires i <= |s| && j <= |t| && k >= 0
    ensures Cap(Band(s, t, i, j, k), k) == Cap(Dist(s, t, i, j), k)
    decreases i + j
  {
    if i == 0 || j == 0 {
      BandAgreesEdge(s, t, i, j, k);
    } else if j < i - k || j > i + k {
      BandAgreesOff(s, t, i, j, k);
    } else {
      BandAgrees(s, t, i - 1, j, k);
      BandAgrees(s, t, i, j - 1, k);
      BandAgrees(s, t, i - 1, j - 1, k);
      BandAgreesIn(s, t, i, j, k);
    }
  }

  /** When a whole row of the banded table exceeds k, the distance of the
      whole strings does as well. */
  lemma BandRowAbove(s: string, t: string, i: nat, k: int)
    requires i <= |s| && k >= 0
    requires forall j :: 0 <= j <= |t| ==> Band(s, t, i, j, k) > k
    ensures Levenshtein(s, t) > k
  {
    forall j | 0 <= j <= |t|
      ensures Dist(s, t, i, j) > k
    {
      BandAgrees(s, t, i, j, k);
    }
    RowAboveStaysAbove(s, t, i, k);
  }

  /** When a row's in-band entries all exceed k, so do the others: column 0
      holds i, and i <= k would put column 1 in the band with a value at
      most i. */
  lemma BandRowOutside(s: string, t: string, i: nat, k: int)
    requires k >= 0 && 1 <= i <= |s| <= |t|
    requires forall j :: Max(1, i - k) <= j <= Min(|t|, i + k) ==> Band(s, t, i, j, k) > k
    ensures forall j :: 0 <= j <= |t| ==> Band(s, t, i, j, k) > k
  {
    BandColumnOne(s, t, i, k);
  }

  /** Column 1 of row i holds at most i. */
  lemma BandColumnOne(s: string, t: string, i: nat, k: int)
    requires k >= 0 && 1 <= i <= |s| && 1 <= |t|
    ensures i <= k ==> Band(s, t, i, 1, k) <= i
  {
    if i <= k {
      assert Band(s, t, i, 1, k) <= Band(s, t, i - 1, 0, k) + Cost(s[i - 1], t[0]);
    }
  }

  /** One row of the banded table: row i from row i - 1, only columns
      within k of the diagonal computed, the rest left at k + 1, and the
      least computed entry returned for the early exit. */
  method BandRow(s: string, t: string, prev: seq<int>, i: nat, k: int) returns (cur: seq<int>, rowMin: int)
    requires k >= 0 && 1 <= i <= |s| <= |t| && |prev| == |t| + 1
    requires forall j {:trigger prev[j]} :: 0 <= j <= |t| ==> prev[j] == Band(s, t, i - 1, j, k)
    ensures |cur| == |t| + 1
    ensures forall j {:trigger cur[j]} :: 0 <= j <= |t| ==> cur[j] == Band(s, t, i, j, k)
    ensures rowMin > k ==> forall j :: 0 <= j <= |t| ==> Band(s, t, i, j, k) > k
  {
    var nb := |t|;
    var big := k + 1;
    var start := Max(1, i - k);
    var end := Min(nb, i + k);
    cur := [i] + seq(nb, _ => big);
    rowMin := big;
    var ai := s[i - 1];
    var j := start;
    while j <= end
      invariant start <= j <= end + 1 && |cur| == nb + 1
      invariant forall j' {:trigger cur[j']} :: 0 <= j' < j ==> cur[j'] == Band(s, t, i, j', k)
      invariant forall j' {:trigger cur[j']} :: j <= j' <= nb ==> cur[j'] == big
      invariant forall j' {:trigger cur[j']} :: start <= j' < j ==> rowMin <= cur[j']
    {
      var cost := if ai == t[j - 1] then 0 else 1;
      BandUnfold(s, t, i, j, k);
      var c := Min3(prev[j] + 1, cur[j - 1] + 1, prev[j - 1] + cost);
      cur := cur[j := c];
      if c < rowMin {
        rowMin := c;
      }
      j := j + 1;
    }
    if rowMin > k {
      forall j | start <= j <= end
        ensures Band(s, t, i, j, k) > k
      {
        assert rowMin <= cur[j];
      }
      BandRowOutside(s, t, i, k);
    }
  }

  /** `bounded_levenshtein(a, b, k)`. */
  method BoundedLevenshtein(a: string, b: string, k: int) returns (d: int)
    ensures a == b ==> d == 0
    ensures a != b && (|a| - |b| > k || |b| - |a| > k) ==> d == k + 1
    ensures k >= 0 ==> d == Cap(Levenshtein(a, b), k)
    ensures k < 0 ==> d == (if a == b then 0 else k + 1)
  {
    LevenshteinBounds(a, b);
    if a == b {
      return 0;
    }
    var na, nb := |a|, |b|;
    if na - nb > k || nb - na > k {
      return k + 1;
    }

    // Make s the shorter one
    var s, t := a, b;
    if na > nb {
      s, t := b, a;
      na, nb := nb, na;
    }
    LevenshteinSymmetric(a, b);

    var big := k + 1;
    var prev := seq(nb + 1, j => j);
    var i := 1;
    while i <= na
      invariant 1 <= i <= na + 1
      invariant |prev| == nb + 1
      invariant forall j :: 0 <= j <= nb ==> prev[j] == Band(s, t, i - 1, j, k)
    {
      var cur, rowMin := BandRow(s, t, prev, i, k);
      if rowMin > k {
        BandRowAbove(s, t, i, k);
        return big;
      }
      prev := cur;
      i := i + 1;
    }

    BandAgrees(s, t, na, nb, k);
    d := if prev[nb] <= k then prev[nb] else big;
  }
}
