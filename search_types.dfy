/** Records of the identifier-audit utility (Search.py) and the helpers its
    counting loops share: ASCII case folding and the location-list cap. */
module SearchTypes {
  import opened Strings

  /** One place an identifier was seen: file path, 1-based line and column. */
  datatype Occurrence = Occurrence(path: string, line: int, col: int)

  /** An identifier as the tokenizer yields it, with its 1-based position. */
  datatype Token = Token(text: string, line: int, col: int)

  /** The per-file result of the A/B comparison. */
  datatype CompareRow = CompareRow(path: string, countA: int, countB: int, diff: int,
                                   locsA: seq<Occurrence>, locsB: seq<Occurrence>)

  /** Near-miss hits of one token: how often it was seen and where. */
  datatype NearTokenAggregate = NearTokenAggregate(token: string, count: int, locs: seq<Occurrence>)

  function LowerChar(c: char): char {
    if 'A' <= c <= 'Z' then (c as int + 32) as char else c
  }

  /** `str.lower()` restricted to ASCII letters. */
  function Lower(s: string): (r: string)
    ensures |r| == |s|
    ensures forall i :: 0 <= i < |s| ==> r[i] == LowerChar(s[i])
  {
    seq(|s|, i requires 0 <= i < |s| => LowerChar(s[i]))
  }

  /** Folding twice is folding once. */
  lemma LowerIdempotent(s: string)
    ensures Lower(Lower(s)) == Lower(s)
  {
  }

  /** The comparison key of a token: folded when matching ignores case. */
  function Fold(s: string, caseInsensitive: bool): string {
    if caseInsensitive then Lower(s) else s
  }

  /** The list a capped append loop keeps: with cap 0 everything, with a
      negative cap nothing (`len(l) < cap` never holds), otherwise the first
      `cap` entries. */
  function Keep<T>(l: seq<T>, cap: int): (r: seq<T>)
    ensures r <= l
    ensures |r| == if cap == 0 then |l| else Min(|l|, Max(cap, 0))
  {
    if cap == 0 then l else l[..Min(|l|, Max(cap, 0))]
  }

  /** One step of the loop `if cap == 0 or len(l) < cap: l.append(x)`: the
      list kept so far grows by x exactly when it is still under the cap. */
  lemma KeepAppend<T>(l: seq<T>, x: T, cap: int)
    ensures Keep(l + [x], cap) == if cap == 0 || |Keep(l, cap)| < cap then Keep(l, cap) + [x] else Keep(l, cap)
  {
    if cap != 0 && |Keep(l, cap)| < cap {
      assert |Keep(l, cap)| == |l|;
      assert (l + [x])[..|l| + 1] == l + [x];
    }
  }

  /** A list already within the cap is kept whole. */
  lemma KeepWithinCap<T>(l: seq<T>, cap: int)
    requires cap == 0 || |l| <= Max(cap, 0)
    ensures Keep(l, cap) == l
  {
  }
}
