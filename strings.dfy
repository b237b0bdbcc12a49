/** Helpers shared by the identifier-audit utility and the effect pipeline:
    an optional value, substring search with the semantics of Python's
    `str.find` and C++'s `std::string::find`, decimal rendering of integers,
    and small integer helpers. */
module Strings {

  datatype Option<T> = None | Some(value: T)

  function Min(x: int, y: int): int { if x <= y then x else y }
  function Max(x: int, y: int): int { if x >= y then x else y }

  /** `pat` occurs in `s` starting at index `i`. */
  predicate MatchAt(s: string, pat: string, i: nat) {
    i + |pat| <= |s| && s[i..i + |pat|] == pat
  }

  /** Lowest index `p >= from` at which `pat` occurs in `s`, or -1 when there
      is none (Python's `str.find(pat, from)`; C++'s `find` with `npos`
      written as -1). */
  function Find(s: string, pat: string, from: nat): (p: int)
    ensures p == -1 || (from <= p && MatchAt(s, pat, p))
    ensures p != -1 ==> forall q :: from <= q < p ==> !MatchAt(s, pat, q)
    ensures p == -1 ==> forall q :: from <= q ==> !MatchAt(s, pat, q)
    decreases |s| - from
  {
    if from + |pat| > |s| then -1
    else if s[from..from + |pat|] == pat then from
    else Find(s, pat, from + 1)
  }

  /** Number of occurrences of `c` in `s`. */
  function CountChar(s: string, c: char): nat {
    if s == [] then 0 else CountChar(s[..|s| - 1], c) + (if s[|s| - 1] == c then 1 else 0)
  }

  lemma {:induction false} CountCharAppend(s: string, t: string, c: char)
    ensures CountChar(s + t, c) == CountChar(s, c) + CountChar(t, c)
    decreases |t|
  {
    if t == [] {
      assert s + t == s;
    } else {
      var t' := t[..|t| - 1];
      assert (s + t)[..|s + t| - 1] == s + t';
      CountCharAppend(s, t', c);
    }
  }

  lemma {:induction false} CountCharAbsent(s: string, c: char)
    requires forall i :: 0 <= i < |s| ==> s[i] != c
    ensures CountChar(s, c) == 0
    decreases |s|
  {
    if s != [] {
      CountCharAbsent(s[..|s| - 1], c);
    }
  }

  predicate IsDigit(c: char) { '0' <= c <= '9' }

  /** Decimal digits of a natural number, most significant first, without
      leading zeros (Python's `str` and `f"{n}"` on a non-negative int). */
  function NatToString(n: nat): (r: string)
    ensures |r| >= 1 && forall i :: 0 <= i < |r| ==> IsDigit(r[i])
    ensures n < 10 <==> |r| == 1
    ensures r[0] == '0' <==> n == 0
    decreases n
  {
    if n < 10 then [('0' as int + n) as char]
    else NatToString(n / 10) + [('0' as int + n % 10) as char]
  }

  /** The value of one decimal digit. */
  function DigitOf(c: char): (d: nat)
    requires IsDigit(c)
    ensures d < 10
  {
    c as int - '0' as int
  }

  /** The number a string of decimal digits denotes, most significant
      digit first. */
  function DigitsValue(r: string): nat
    requires forall i :: 0 <= i < |r| ==> IsDigit(r[i])
  {
    if r == [] then 0 else DigitsValue(r[..|r| - 1]) * 10 + DigitOf(r[|r| - 1])
  }

  /** The digits `NatToString` produces denote n. */
  lemma {:induction false} NatToStringValue(n: nat)
    ensures DigitsValue(NatToString(n)) == n
    decreases n
  {
    if n >= 10 {
      var init := NatToString(n / 10);
      var r := NatToString(n);
      assert r[..|r| - 1] == init;
      NatToStringValue(n / 10);
    }
  }

  /** Decimal rendering of an integer, with a leading '-' when negative. */
  function IntToString(n: int): (r: string)
    ensures |r| >= 1 && IsDigit(r[|r| - 1])
    ensures forall i :: 0 <= i < |r| ==> IsDigit(r[i]) || (i == 0 && r[i] == '-')
    ensures n >= 0 <==> IsDigit(r[0])
  {
    if n >= 0 then NatToString(n) else "-" + NatToString(-n)
  }

  /** The digits after an optional '-' denote |n|, and the sign is n's. */
  lemma IntToStringValue(n: int)
    ensures var r := IntToString(n);
            if n >= 0 then DigitsValue(r) == n
            else r[0] == '-' && DigitsValue(r[1..]) == -n
  {
    if n >= 0 {
      NatToStringValue(n);
    } else {
      assert IntToString(n)[1..] == NatToString(-n);
      NatToStringValue(-n);
    }
  }
}
