/** The C++ comment and literal masker of the identifier-audit utility
    (`mask_cpp_comments_and_strings`, Search.py).  A single left-to-right
    scan recognises `//` comments, block comments, string and character
    literals with backslash escapes, and raw strings `R"delim( ... )delim"`,
    and blanks each recognised region: every character other than a newline
    becomes a space, so the length and every line number are kept.

    The scan is specified by `StepAt` (what the scanner does at one position)
    and `MaskFrom` (the whole scan from a position); the method
    `MaskCommentsAndStrings` is the in-place loop over a character buffer. */
module CommentMask {
  import opened Strings

  /** One scanner step at position i: whether a region [i, end) is blanked,
      and where the scan resumes. */
  datatype Step = Step(masked: bool, end: nat)

  /** `out` differs from `src` only by blanking: same length, and every
      changed character was not a newline and is now a space. */
  ghost predicate Conforms(src: string, out: string) {
    |out| == |src| &&
    forall k :: 0 <= k < |src| ==> out[k] == src[k] || (src[k] != '\n' && out[k] == ' ')
  }

  /** `put_spaces(a, b)`: blank [a, b) except newlines. */
  function Blank(out: string, a: int, b: int): (r: string)
    ensures |r| == |out|
  {
    seq(|out|, k requires 0 <= k < |out| => if a <= k < b && out[k] != '\n' then ' ' else out[k])
  }

  /** End of a `//` comment whose body starts at i: the next newline, or the
      end of the input. */
  function LineEnd(src: string, i: nat): (e: nat)
    requires i <= |src|
    ensures i <= e <= |src|
    ensures e == |src| || src[e] == '\n'
    ensures forall p :: i <= p < e ==> src[p] != '\n'
    decreases |src| - i
  {
    if i < |src| && src[i] != '\n' then LineEnd(src, i + 1) else i
  }

  /** A star-slash closes a block comment at p. */
  predicate CloserAt(src: string, p: nat) {
    p + 1 < |src| && src[p] == '*' && src[p + 1] == '/'
  }

  /** Inside a block comment from i: the position of the closing star-slash,
      or the position where fewer than two characters remain. */
  function BlockScan(src: string, i: nat): (e: nat)
    requires i <= |src|
    ensures i <= e <= |src|
    ensures e + 1 < |src| ==> CloserAt(src, e)
    ensures forall p :: i <= p < e ==> !CloserAt(src, p)
    decreases |src| - i
  {
    if i + 1 < |src| && !CloserAt(src, i) then BlockScan(src, i + 1) else i
  }

  /** Inside a literal closed by `q`, from i: one past the closing quote, or
      the end of the input.  A backslash skips the next character. */
  function QuoteEnd(src: string, i: nat, q: char): (e: nat)
    requires i <= |src|
    ensures i <= e <= |src|
    ensures e < |src| ==> i < e && src[e - 1] == q
    decreases |src| - i
  {
    if i >= |src| then i
    else if src[i] == '\\' && i + 1 < |src| then QuoteEnd(src, i + 2, q)
    else if src[i] == q then i + 1
    else QuoteEnd(src, i + 1, q)
  }

  /** First '(' at or after i, or the end of the input. */
  function ParenScan(src: string, i: nat): (e: nat)
    requires i <= |src|
    ensures i <= e <= |src|
    ensures e < |src| ==> src[e] == '('
    ensures forall p :: i <= p < e ==> src[p] != '('
    decreases |src| - i
  {
    if i < |src| && src[i] != '(' then ParenScan(src, i + 1) else i
  }

  /** The closing sequence `)delim"` of a raw string whose delimiter is
      src[from..to]. */
  function CloseSeq(src: string, from: nat, to: nat): string
    requires from <= to <= |src|
  {
    ")" + src[from..to] + "\""
  }

  /** End of a raw string whose `R"` is at i: one past its closing
      `)delim"`, or the end of the input when the '(' or the closing
      sequence is missing. */
  function RawEnd(src: string, i: nat): (e: nat)
    requires i + 2 <= |src|
    ensures i + 2 <= e <= |src|
  {
    var p := ParenScan(src, i + 2);
    if p >= |src| then |src|
    else
      var cp := Find(src, CloseSeq(src, i + 2, p), p + 1);
      if cp == -1 then |src| else cp + |CloseSeq(src, i + 2, p)|
  }

  /** What the scanner does at position i. */
  function StepAt(src: string, i: nat): (st: Step)
    requires i < |src|
    ensures i < st.end <= |src|
    ensures !st.masked ==> st.end == i + 1
  {
    var n := |src|;
    if src[i] == '/' && i + 1 < n && src[i + 1] == '/' then Step(true, LineEnd(src, i + 2))
    else if src[i] == '/' && i + 1 < n && src[i + 1] == '*' then Step(true, Min(n, BlockScan(src, i + 2) + 2))
    else if src[i] == '"' then Step(true, QuoteEnd(src, i + 1, '"'))
    else if src[i] == '\'' then Step(true, QuoteEnd(src, i + 1, '\''))
    else if src[i] == 'R' && i + 1 < n && src[i + 1] == '"' then Step(true, RawEnd(src, i))
    else Step(false, i + 1)
  }

  /** The scan from position i over the partly masked buffer `out`. */
  function MaskFrom(src: string, out: string, i: nat): (r: string)
    requires |out| == |src| && i <= |src|
    ensures |r| == |src|
    ensures Conforms(src, out) ==> Conforms(src, r)
    decreases |src| - i
  {
    if i == |src| then out
    else
      var st := StepAt(src, i);
      MaskFrom(src, if st.masked then Blank(out, i, st.end) else out, st.end)
  }

  /** The masked text of a whole source file. */
  function Masked(src: string): string {
    MaskFrom(src, src, 0)
  }

  /** Masking keeps the length, keeps every newline in place, and turns every
      character it changes into a space. */
  lemma MaskedShape(src: string)
    ensures |Masked(src)| == |src|
    ensures forall k :: 0 <= k < |src| && src[k] == '\n' ==> Masked(src)[k] == '\n'
    ensures forall k :: 0 <= k < |src| && Masked(src)[k] != src[k] ==> Masked(src)[k] == ' '
  {
    assert Conforms(src, src);
  }

  /** A blanked position stays blank for the rest of the scan. */
  lemma {:induction false} MaskFromKeepsBlanks(src: string, out: string, i: nat, k: nat)
    requires |out| == |src| && i <= |src| && k < |src| && out[k] == ' '
    ensures MaskFrom(src, out, i)[k] == ' '
    decreases |src| - i
  {
    if i < |src| {
      var st := StepAt(src, i);
      MaskFromKeepsBlanks(src, if st.masked then Blank(out, i, st.end) else out, st.end, k);
    }
  }

  /** The scan from i never changes a position before i. */
  lemma {:induction false} MaskFromKeepsBefore(src: string, out: string, i: nat, k: nat)
    requires |out| == |src| && k < i <= |src|
    ensures MaskFrom(src, out, i)[k] == out[k]
    decreases |src| - i
  {
    if i < |src| {
      var st := StepAt(src, i);
      MaskFromKeepsBefore(src, if st.masked then Blank(out, i, st.end) else out, st.end, k);
    }
  }

  /** A character at which the scanner recognises no opener keeps its value. */
  lemma UnmaskedStepKeeps(src: string, out: string, i: nat)
    requires |out| == |src| && i < |src| && !StepAt(src, i).masked
    ensures MaskFrom(src, out, i)[i] == out[i]
  {
    MaskFromKeepsBefore(src, out, i + 1, i);
  }

  /** The scan from i starts a step at k. */
  predicate StepStart(src: string, i: nat, k: nat)
    requires i <= |src|
    decreases |src| - i
  {
    k == i || (i < k < |src| && StepStart(src, StepAt(src, i).end, k))
  }

  /** The start of the step of the scan from i whose region [start, end)
      holds position k. */
  function CoveringStep(src: string, i: nat, k: nat): (j: nat)
    requires i <= k < |src|
    ensures i <= j <= k < StepAt(src, j).end && StepStart(src, i, j)
    decreases |src| - i
  {
    var e := StepAt(src, i).end;
    if k < e then i else CoveringStep(src, e, k)
  }

  /** Exactly what the scan from i does to a position k at or after i: it
      becomes a space when the step covering it masks and it is not a
      newline, and keeps its character otherwise. */
  lemma {:induction false} MaskFromExact(src: string, out: string, i: nat, k: nat)
    requires |out| == |src| && i <= k < |src|
    ensures MaskFrom(src, out, i)[k] ==
            if StepAt(src, CoveringStep(src, i, k)).masked && out[k] != '\n' then ' ' else out[k]
    decreases |src| - i
  {
    var st := StepAt(src, i);
    var out' := if st.masked then Blank(out, i, st.end) else out;
    if k < st.end {
      MaskFromKeepsBefore(src, out', st.end, k);
    } else {
      MaskFromExact(src, out', st.end, k);
    }
  }

  /** In the masked text, a character is kept exactly when the step of the
      scan covering it masks nothing, or it is a newline; every other
      character is a space. */
  lemma MaskedExact(src: string, k: nat)
    requires k < |src|
    ensures Masked(src)[k] ==
            if StepAt(src, CoveringStep(src, 0, k)).masked && src[k] != '\n' then ' ' else src[k]
  {
    MaskFromExact(src, src, 0, k);
  }

  /** When the scanner reaches an opener at i, the whole region of that step
      (from the opener on) is blanked in the result, newlines excepted. */
  lemma MaskFromMasksStep(src: string, out: string, i: nat)
    requires Conforms(src, out) && i < |src| && StepAt(src, i).masked
    ensures forall k :: i <= k < StepAt(src, i).end && src[k] != '\n' ==> MaskFrom(src, out, i)[k] == ' '
  {
    var st := StepAt(src, i);
    forall k | i <= k < st.end && src[k] != '\n'
      ensures MaskFrom(src, out, i)[k] == ' '
    {
      MaskFromKeepsBlanks(src, Blank(out, i, st.end), st.end, k);
    }
  }

  /** A block comment without a closing star-slash runs to the end of the input. */
  lemma UnterminatedBlockComment(src: string, i: nat)
    requires i + 1 < |src| && src[i] == '/' && src[i + 1] == '*'
    requires forall p :: i + 2 <= p ==> !CloserAt(src, p)
    ensures StepAt(src, i) == Step(true, |src|)
  {
    var e := BlockScan(src, i + 2);
    assert e + 1 >= |src|;
  }

  /** From i on, a literal closed by `q` has no closing quote: every `q` is
      the second character of a backslash pair, the pairs being read left to
      right from i. */
  predicate NoClosingQuote(src: string, i: nat, q: char)
    requires i <= |src|
    decreases |src| - i
  {
    if i >= |src| then true
    else if src[i] == '\\' && i + 1 < |src| then NoClosingQuote(src, i + 2, q)
    else src[i] != q && NoClosingQuote(src, i + 1, q)
  }

  /** A string or character literal with no closing quote runs to the end
      of the input; one with a closing quote ends just after it. */
  lemma {:induction false} UnterminatedQuote(src: string, i: nat, q: char)
    requires i <= |src|
    ensures NoClosingQuote(src, i, q) ==> QuoteEnd(src, i, q) == |src|
    ensures !NoClosingQuote(src, i, q) ==> i < QuoteEnd(src, i, q) && src[QuoteEnd(src, i, q) - 1] == q
    decreases |src| - i
  {
    if i < |src| {
      if src[i] == '\\' && i + 1 < |src| {
        UnterminatedQuote(src, i + 2, q);
      } else if src[i] != q {
        UnterminatedQuote(src, i + 1, q);
      }
    }
  }

  /** In particular a literal with no `q` at all after its opener, escaped
      or not, has no closing quote. */
  lemma {:induction false} NoQuoteCharNoClosing(src: string, i: nat, q: char)
    requires i <= |src|
    requires forall p :: i <= p < |src| ==> src[p] != q
    ensures NoClosingQuote(src, i, q)
    decreases |src| - i
  {
    if i < |src| {
      if src[i] == '\\' && i + 1 < |src| {
        NoQuoteCharNoClosing(src, i + 2, q);
      } else {
        NoQuoteCharNoClosing(src, i + 1, q);
      }
    }
  }

  /** The literal `"a\"b` with no closing quote: its only inner quote is
      escaped, so the literal runs to the end of the input. */
  lemma EscapedQuoteRunsToEnd()
    ensures var src := "\"a\\\"b";
            NoClosingQuote(src, 1, '"') && QuoteEnd(src, 1, '"') == |src|
  {
    var src := "\"a\\\"b";
    assert NoClosingQuote(src, 4, '"');
    UnterminatedQuote(src, 1, '"');
  }

  /** A raw string with no '(' after `R"`, or with no closing `)delim"`,
      runs to the end of the input. */
  lemma UnterminatedRawString(src: string, i: nat)
    requires i + 1 < |src| && src[i] == 'R' && src[i + 1] == '"'
    requires var p := ParenScan(src, i + 2);
             p == |src| || Find(src, CloseSeq(src, i + 2, p), p + 1) == -1
    ensures StepAt(src, i) == Step(true, |src|)
  {
  }

  /** A raw string whose '(' and closing `)delim"` are both present ends
      just after the first such closing sequence past the '(', and no earlier
      one starts there. */
  lemma RawEndClosesAtDelimiter(src: string, i: nat)
    requires i + 2 <= |src|
    requires var p := ParenScan(src, i + 2);
             p < |src| && Find(src, CloseSeq(src, i + 2, p), p + 1) != -1
    ensures var p := ParenScan(src, i + 2);
            var c := CloseSeq(src, i + 2, p);
            var e := RawEnd(src, i);
            src[p] == '(' && p + 1 + |c| <= e <= |src| && src[e - |c|..e] == c &&
            forall k :: p + 1 <= k < e - |c| ==> !MatchAt(src, c, k)
  {
  }

  /** An opener whose region reaches the end of the input blanks everything
      from the opener on, newlines excepted. */
  lemma UnterminatedMasksRest(src: string, out: string, i: nat)
    requires Conforms(src, out) && i < |src| && StepAt(src, i) == Step(true, |src|)
    ensures forall k :: i <= k < |src| && src[k] != '\n' ==> MaskFrom(src, out, i)[k] == ' '
  {
    MaskFromMasksStep(src, out, i);
  }

  /** Text with none of the four opener characters is left unchanged. */
  lemma {:induction false} PlainTextUnchanged(src: string, out: string, i: nat)
    requires |out| == |src| && i <= |src|
    requires forall p :: i <= p < |src| ==> src[p] !in {'/', '"', '\'', 'R'}
    ensures MaskFrom(src, out, i) == out
    decreases |src| - i
  {
    if i < |src| {
      PlainTextUnchanged(src, out, i + 1);
    }
  }

  /** One masked step of the scan, unfolded. */
  lemma MaskedStep(src: string, out: string, i: nat, e: nat)
    requires |out| == |src| && i < |src| && StepAt(src, i) == Step(true, e)
    ensures MaskFrom(src, out, i) == MaskFrom(src, Blank(out, i, e), e)
  {
  }

  /** `put_spaces`: blank out[a..b) in place, keeping newlines. */
  method PutSpaces(out: array<char>, a: nat, b: nat)
    requires a <= b <= out.Length
    modifies out
    ensures out[..] == Blank(old(out[..]), a, b)
  {
    var k := a;
    while k < b
      invariant a <= k <= b
      invariant out[..] == Blank(old(out[..]), a, k)
    {
      if out[k] != '\n' {
        out[k] := ' ';
      }
      k := k + 1;
    }
  }

  /** The inner loop of a `//` comment: advance to the next newline. */
  method SkipLine(src: string, from: nat) returns (i: nat)
    requires from <= |src|
    ensures i == LineEnd(src, from)
  {
    i := from;
    while i < |src| && src[i] != '\n'
      invariant from <= i <= |src|
      invariant LineEnd(src, i) == LineEnd(src, from)
    {
      i := i + 1;
    }
  }

  /** The inner loop of a block comment: advance to the closing star-slash. */
  method SkipBlock(src: string, from: nat) returns (i: nat)
    requires from <= |src|
    ensures i == BlockScan(src, from)
  {
    i := from;
    while i + 1 < |src| && !(src[i] == '*' && src[i + 1] == '/')
      invariant from <= i <= |src|
      invariant BlockScan(src, i) == BlockScan(src, from)
    {
      i := i + 1;
    }
  }

  /** The inner loop of a literal closed by `q`: skip escapes, stop one past
      the closing quote. */
  method SkipQuoted(src: string, from: nat, q: char) returns (i: nat)
    requires from <= |src|
    ensures i == QuoteEnd(src, from, q)
  {
    i := from;
    while i < |src|
      invariant from <= i <= |src|
      invariant QuoteEnd(src, i, q) == QuoteEnd(src, from, q)
    {
      if src[i] == '\\' && i + 1 < |src| {
        i := i + 2;
        continue;
      }
      if src[i] == q {
        i := i + 1;
        break;
      }
      i := i + 1;
    }
  }

  /** The delimiter loop of a raw string: advance to the next '('. */
  method SkipToParen(src: string, from: nat) returns (i: nat)
    requires from <= |src|
    ensures i == ParenScan(src, from)
  {
    i := from;
    while i < |src| && src[i] != '('
      invariant from <= i <= |src|
      invariant ParenScan(src, i) == ParenScan(src, from)
    {
      i := i + 1;
    }
  }

  /** The branch of the scan loop taken at position i: recognise the
      construct opening there and find where it ends.  The two malformed
      raw-string cases, where the source blanks the rest and leaves the loop,
      end at |src|, which ends the loop just the same. */
  method ScanStep(src: string, i: nat) returns (masked: bool, e: nat)
    requires i < |src|
    ensures Step(masked, e) == StepAt(src, i)
  {
    var n := |src|;
    var c := src[i];
    masked := true;
    if c == '/' && i + 1 < n && src[i + 1] == '/' {
      // line comment
      e := SkipLine(src, i + 2);
    } else if c == '/' && i + 1 < n && src[i + 1] == '*' {
      // block comment, including its closing star-slash
      e := SkipBlock(src, i + 2);
      e := Min(n, e + 2);
    } else if c == '"' || c == '\'' {
      // string literal or character literal
      e := SkipQuoted(src, i + 1, c);
    } else if c == 'R' && i + 1 < n && src[i + 1] == '"' {
      // raw string literal R"delim( ... )delim"
      var delimStart := i + 2;
      var p := SkipToParen(src, delimStart);
      if p >= n {
        // malformed: mask the rest
        return true, n;
      }
      var delim := src[delimStart..p];
      var closeSeq := ")" + delim + "\"";
      assert closeSeq == CloseSeq(src, delimStart, p);
      var closePos := Find(src, closeSeq, p + 1);
      if closePos == -1 {
        return true, n;
      }
      e := closePos + |closeSeq|;
    } else {
      masked, e := false, i + 1;
    }
  }

  /** `mask_cpp_comments_and_strings`: the scan over a copy of the input,
      blanking each recognised region in place. */
  method MaskCommentsAndStrings(src: string) returns (r: string)
    ensures r == Masked(src)
    ensures |r| == |src|
    ensures forall k :: 0 <= k < |src| ==> r[k] == src[k] || (src[k] != '\n' && r[k] == ' ')
  {
    var n := |src|;
    var out := new char[n](k requires 0 <= k < n => src[k]);
    assert out[..] == src;
    var i := 0;
    while i < n
      invariant 0 <= i <= n
      invariant |out[..]| == n
      invariant MaskFrom(src, out[..], i) == Masked(src)
      decreases n - i
    {
      var masked, e := ScanStep(src, i);
      if masked {
        MaskedStep(src, out[..], i, e);
        PutSpaces(out, i, e);
      }
      i := e;
    }
    r := out[..];
    MaskedShape(src);
  }
}
