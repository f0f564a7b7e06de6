/**
  `extractBracedSpan`: the first bracketed span of a text, found by a scan that
  tracks strings, escapes and the depth of the bracket kind it opened with.

  A `char` stands for a Unicode scalar value.  The source scans bytes, but every
  byte it looks for is ASCII, and in UTF-8 those bytes stand for nothing else.
*/
module JsonScanner {

  /** The scanner's variables between two characters. */
  datatype Scan = Scan(depth: int, inString: bool, escape: bool)

  const START := Scan(0, false, false)

  predicate IsOpener(c: char) {
    c == '{' || c == '['
  }

  function Closer(opener: char): char {
    if opener == '[' then ']' else '}'
  }

  function Step(s: Scan, c: char, opener: char): Scan {
    if s.escape then s.(escape := false)
    else if c == '\\' then s.(escape := true)
    else if c == '"' then s.(inString := !s.inString)
    else if s.inString then s
    else if c == opener then s.(depth := s.depth + 1)
    else if c == Closer(opener) then s.(depth := s.depth - 1)
    else s
  }

  /** The scanner after `text`, started in `s`. */
  function Run(s: Scan, text: string, opener: char): Scan {
    if text == "" then s else Step(Run(s, text[..|text| - 1], opener), text[|text| - 1], opener)
  }

  function Depth(text: string, opener: char): int {
    Run(START, text, opener).depth
  }

  /** `text[start..]` begins with the first opening bracket of `text`. */
  predicate FirstOpener(text: string, start: int) {
    0 <= start < |text| && IsOpener(text[start]) && forall i :: 0 <= i < start ==> !IsOpener(text[i])
  }

  /** The depth of `text[start..]` returns to zero at `end` and nowhere before. */
  predicate FirstReturn(text: string, start: int, end: int) {
    && 0 <= start < end <= |text|
    && Depth(text[start..end], text[start]) == 0
    && forall k :: start < k < end ==> Depth(text[start..k], text[start]) > 0
  }

  /** `r` is the shortest span from the first opening bracket whose depth returns to zero, or empty if there is none. */
  ghost predicate IsSpan(text: string, r: string) {
    if r != "" then
      exists start, end :: FirstOpener(text, start) && FirstReturn(text, start, end) && r == text[start..end]
    else
      forall start, end :: FirstOpener(text, start) && start < end <= |text| ==>
          Depth(text[start..end], text[start]) != 0
  }

  lemma RunStep(s: Scan, text: string, i: nat, j: nat, opener: char)
    requires i <= j < |text|
    ensures Run(s, text[i..j + 1], opener) == Step(Run(s, text[i..j], opener), text[j], opener)
  {
    assert text[i..j + 1][..j - i] == text[i..j];
  }

  /** Scanning composes over concatenation. */
  lemma {:induction false} RunConcat(s: Scan, a: string, b: string, opener: char)
    ensures Run(s, a + b, opener) == Run(Run(s, a, opener), b, opener)
  {
    if b == "" {
      assert a + b == a;
    } else {
      var front := b[..|b| - 1];
      RunConcat(s, a, front, opener);
      assert (a + b)[..|a + b| - 1] == a + front;
    }
  }

  const BACKSLASH := '\\'

  /** A backslash and the character after it change nothing, in strings and outside them. */
  lemma EscapedPairIgnored(s: Scan, c: char, opener: char)
    requires !s.escape
    ensures Run(s, [BACKSLASH, c], opener) == s
  {
    var pair := [BACKSLASH, c];
    assert pair[..1] == [BACKSLASH] && pair[..1][..0] == [];
    assert Run(s, pair[..1], opener) == Step(Run(s, [], opener), BACKSLASH, opener);
  }

  method ExtractBracedSpan(text: string) returns (span: string)
    ensures IsSpan(text, span)
  {
    var openIdx := -1;
    var i := 0;
    while i < |text|
      invariant 0 <= i <= |text|
      invariant openIdx == -1
      invariant forall k :: 0 <= k < i ==> !IsOpener(text[k])
    {
      if IsOpener(text[i]) {
        openIdx := i;
        break;
      }
      i := i + 1;
    }
    if openIdx < 0 {
      return "";
    }

    var openCh := text[openIdx];
    var closeCh := Closer(openCh);
    var depth, inString, escape := 0, false, false;
    i := openIdx;
    while i < |text|
      invariant openIdx <= i <= |text|
      invariant Scan(depth, inString, escape) == Run(START, text[openIdx..i], openCh)
      invariant forall k :: openIdx < k <= i ==> Depth(text[openIdx..k], openCh) > 0
    {
      var c := text[i];
      RunStep(START, text, openIdx, i, openCh);
      i := i + 1;
      if escape {
        escape := false;
      } else if c == '\\' {
        escape := true;
      } else if c == '"' {
        inString := !inString;
      } else if inString {
      } else if c == openCh {
        depth := depth + 1;
      } else if c == closeCh {
        depth := depth - 1;
        if depth == 0 {
          assert FirstOpener(text, openIdx) && FirstReturn(text, openIdx, i);
          return text[openIdx..i];
        }
      }
    }
    forall start, end | FirstOpener(text, start) && start < end <= |text|
        ensures Depth(text[start..end], text[start]) != 0 {
      assert start == openIdx;
    }
    return "";
  }

  /** The description determines the result, so it can stand for the scan. */
  lemma SpanUnique(text: string, r: string, r': string)
    requires IsSpan(text, r) && IsSpan(text, r')
    ensures r == r'
  {
    if r != "" {
      var start, end :| FirstOpener(text, start) && FirstReturn(text, start, end) && r == text[start..end];
      assert r' != "";
      var start', end' :| FirstOpener(text, start') && FirstReturn(text, start', end') && r' == text[start'..end'];
      assert start == start';
    }
  }

  lemma FirstReturnOfSlice(text: string, start: nat, end: nat)
    requires start < end <= |text| && FirstReturn(text, start, end)
    ensures FirstReturn(text[start..end], 0, end - start)
  {
    var r := text[start..end];
    forall k | 0 < k <= |r| ensures Depth(r[0..k], r[0]) == Depth(text[start..start + k], text[start]) {
      assert r[0..k] == text[start..start + k];
    }
  }

  /** Extracting again from a non-empty result gives the same result. */
  lemma SpanOfSpan(text: string, r: string)
    requires IsSpan(text, r) && r != ""
    ensures IsSpan(r, r)
  {
    var start, end :| FirstOpener(text, start) && FirstReturn(text, start, end) && r == text[start..end];
    FirstReturnOfSlice(text, start, end);
    assert FirstOpener(r, 0);
    assert r == r[0..|r|];
  }
}
