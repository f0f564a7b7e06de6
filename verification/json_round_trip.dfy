/**
  JSON texts in the grammar of RFC 8259, whitespace included, and the theorem
  that `extractBracedSpan` returns a printed object or array exactly, whatever
  follows it and whatever text without an opening bracket precedes it.
*/
module JsonRoundTrip {
  import opened JsonScanner

  /** Section 2: the insignificant whitespace allowed around structural characters. */
  type Space = s: string | forall c :: c in s ==> c == ' ' || c == '\t' || c == '\n' || c == '\r' witness ""

  /** Section 7: a character that may stand in a string unescaped. */
  type Plain = c: char | c != '"' && c != '\\' && c >= ' ' witness 'a'

  predicate Lower(c: char) {
    'a' <= c <= 'z'
  }

  predicate Digit(c: char) {
    '0' <= c <= '9'
  }

  /** Sections 3 and 6: the three literal names and all numbers are non-empty texts of these characters. */
  type Word = s: string | s != "" && forall c :: c in s ==>
      Lower(c) || Digit(c) || c == '+' || c == '-' || c == '.' || c == 'E' witness "0"

  type Hex = c: char | Digit(c) || 'a' <= c <= 'f' || 'A' <= c <= 'F' witness '0'

  /** Section 7: what may follow a backslash, `u` aside. */
  type Escapable = c: char | c == '"' || c == '\\' || c == '/' || c == 'b' || c == 'f' || c == 'n' || c == 'r' ||
      c == 't' witness 'n'

  datatype Item = Unescaped(c: Plain) | Escaped(e: Escapable) | Unicode(h0: Hex, h1: Hex, h2: Hex, h3: Hex)

  datatype Json =
    | Bare(word: Word)
    | String(items: seq<Item>)
    | Array(inner: Space, elements: Elements)
    | Object(inside: Space, members: Members)

  /** The whitespace before and after each element belongs to the separators around it. */
  datatype Elements = NoElements | Element(before: Space, value: Json, after: Space, rest: Elements)

  datatype Members = NoMembers |
    Member(lead: Space, name: seq<Item>, beforeColon: Space, afterColon: Space, value: Json, trail: Space,
        rest: Members)

  function PrintItem(i: Item): string {
    match i
    case Unescaped(c) => [c]
    case Escaped(e) => ['\\', e]
    case Unicode(h0, h1, h2, h3) => ['\\', 'u'] + [h0, h1, h2, h3]
  }

  function PrintItems(items: seq<Item>): string {
    if items == [] then "" else PrintItem(items[0]) + PrintItems(items[1..])
  }

  function PrintString(items: seq<Item>): string {
    "\"" + (PrintItems(items) + "\"")
  }

  function Print(v: Json): string {
    match v
    case Bare(word) => word
    case String(items) => PrintString(items)
    case Array(inner, elements) => "[" + ((inner + PrintElements(elements)) + "]")
    case Object(inside, members) => "{" + ((inside + PrintMembers(members)) + "}")
  }

  function PrintElements(es: Elements): string {
    match es
    case NoElements => ""
    case Element(before, value, after, rest) =>
      before + (Print(value) + (after + (if rest.NoElements? then "" else "," + PrintElements(rest))))
  }

  function PrintMembers(ms: Members): string {
    match ms
    case NoMembers => ""
    case Member(lead, name, beforeColon, afterColon, value, trail, rest) =>
      lead + (PrintString(name) + (beforeColon + (":" + (afterColon + (Print(value) +
        (trail + (if rest.NoMembers? then "" else "," + PrintMembers(rest))))))))
  }

  // ----- what printed text does to the scanner

  /** Started outside strings at any depth, `w` ends as it started and never goes below that depth. */
  ghost predicate Neutral(w: string, opener: char) {
    forall d: int ::
      && Run(Scan(d, false, false), w, opener) == Scan(d, false, false)
      && forall k :: 0 <= k <= |w| ==> Run(Scan(d, false, false), w[..k], opener).depth >= d
  }

  lemma NeutralConcat(a: string, b: string, opener: char)
    requires Neutral(a, opener) && Neutral(b, opener)
    ensures Neutral(a + b, opener)
  {
    forall d: int
      ensures Run(Scan(d, false, false), a + b, opener) == Scan(d, false, false)
      ensures forall k :: 0 <= k <= |a + b| ==> Run(Scan(d, false, false), (a + b)[..k], opener).depth >= d
    {
      RunConcat(Scan(d, false, false), a, b, opener);
      forall k | 0 <= k <= |a + b| ensures Run(Scan(d, false, false), (a + b)[..k], opener).depth >= d {
        if k <= |a| {
          assert (a + b)[..k] == a[..k];
        } else {
          assert (a + b)[..k] == a + b[..k - |a|];
          RunConcat(Scan(d, false, false), a, b[..k - |a|], opener);
        }
      }
    }
  }

  predicate Inert(c: char) {
    c != '"' && c != '\\' && !IsOpener(c) && c != ']' && c != '}'
  }

  lemma {:induction false} InertRun(d: int, w: string, opener: char)
    requires IsOpener(opener) && forall c :: c in w ==> Inert(c)
    ensures Run(Scan(d, false, false), w, opener) == Scan(d, false, false)
  {
    if w != "" {
      InertRun(d, w[..|w| - 1], opener);
      assert w[|w| - 1] in w;
    }
  }

  /** Text without quotes, backslashes or brackets leaves the scanner alone. */
  lemma InertNeutral(w: string, opener: char)
    requires IsOpener(opener) && forall c :: c in w ==> Inert(c)
    ensures Neutral(w, opener)
  {
    forall d: int, k | 0 <= k <= |w| ensures Run(Scan(d, false, false), w[..k], opener) == Scan(d, false, false) {
      InertRun(d, w[..k], opener);
    }
    assert w[..|w|] == w;
  }

  /** Started inside a string, `w` ends inside it and never changes the depth. */
  ghost predicate StaysInside(w: string, opener: char) {
    forall d: int ::
      && Run(Scan(d, true, false), w, opener) == Scan(d, true, false)
      && forall k :: 0 <= k <= |w| ==> Run(Scan(d, true, false), w[..k], opener).depth == d
  }

  lemma InsideConcat(a: string, b: string, opener: char)
    requires StaysInside(a, opener) && StaysInside(b, opener)
    ensures StaysInside(a + b, opener)
  {
    forall d: int
      ensures Run(Scan(d, true, false), a + b, opener) == Scan(d, true, false)
      ensures forall k :: 0 <= k <= |a + b| ==> Run(Scan(d, true, false), (a + b)[..k], opener).depth == d
    {
      RunConcat(Scan(d, true, false), a, b, opener);
      forall k | 0 <= k <= |a + b| ensures Run(Scan(d, true, false), (a + b)[..k], opener).depth == d {
        if k <= |a| {
          assert (a + b)[..k] == a[..k];
        } else {
          assert (a + b)[..k] == a + b[..k - |a|];
          RunConcat(Scan(d, true, false), a, b[..k - |a|], opener);
        }
      }
    }
  }

  lemma SingleInside(c: char, opener: char)
    requires c != '"' && c != '\\'
    ensures StaysInside([c], opener)
  {
    forall d: int ensures Run(Scan(d, true, false), [c], opener) == Scan(d, true, false) {
      RunSingle(Scan(d, true, false), c, opener);
    }
  }

  lemma RunSingle(s: Scan, c: char, opener: char)
    ensures Run(s, [c], opener) == Step(s, c, opener)
  {
    assert [c][..0] == "";
  }

  /** A backslash and the character it escapes, whatever that is. */
  lemma EscapeInside(c: char, opener: char)
    ensures StaysInside(['\\', c], opener)
  {
    var w := ['\\', c];
    forall d: int
      ensures Run(Scan(d, true, false), w, opener) == Scan(d, true, false)
      ensures forall k :: 0 <= k <= 2 ==> Run(Scan(d, true, false), w[..k], opener).depth == d
    {
      assert w[..1] == ['\\'] && w[..2] == w && w[..0] == "";
      RunSingle(Scan(d, true, false), '\\', opener);
    }
  }

  lemma {:induction false} PlainInside(w: string, opener: char)
    requires forall c :: c in w ==> c != '"' && c != '\\'
    ensures StaysInside(w, opener)
  {
    if w != "" {
      assert w[0] in w && forall c :: c in w[1..] ==> c in w;
      SingleInside(w[0], opener);
      PlainInside(w[1..], opener);
      InsideConcat([w[0]], w[1..], opener);
      assert [w[0]] + w[1..] == w;
    }
  }

  lemma EscapeThenPlain(c: char, w: string, opener: char)
    requires forall x :: x in w ==> x != '"' && x != '\\'
    ensures StaysInside(['\\', c] + w, opener)
  {
    EscapeInside(c, opener);
    PlainInside(w, opener);
    InsideConcat(['\\', c], w, opener);
  }

  lemma ItemInside(i: Item, opener: char)
    ensures StaysInside(PrintItem(i), opener)
  {
    match i
    case Unescaped(c) => SingleInside(c, opener);
    case Escaped(e) => EscapeInside(e, opener);
    case Unicode(h0, h1, h2, h3) => EscapeThenPlain('u', [h0, h1, h2, h3], opener);
  }

  lemma {:induction false} ItemsInside(items: seq<Item>, opener: char)
    ensures StaysInside(PrintItems(items), opener)
  {
    if items != [] {
      ItemInside(items[0], opener);
      ItemsInside(items[1..], opener);
      InsideConcat(PrintItem(items[0]), PrintItems(items[1..]), opener);
    }
  }

  /** Every prefix of a quoted text stays at or above the depth it started at. */
  lemma QuotedPrefix(inner: string, opener: char, d: int, k: nat)
    requires IsOpener(opener) && StaysInside(inner, opener) && k < |inner| + 2
    ensures Run(Scan(d, false, false), ("\"" + inner + "\"")[..k], opener).depth >= d
  {
    var w := "\"" + inner + "\"";
    if k > 0 {
      assert w[..k] == "\"" + inner[..k - 1];
      RunSingle(Scan(d, false, false), '"', opener);
      RunConcat(Scan(d, false, false), "\"", inner[..k - 1], opener);
    }
  }

  lemma QuotedRun(inner: string, opener: char, d: int)
    requires IsOpener(opener) && StaysInside(inner, opener)
    ensures Run(Scan(d, false, false), "\"" + inner + "\"", opener) == Scan(d, false, false)
  {
    RunSingle(Scan(d, false, false), '"', opener);
    RunSingle(Scan(d, true, false), '"', opener);
    RunConcat(Scan(d, false, false), "\"", inner, opener);
    RunConcat(Scan(d, false, false), "\"" + inner, "\"", opener);
  }

  lemma QuotedNeutral(inner: string, opener: char)
    requires IsOpener(opener) && StaysInside(inner, opener)
    ensures Neutral("\"" + inner + "\"", opener)
  {
    var w := "\"" + inner + "\"";
    forall d: int
      ensures Run(Scan(d, false, false), w, opener) == Scan(d, false, false)
      ensures forall k :: 0 <= k <= |w| ==> Run(Scan(d, false, false), w[..k], opener).depth >= d
    {
      QuotedRun(inner, opener, d);
      forall k | 0 <= k <= |w| ensures Run(Scan(d, false, false), w[..k], opener).depth >= d {
        if k < |w| {
          QuotedPrefix(inner, opener, d, k);
        } else {
          assert w[..|w|] == w;
        }
      }
    }
  }

  /** A printed string, whatever brackets, quotes and backslashes it holds. */
  lemma StringNeutral(items: seq<Item>, opener: char)
    requires IsOpener(opener)
    ensures Neutral(PrintString(items), opener)
  {
    var inner := PrintItems(items);
    ItemsInside(items, opener);
    QuotedNeutral(inner, opener);
    assert PrintString(items) == "\"" + inner + "\"";
  }

  /** The depth inside a bracket, whether or not it is of the kind being counted. */
  function Within(bracket: char, opener: char, d: int): int {
    if bracket == opener then d + 1 else d
  }

  lemma BracketsRun(bracket: char, inner: string, opener: char, d: int)
    requires IsOpener(opener) && IsOpener(bracket) && Neutral(inner, opener)
    ensures Run(Scan(d, false, false), [bracket] + (inner + [Closer(bracket)]), opener) == Scan(d, false, false)
  {
    var d' := Within(bracket, opener, d);
    RunSingle(Scan(d, false, false), bracket, opener);
    RunSingle(Scan(d', false, false), Closer(bracket), opener);
    RunConcat(Scan(d, false, false), [bracket], inner + [Closer(bracket)], opener);
    RunConcat(Scan(d', false, false), inner, [Closer(bracket)], opener);
  }

  lemma {:induction false} BracketsPrefix(bracket: char, inner: string, opener: char, d: int, k: nat)
    requires IsOpener(opener) && IsOpener(bracket) && Neutral(inner, opener) && k < |inner| + 2
    ensures Run(Scan(d, false, false), ([bracket] + (inner + [Closer(bracket)]))[..k], opener).depth >= d
  {
    var w := [bracket] + (inner + [Closer(bracket)]);
    if k > 0 {
      assert w[..k] == [bracket] + inner[..k - 1];
      RunSingle(Scan(d, false, false), bracket, opener);
      RunConcat(Scan(d, false, false), [bracket], inner[..k - 1], opener);
    }
  }

  /** Brackets around neutral text: neutral whether or not they are the kind being counted. */
  lemma BracketsNeutral(bracket: char, inner: string, opener: char)
    requires IsOpener(opener) && IsOpener(bracket) && Neutral(inner, opener)
    ensures Neutral([bracket] + (inner + [Closer(bracket)]), opener)
  {
    var w := [bracket] + (inner + [Closer(bracket)]);
    forall d: int
      ensures Run(Scan(d, false, false), w, opener) == Scan(d, false, false)
      ensures forall k :: 0 <= k <= |w| ==> Run(Scan(d, false, false), w[..k], opener).depth >= d
    {
      BracketsRun(bracket, inner, opener, d);
      forall k | 0 <= k <= |w| ensures Run(Scan(d, false, false), w[..k], opener).depth >= d {
        if k < |w| {
          BracketsPrefix(bracket, inner, opener, d, k);
        } else {
          assert w[..|w|] == w;
        }
      }
    }
  }

  lemma {:induction false} ValueNeutral(v: Json, opener: char)
    requires IsOpener(opener)
    ensures Neutral(Print(v), opener)
    decreases v
  {
    match v
    case Bare(word) => InertNeutral(word, opener);
    case String(items) => StringNeutral(items, opener);
    case Array(inner, elements) =>
      InertNeutral(inner, opener);
      ElementsNeutral(elements, opener);
      NeutralConcat(inner, PrintElements(elements), opener);
      BracketsNeutral('[', inner + PrintElements(elements), opener);
    case Object(inside, members) =>
      InertNeutral(inside, opener);
      MembersNeutral(members, opener);
      NeutralConcat(inside, PrintMembers(members), opener);
      BracketsNeutral('{', inside + PrintMembers(members), opener);
  }

  lemma {:induction false} ElementsNeutral(es: Elements, opener: char)
    requires IsOpener(opener)
    ensures Neutral(PrintElements(es), opener)
    decreases es
  {
    match es
    case NoElements => InertNeutral("", opener);
    case Element(before, value, after, rest) =>
      ElementsNeutral(rest, opener);
      InertNeutral(",", opener);
      NeutralConcat(",", PrintElements(rest), opener);
      InertNeutral("", opener);
      var tail := if rest.NoElements? then "" else "," + PrintElements(rest);
      InertNeutral(before, opener);
      ValueNeutral(value, opener);
      InertNeutral(after, opener);
      NeutralConcat(after, tail, opener);
      NeutralConcat(Print(value), after + tail, opener);
      NeutralConcat(before, Print(value) + (after + tail), opener);
  }

  lemma {:induction false} MembersNeutral(ms: Members, opener: char)
    requires IsOpener(opener)
    ensures Neutral(PrintMembers(ms), opener)
    decreases ms
  {
    match ms
    case NoMembers => InertNeutral("", opener);
    case Member(lead, name, beforeColon, afterColon, value, trail, rest) =>
      MembersNeutral(rest, opener);
      InertNeutral(",", opener);
      NeutralConcat(",", PrintMembers(rest), opener);
      InertNeutral("", opener);
      var tail := if rest.NoMembers? then "" else "," + PrintMembers(rest);
      InertNeutral(trail, opener);
      NeutralConcat(trail, tail, opener);
      ValueNeutral(value, opener);
      NeutralConcat(Print(value), trail + tail, opener);
      InertNeutral(afterColon, opener);
      NeutralConcat(afterColon, Print(value) + (trail + tail), opener);
      InertNeutral(":", opener);
      var fromColon := ":" + (afterColon + (Print(value) + (trail + tail)));
      NeutralConcat(":", afterColon + (Print(value) + (trail + tail)), opener);
      InertNeutral(beforeColon, opener);
      NeutralConcat(beforeColon, fromColon, opener);
      StringNeutral(name, opener);
      NeutralConcat(PrintString(name), beforeColon + fromColon, opener);
      InertNeutral(lead, opener);
      NeutralConcat(lead, PrintString(name) + (beforeColon + fromColon), opener);
  }

  // ----- the round trip

  /** A bracketed neutral text is spanned by exactly itself, wherever it stands first. */
  lemma BracketsReturn(pre: string, bracket: char, inner: string, post: string)
    requires IsOpener(bracket) && Neutral(inner, bracket)
    ensures var w := [bracket] + (inner + [Closer(bracket)]);
            FirstReturn(pre + w + post, |pre|, |pre| + |w|)
  {
    var w := [bracket] + (inner + [Closer(bracket)]);
    var text := pre + w + post;
    RunSingle(START, bracket, bracket);
    RunSingle(Scan(1, false, false), Closer(bracket), bracket);
    RunConcat(START, [bracket], inner + [Closer(bracket)], bracket);
    RunConcat(Scan(1, false, false), inner, [Closer(bracket)], bracket);
    assert text[|pre|..|pre| + |w|] == w;
    forall k | |pre| < k < |pre| + |w| ensures Depth(text[|pre|..k], bracket) > 0 {
      assert text[|pre|..k] == [bracket] + inner[..k - |pre| - 1];
      RunConcat(START, [bracket], inner[..k - |pre| - 1], bracket);
    }
  }

  predicate IsContainer(v: Json) {
    v.Array? || v.Object?
  }

  /**
    `extractBracedSpan` undoes printing: for every object or array, any preamble without an opening
    bracket and anything after.
  */
  lemma PrintedSpan(pre: string, v: Json, post: string)
    requires IsContainer(v) && forall c :: c in pre ==> !IsOpener(c)
    ensures IsSpan(pre + Print(v) + post, Print(v))
    ensures forall r :: IsSpan(pre + Print(v) + post, r) ==> r == Print(v)
  {
    var text := pre + Print(v) + post;
    match v {
      case Array(inner, elements) =>
        InertNeutral(inner, '[');
        ElementsNeutral(elements, '[');
        NeutralConcat(inner, PrintElements(elements), '[');
        BracketsReturn(pre, '[', inner + PrintElements(elements), post);
      case Object(inside, members) =>
        InertNeutral(inside, '{');
        MembersNeutral(members, '{');
        NeutralConcat(inside, PrintMembers(members), '{');
        BracketsReturn(pre, '{', inside + PrintMembers(members), post);
    }
    assert FirstOpener(text, |pre|);
    assert text[|pre|..|pre| + |Print(v)|] == Print(v);
    forall r | IsSpan(text, r) ensures r == Print(v) {
      SpanUnique(text, r, Print(v));
    }
  }
}
