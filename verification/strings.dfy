/** The parts of Go's `strings` package that the modelled code relies on. */
module Strings {
  import opened Wrappers

  predicate Occurs(text: string, sep: string, i: int) {
    0 <= i <= |text| - |sep| && text[i..i + |sep|] == sep
  }

  predicate Contains(text: string, sep: string) {
    exists i :: 0 <= i <= |text| && Occurs(text, sep, i)
  }

  /** The text has the phrase in it, as a reader would say it. */
  ghost predicate Says(text: string, phrase: string) {
    exists before: string, after: string :: text == before + phrase + after
  }

  lemma ContainsExactly(text: string, phrase: string)
    ensures Contains(text, phrase) <==> Says(text, phrase)
  {
    if Contains(text, phrase) {
      var i :| 0 <= i <= |text| && Occurs(text, phrase, i);
      assert text == text[..i] + phrase + text[i + |phrase|..];
    }
    if Says(text, phrase) {
      var before: string, after: string :| text == before + phrase + after;
      assert text[|before|..|before| + |phrase|] == phrase;
      assert Occurs(text, phrase, |before|);
    }
  }

  /** `strings.Index` from position `i` on. */
  function IndexFrom(text: string, sep: string, i: nat): (r: Option<nat>)
    requires i <= |text|
    ensures r.Some? ==> i <= r.value && Occurs(text, sep, r.value) && forall j :: i <= j < r.value ==>
        !Occurs(text, sep, j)
    ensures r.None? ==> forall j :: i <= j ==> !Occurs(text, sep, j)
    decreases |text| - i
  {
    if Occurs(text, sep, i) then Some(i)
    else if i == |text| then None
    else IndexFrom(text, sep, i + 1)
  }

  datatype Cut = Cut(before: string, after: string, found: bool)

  /** `strings.Cut`. */
  function CutAround(text: string, sep: string): Cut {
    match IndexFrom(text, sep, 0)
    case Some(i) => Cut(text[..i], text[i + |sep|..], true)
    case None => Cut(text, "", false)
  }

  lemma CutAt(pre: string, sep: string, post: string)
    requires forall i :: 0 <= i < |pre| ==> !Occurs(pre + sep + post, sep, i)
    ensures CutAround(pre + sep + post, sep) == Cut(pre, post, true)
  {
    var text := pre + sep + post;
    assert text[|pre|..|pre| + |sep|] == sep;
    assert Occurs(text, sep, |pre|);
    assert text[..|pre|] == pre && text[|pre| + |sep|..] == post;
  }

  /** An occurrence inside `pre + more` that ends within `pre` is one inside `pre`. */
  lemma OccursInPrefix(pre: string, more: string, sep: string, i: int)
    requires Occurs(pre + more, sep, i) && i + |sep| <= |pre|
    ensures Occurs(pre, sep, i) && Contains(pre, sep)
  {
    assert (pre + more)[i..i + |sep|] == pre[i..i + |sep|];
    assert Occurs(pre, sep, i);
  }

  lemma NoneEarlier(text: string, more: string, sep: string, j: nat)
    requires CutAround(text, sep).found && j < |CutAround(text, sep).before|
    ensures !Occurs(text + more, sep, j)
  {
    if Occurs(text + more, sep, j) {
      OccursInPrefix(text, more, sep, j);
    }
  }

  /** What follows a text does not move the first cut in it. */
  lemma CutExtends(text: string, more: string, sep: string)
    requires CutAround(text, sep).found
    ensures var cut := CutAround(text, sep);
            CutAround(text + more, sep) == Cut(cut.before, cut.after + more, true)
  {
    var cut := CutAround(text, sep);
    assert text == cut.before + sep + cut.after;
    assert text + more == cut.before + sep + (cut.after + more);
    forall j | 0 <= j < |cut.before| ensures !Occurs(cut.before + sep + (cut.after + more), sep, j) {
      NoneEarlier(text, more, sep, j);
    }
    CutAt(cut.before, sep, cut.after + more);
  }

  lemma OccursAt(text: string, sep: string, i: int, j: int)
    requires Occurs(text, sep, i) && 0 <= j < |sep|
    ensures text[i + j] == sep[j]
  {
    assert text[i..i + |sep|][j] == text[i + j];
  }

  predicate HasPrefix(s: string, prefix: string) {
    |prefix| <= |s| && s[..|prefix|] == prefix
  }

  /** `containsAny`, over an already lower-cased text. */
  predicate ContainsAny(text: string, needles: seq<string>) {
    exists i :: 0 <= i < |needles| && Contains(text, needles[i])
  }

  /** One of the phrases is in the text. */
  ghost predicate SaysAny(text: string, phrases: seq<string>) {
    exists i :: 0 <= i < |phrases| && Says(text, phrases[i])
  }

  lemma ContainsAnyExactly(text: string, needles: seq<string>)
    ensures ContainsAny(text, needles) <==> SaysAny(text, needles)
  {
    forall i | 0 <= i < |needles| ensures Contains(text, needles[i]) <==> Says(text, needles[i]) {
      ContainsExactly(text, needles[i]);
    }
  }

  /** `strings.Split` at a single character. */
  function Split(s: string, sep: char): (parts: seq<string>)
    ensures parts != []
  {
    if s == "" then [""]
    else if s[0] == sep then [""] + Split(s[1..], sep)
    else
      var rest := Split(s[1..], sep);
      [[s[0]] + rest[0]] + rest[1..]
  }

  /** `strings.Join` with a single character. */
  function Join(parts: seq<string>, sep: char): string {
    if parts == [] then ""
    else if |parts| == 1 then parts[0]
    else parts[0] + [sep] + Join(parts[1..], sep)
  }

  lemma {:induction false} JoinSplit(s: string, sep: char)
    ensures Join(Split(s, sep), sep) == s
  {
    if s != "" {
      JoinSplit(s[1..], sep);
      var rest := Split(s[1..], sep);
      if s[0] == sep {
        assert Split(s, sep)[1..] == rest;
      } else {
        assert Split(s, sep)[1..] == rest[1..];
      }
    }
  }

  lemma {:induction false} JoinConcat(a: seq<string>, b: seq<string>, sep: char)
    requires a != [] && b != []
    ensures Join(a + b, sep) == Join(a, sep) + [sep] + Join(b, sep)
  {
    if |a| == 1 {
      assert (a + b)[1..] == b;
    } else {
      JoinConcat(a[1..], b, sep);
      assert (a + b)[1..] == a[1..] + b;
    }
  }

  /** No part of a split holds the separator. */
  lemma {:induction false} SplitParts(s: string, sep: char)
    ensures forall i :: 0 <= i < |Split(s, sep)| ==> sep !in Split(s, sep)[i]
  {
    if s != "" {
      SplitParts(s[1..], sep);
    }
  }

  /** A part that begins with `c` joins to a text that begins with `c`. */
  lemma JoinFirst(c: char, parts: seq<string>, sep: char)
    requires parts != []
    ensures Join([[c] + parts[0]] + parts[1..], sep) == [c] + Join(parts, sep)
  {
    if |parts| > 1 {
      assert [c] + (parts[0] + [sep] + Join(parts[1..], sep)) == ([c] + parts[0]) + [sep] + Join(parts[1..], sep);
    }
  }

  lemma SplitFirst(c: char, s: string, sep: char)
    ensures Split([c] + s, sep) ==
            if c == sep then [""] + Split(s, sep) else [[c] + Split(s, sep)[0]] + Split(s, sep)[1..]
  {
    assert ([c] + s)[1..] == s;
  }

  /** Joining parts free of the separator and splitting again gives the parts back. */
  lemma {:induction false} SplitJoin(parts: seq<string>, sep: char)
    requires parts != []
    requires forall i :: 0 <= i < |parts| ==> sep !in parts[i]
    ensures Split(Join(parts, sep), sep) == parts
    decreases |parts|, |parts[0]|
  {
    var first, rest := parts[0], parts[1..];
    if first != "" {
      var shorter := [first[1..]] + rest;
      SplitJoin(shorter, sep);
      assert [first[0]] + first[1..] == first;
      JoinFirst(first[0], shorter, sep);
      SplitFirst(first[0], Join(shorter, sep), sep);
    } else if rest != [] {
      SplitJoin(rest, sep);
      SplitFirst(sep, Join(rest, sep), sep);
      assert Join(parts, sep) == [sep] + Join(rest, sep);
    }
  }

  /** Splitting a text at a separator written in it splits both sides. */
  lemma {:induction false} SplitConcat(a: string, sep: char, b: string)
    ensures Split(a + [sep] + b, sep) == Split(a, sep) + Split(b, sep)
  {
    if a == "" {
      assert a + [sep] + b == [sep] + b;
      SplitFirst(sep, b, sep);
    } else {
      var rest := a[1..] + [sep] + b;
      SplitConcat(a[1..], sep, b);
      assert a + [sep] + b == [a[0]] + rest && [a[0]] + a[1..] == a;
      SplitFirst(a[0], rest, sep);
      SplitFirst(a[0], a[1..], sep);
      FirstExtended(a[0], Split(a[1..], sep), Split(b, sep), a[0] == sep);
    }
  }

  /** Extending the first part, or adding one in front, does not reach the parts behind. */
  lemma FirstExtended(c: char, parts: seq<string>, more: seq<string>, front: bool)
    requires parts != []
    ensures if front then [""] + (parts + more) == [""] + parts + more
            else [[c] + (parts + more)[0]] + (parts + more)[1..] == [[c] + parts[0]] + parts[1..] + more
  {
    assert (parts + more)[1..] == parts[1..] + more;
  }

  /** A text without the separator is one part. */
  lemma {:induction false} SplitWhole(s: string, sep: char)
    requires sep !in s
    ensures Split(s, sep) == [s]
  {
    SplitJoin([s], sep);
  }
}
