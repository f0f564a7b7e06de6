/**
  `extractFenced` and `extractJSONCandidate`: a fenced block is cut out of a
  reply before any bare bracketed span is looked for.
*/
module FencedBlock {
  import opened Wrappers
  import opened Strings
  import opened JsonScanner
  import opened JsonRoundTrip

  const TICKS := "```"
  const JSON_FENCE := "```json"

  /** `unicode.IsSpace`. */
  predicate IsSpace(c: char) {
    || '\t' <= c <= '\r' || c == ' ' || c == '\U{85}' || c == '\U{A0}' || c == '\U{1680}'
    || '\U{2000}' <= c <= '\U{200A}' || c == '\U{2028}' || c == '\U{2029}' || c == '\U{202F}' || c == '\U{205F}' ||
        c == '\U{3000}'
  }

  /** The code points with Unicode's White_Space property. */
  const WHITE_SPACE: set<int> :=
    {9, 10, 11, 12, 13, 32, 133, 160, 5760, 8192, 8193, 8194, 8195, 8196, 8197, 8198, 8199, 8200, 8201, 8202,
     8232, 8233, 8239, 8287, 12288}

  /** Nothing but white space. */
  predicate IsPadding(s: string) {
    forall i :: 0 <= i < |s| ==> s[i] as int in WHITE_SPACE
  }

  /** Neither begins nor ends in white space. */
  predicate IsTight(s: string) {
    s == "" || (s[0] as int !in WHITE_SPACE && s[|s| - 1] as int !in WHITE_SPACE)
  }

  lemma SpaceCodes(c: char)
    ensures IsSpace(c) <==> c as int in WHITE_SPACE
  {
  }

  function TrimLeft(s: string): string {
    if s != "" && IsSpace(s[0]) then TrimLeft(s[1..]) else s
  }

  function TrimRight(s: string): string {
    if s != "" && IsSpace(s[|s| - 1]) then TrimRight(s[..|s| - 1]) else s
  }

  function TrimSpace(s: string): string {
    TrimRight(TrimLeft(s))
  }

  /** Drops the rest of the opening line, if there is another line at all. */
  function AfterFirstLine(text: string): string {
    match IndexFrom(text, "\n", 0)
    case Some(nl) => text[nl + 1..]
    case None => text
  }

  function ExtractFenced(text: string, opener: string): string {
    var fence := CutAround(text, opener);
    if !fence.found then ""
    else
      var block := CutAround(AfterFirstLine(fence.after), TICKS);
      if block.found then TrimSpace(block.before) else ""
  }

  /** A json block wins over a plain block, which wins over a bare span. */
  ghost predicate IsCandidate(text: string, r: string) {
    var json, plain := ExtractFenced(text, JSON_FENCE), ExtractFenced(text, TICKS);
    if json != "" then r == json else if plain != "" then r == plain else IsSpan(text, r)
  }

  method ExtractJsonCandidate(text: string) returns (r: string)
    ensures IsCandidate(text, r)
  {
    r := ExtractFenced(text, JSON_FENCE);
    if r != "" {
      return;
    }
    r := ExtractFenced(text, TICKS);
    if r != "" {
      return;
    }
    r := ExtractBracedSpan(text);
  }

  // ----- cutting at a known place

  /** The json fence cannot start inside what precedes it: it overlaps itself nowhere. */
  lemma JsonFenceCut(pre: string, post: string)
    requires !Contains(pre, JSON_FENCE)
    ensures CutAround(pre + JSON_FENCE + post, JSON_FENCE) == Cut(pre, post, true)
  {
    var text := pre + JSON_FENCE + post;
    forall i | 0 <= i < |pre| ensures !Occurs(text, JSON_FENCE, i) {
      if Occurs(text, JSON_FENCE, i) {
        if i + 7 <= |pre| {
          assert text == pre + (JSON_FENCE + post);
          OccursInPrefix(pre, JSON_FENCE + post, JSON_FENCE, i);
        } else {
          OccursAt(text, JSON_FENCE, i, |pre| - i);
          assert text[|pre|] == '`' && text[|pre| + 1] == '`' && text[|pre| + 2] == '`';
          if |pre| - i <= 2 {
            OccursAt(text, JSON_FENCE, i, 3);
          }
        }
      }
    }
    CutAt(pre, JSON_FENCE, post);
  }

  /** The closing fence cannot start inside text that has none and does not end in a backtick. */
  lemma TicksCut(body: string, post: string)
    requires !Contains(body, TICKS) && (body == "" || body[|body| - 1] != '`')
    ensures CutAround(body + TICKS + post, TICKS) == Cut(body, post, true)
  {
    var text := body + TICKS + post;
    forall i | 0 <= i < |body| ensures !Occurs(text, TICKS, i) {
      if Occurs(text, TICKS, i) {
        if i + 3 <= |body| {
          assert text == body + (TICKS + post);
          OccursInPrefix(body, TICKS + post, TICKS, i);
        } else {
          OccursAt(text, TICKS, i, |body| - 1 - i);
        }
      }
    }
    CutAt(body, TICKS, post);
  }

  lemma FirstLineCut(info: string, rest: string)
    requires '\n' !in info
    ensures AfterFirstLine(info + "\n" + rest) == rest
  {
    var text := info + "\n" + rest;
    forall i | 0 <= i < |info| ensures !Occurs(text, "\n", i) {
      assert text[i] == info[i] && info[i] in info;
      if Occurs(text, "\n", i) {
        OccursAt(text, "\n", i, 0);
      }
    }
    CutAt(info, "\n", rest);
  }

  lemma {:induction false} TrimLeftSpaces(lead: string, s: string)
    requires IsPadding(lead) && (s == "" || !IsSpace(s[0]))
    ensures TrimLeft(lead + s) == s
  {
    if lead == "" {
      assert lead + s == s;
    } else {
      SpaceCodes(lead[0]);
      TrimLeftSpaces(lead[1..], s);
      assert (lead + s)[1..] == lead[1..] + s;
    }
  }

  lemma {:induction false} TrimRightSpaces(s: string, trail: string)
    requires IsPadding(trail) && (s == "" || !IsSpace(s[|s| - 1]))
    ensures TrimRight(s + trail) == s
  {
    if trail == "" {
      assert s + trail == s;
    } else {
      SpaceCodes(trail[|trail| - 1]);
      TrimRightSpaces(s, trail[..|trail| - 1]);
      assert (s + trail)[..|s + trail| - 1] == s + trail[..|trail| - 1];
    }
  }

  lemma {:induction false} TrimLeftCuts(s: string) returns (lead: string)
    ensures s == lead + TrimLeft(s) && IsPadding(lead)
    ensures TrimLeft(s) != "" ==> TrimLeft(s)[0] as int !in WHITE_SPACE
  {
    if s != "" && IsSpace(s[0]) {
      SpaceCodes(s[0]);
      var more := TrimLeftCuts(s[1..]);
      lead := [s[0]] + more;
      assert s == [s[0]] + s[1..];
    } else {
      lead := "";
      if s != "" {
        SpaceCodes(s[0]);
      }
    }
  }

  lemma {:induction false} TrimRightCuts(s: string) returns (trail: string)
    ensures s == TrimRight(s) + trail && IsPadding(trail)
    ensures TrimRight(s) != "" ==>
              TrimRight(s)[|TrimRight(s)| - 1] as int !in WHITE_SPACE && TrimRight(s)[0] == s[0]
  {
    if s != "" && IsSpace(s[|s| - 1]) {
      SpaceCodes(s[|s| - 1]);
      var more := TrimRightCuts(s[..|s| - 1]);
      trail := more + [s[|s| - 1]];
      assert s == s[..|s| - 1] + [s[|s| - 1]];
    } else {
      trail := "";
      if s != "" {
        SpaceCodes(s[|s| - 1]);
      }
    }
  }

  /** `s` is `middle` between white space, and `middle` itself is tight. */
  ghost predicate TrimsTo(s: string, middle: string) {
    IsTight(middle) && exists lead, trail :: IsPadding(lead) && IsPadding(trail) && s == lead + middle + trail
  }

  lemma PaddingTrimmed(s: string)
    requires IsPadding(s)
    ensures TrimSpace(s) == ""
  {
    TrimLeftSpaces(s, "");
    assert s + "" == s;
  }

  lemma TightTrimmed(lead: string, middle: string, trail: string)
    requires IsPadding(lead) && IsPadding(trail) && IsTight(middle)
    ensures TrimSpace(lead + middle + trail) == middle
  {
    if middle == "" {
      assert IsPadding(lead + middle + trail);
      PaddingTrimmed(lead + middle + trail);
    } else {
      SpaceCodes(middle[0]);
      SpaceCodes(middle[|middle| - 1]);
      assert lead + middle + trail == lead + (middle + trail);
      TrimLeftSpaces(lead, middle + trail);
      TrimRightSpaces(middle, trail);
    }
  }

  /** Trimming takes off exactly the white space at both ends. */
  lemma TrimsExactly(s: string, middle: string)
    ensures TrimsTo(s, middle) <==> middle == TrimSpace(s)
  {
    if TrimsTo(s, middle) {
      var lead, trail :| IsPadding(lead) && IsPadding(trail) && s == lead + middle + trail;
      TightTrimmed(lead, middle, trail);
    }
    var lead := TrimLeftCuts(s);
    var trail := TrimRightCuts(TrimLeft(s));
    assert s == lead + TrimSpace(s) + trail;
    assert TrimsTo(s, TrimSpace(s));
  }

  predicate NoTick(s: string) {
    forall j :: 0 <= j < |s| ==> s[j] != '`'
  }

  lemma TickInBody(lead: string, body: string, trail: string, k: int)
    requires NoTick(lead) && NoTick(trail) && 0 <= k < |lead + body + trail| && (lead + body + trail)[k] == '`'
    ensures |lead| <= k < |lead| + |body|
  {
  }

  /** Padding without backticks brings in no fence. */
  lemma PaddedTicks(lead: string, body: string, trail: string)
    requires !Contains(body, TICKS) && NoTick(lead) && NoTick(trail)
    ensures !Contains(lead + body + trail, TICKS)
  {
    var text := lead + body + trail;
    forall i | 0 <= i <= |text| ensures !Occurs(text, TICKS, i) {
      if Occurs(text, TICKS, i) {
        OccursAt(text, TICKS, i, 0);
        OccursAt(text, TICKS, i, 2);
        TickInBody(lead, body, trail, i);
        TickInBody(lead, body, trail, i + 2);
        OccursInPadded(lead, body, trail, i);
      }
    }
  }

  lemma OccursInPadded(lead: string, body: string, trail: string, i: int)
    requires Occurs(lead + body + trail, TICKS, i) && |lead| <= i && i + 2 < |lead| + |body|
    ensures Contains(body, TICKS)
  {
    assert (lead + body + trail)[i..i + 3] == body[i - |lead|..i - |lead| + 3];
    assert Occurs(body, TICKS, i - |lead|);
  }

  lemma SpacesNoTick(s: string)
    requires IsPadding(s)
    ensures NoTick(s)
  {
    assert '`' as int !in WHITE_SPACE;
  }

  lemma ContainerEnds(v: Json)
    requires IsContainer(v)
    ensures var b := Print(v); b != "" && IsOpener(b[0]) && b[|b| - 1] == Closer(b[0])
  {
  }

  /** A body that neither starts nor ends in a space or a backtick survives padding. */
  lemma PaddedBody(lead: string, body: string, trail: string)
    requires !Contains(body, TICKS) && body != "" && !IsSpace(body[0]) && !IsSpace(body[|body| - 1]) &&
        body[|body| - 1] != '`'
    requires IsPadding(lead) && IsPadding(trail)
    ensures var padded := lead + body + trail;
            !Contains(padded, TICKS) && padded[|padded| - 1] != '`' && TrimSpace(padded) == body
  {
    SpacesNoTick(lead);
    SpacesNoTick(trail);
    PaddedTicks(lead, body, trail);
    var padded := lead + body + trail;
    assert padded[|padded| - 1] == if trail == "" then body[|body| - 1] else trail[|trail| - 1];
    assert padded == lead + (body + trail);
    TrimLeftSpaces(lead, body + trail);
    TrimRightSpaces(body, trail);
  }

  /** What is made of the lines after an opening fence: their text up to the next fence, or nothing without one. */
  function LaterBlock(later: string): string {
    var cut := CutAround(later, TICKS);
    if cut.found then TrimSpace(cut.before) else ""
  }

  /** A reply with a printed value in a json fence, with padding around it and any text on the opening line. */
  function FencedReply(pre: string, info: string, lead: string, v: Json, trail: string, post: string): string {
    pre + JSON_FENCE + (info + "\n" + (lead + Print(v) + trail + TICKS + post))
  }

  lemma {:induction false} TrimLeftShorter(s: string)
    ensures |TrimLeft(s)| <= |s|
  {
    if s != "" && IsSpace(s[0]) {
      TrimLeftShorter(s[1..]);
    }
  }

  lemma {:induction false} TrimRightShorter(s: string)
    ensures |TrimRight(s)| <= |s|
    ensures s != "" && !IsSpace(s[0]) ==> TrimRight(s) != ""
  {
    if s != "" && IsSpace(s[|s| - 1]) {
      TrimRightShorter(s[..|s| - 1]);
    }
  }

  /** Where the cut lands when the body holds a fence: at one in it, past the padding. */
  lemma CutInBody(lead: string, body: string, more: string) returns (k: nat)
    requires Contains(body, TICKS) && IsPadding(lead)
    ensures k < |body| && body[k] == '`'
    ensures CutAround(lead + body + more, TICKS).found
    ensures CutAround(lead + body + more, TICKS).before == lead + body[..k]
  {
    var text := lead + body + more;
    var i :| 0 <= i <= |body| && Occurs(body, TICKS, i);
    assert text[|lead| + i..|lead| + i + 3] == body[i..i + 3];
    assert Occurs(text, TICKS, |lead| + i);
    var at := |CutAround(text, TICKS).before|;
    OccursAt(text, TICKS, at, 0);
    SpacesNoTick(lead);
    assert forall j :: 0 <= j < |lead| ==> text[j] == lead[j];
    k := at - |lead|;
    assert text[..at] == lead + body[..k];
    assert text[at] == body[k];
  }

  /** What such a cut leaves is a part of the body that lacks its end but not its start. */
  lemma CutBodyTrimmed(lead: string, body: string, k: nat)
    requires k < |body| && body[0] != '`' && !IsSpace(body[0]) && IsPadding(lead)
    ensures |TrimSpace(lead + body[..k])| < |body|
    ensures k > 0 ==> TrimSpace(lead + body[..k]) != ""
  {
    TrimLeftSpaces(lead, body[..k]);
    TrimRightShorter(body[..k]);
  }

  lemma FencedCut(pre: string, info: string, lead: string, v: Json, trail: string, post: string)
    requires !Contains(pre, JSON_FENCE) && '\n' !in info
    ensures ExtractFenced(FencedReply(pre, info, lead, v, trail, post), JSON_FENCE) ==
            LaterBlock(lead + Print(v) + trail + TICKS + post)
  {
    var rest := lead + Print(v) + trail + TICKS + post;
    JsonFenceCut(pre, info + "\n" + rest);
    FirstLineCut(info, rest);
  }

  /** With a fence inside the body, what comes out is a shorter, non-empty text. */
  lemma FenceInBody(lead: string, body: string, more: string)
    requires Contains(body, TICKS) && body != "" && body[0] != '`' && !IsSpace(body[0])
    requires IsPadding(lead)
    ensures LaterBlock(lead + body + more) != "" && |LaterBlock(lead + body + more)| < |body|
  {
    var k := CutInBody(lead, body, more);
    CutBodyTrimmed(lead, body, k);
  }

  lemma NoFenceInBody(lead: string, v: Json, trail: string, post: string)
    requires IsContainer(v) && !Contains(Print(v), TICKS)
    requires IsPadding(lead) && IsPadding(trail)
    ensures LaterBlock(lead + Print(v) + trail + TICKS + post) == Print(v)
  {
    ContainerEnds(v);
    PaddedBody(lead, Print(v), trail);
    TicksCut(lead + Print(v) + trail, post);
  }

  lemma FencedValue(lead: string, v: Json, trail: string, post: string)
    requires IsContainer(v)
    requires IsPadding(lead) && IsPadding(trail)
    ensures var block := LaterBlock(lead + Print(v) + trail + TICKS + post);
            block != "" && (block == Print(v) <==> !Contains(Print(v), TICKS))
  {
    ContainerEnds(v);
    if Contains(Print(v), TICKS) {
      assert lead + Print(v) + trail + TICKS + post == lead + Print(v) + (trail + TICKS + post);
      FenceInBody(lead, Print(v), trail + TICKS + post);
    } else {
      NoFenceInBody(lead, v, trail, post);
    }
  }

  lemma JsonBlockWins(text: string, r: string)
    requires IsCandidate(text, r) && ExtractFenced(text, JSON_FENCE) != ""
    ensures r == ExtractFenced(text, JSON_FENCE)
  {
  }

  /**
    A printed object or array in a json-fenced block comes out, of the fence and of the whole
    extraction, exactly when it holds no fence itself: whatever brackets stand before the block,
    whatever follows it, with any whitespace around the body and any text on the opening line.
  */
  lemma FencedRoundTrip(pre: string, info: string, lead: string, v: Json, trail: string, post: string, r: string)
    requires !Contains(pre, JSON_FENCE) && '\n' !in info && IsContainer(v)
    requires IsPadding(lead) && IsPadding(trail)
    ensures ExtractFenced(FencedReply(pre, info, lead, v, trail, post), JSON_FENCE) == Print(v) <==>
            !Contains(Print(v), TICKS)
    ensures Print(v) != ""
    ensures IsCandidate(FencedReply(pre, info, lead, v, trail, post), r) ==>
              (r == Print(v) <==> !Contains(Print(v), TICKS))
  {
    var text := FencedReply(pre, info, lead, v, trail, post);
    FencedCut(pre, info, lead, v, trail, post);
    FencedValue(lead, v, trail, post);
    ContainerEnds(v);
    if IsCandidate(text, r) {
      JsonBlockWins(text, r);
    }
  }

  /** The same in the terms of RFC 8259 and of the fence as it is typed: JSON white space is all of it trimmed. */
  lemma FencedJsonText(pre: string, info: string, lead: Space, v: Json, trail: Space, post: string, r: string)
    requires '\n' !in info && IsContainer(v)
    ensures var text := pre + "```json" + (info + "\n" + (lead + Print(v) + trail + "```" + post));
            !Says(pre, "```json") && IsCandidate(text, r) ==> (r == Print(v) <==> !Says(Print(v), "```"))
  {
    SpacesArePadding(lead);
    SpacesArePadding(trail);
    ContainsExactly(pre, JSON_FENCE);
    ContainsExactly(Print(v), TICKS);
    if !Contains(pre, JSON_FENCE) {
      FencedRoundTrip(pre, info, lead, v, trail, post, r);
    }
  }

  lemma SpacesArePadding(s: Space)
    ensures IsPadding(s)
  {
    forall i | 0 <= i < |s| ensures s[i] as int in WHITE_SPACE {
      assert s[i] in s;
    }
  }

  lemma PlainFenceOnly(text: string, r: string)
    requires !Contains(text, JSON_FENCE) && IsCandidate(text, r) && ExtractFenced(text, TICKS) != ""
    ensures r == ExtractFenced(text, TICKS)
  {
    assert !CutAround(text, JSON_FENCE).found;
  }

  lemma PlainCut(pre: string, info: string, rest: string)
    requires !Contains(pre, TICKS) && (pre == "" || pre[|pre| - 1] != '`') && '\n' !in info
    ensures ExtractFenced(pre + TICKS + (info + "\n" + rest), TICKS) == LaterBlock(rest)
  {
    TicksCut(pre, info + "\n" + rest);
    FirstLineCut(info, rest);
  }

  /**
    A block in a plain fence comes out under the same condition, in a reply that nowhere has a json
    fence, which would win over it.
  */
  lemma PlainFencedRoundTrip(pre: string, info: string, lead: Space, v: Json, trail: Space, post: string, r: string)
    requires !Says(pre, "```") && (pre == "" || pre[|pre| - 1] != '`') && '\n' !in info && IsContainer(v)
    requires var text := pre + "```" + (info + "\n" + (lead + Print(v) + trail + "```" + post));
             !Says(text, "```json") && IsCandidate(text, r)
    ensures r == Print(v) <==> !Says(Print(v), "```")
  {
    var rest := lead + Print(v) + trail + TICKS + post;
    var text := pre + TICKS + (info + "\n" + rest);
    SpacesArePadding(lead);
    SpacesArePadding(trail);
    ContainsExactly(pre, TICKS);
    ContainsExactly(Print(v), TICKS);
    ContainsExactly(text, JSON_FENCE);
    PlainCut(pre, info, rest);
    FencedValue(lead, v, trail, post);
    PlainFenceOnly(text, r);
  }

  // ----- blocks on the opening line

  /** A reply with a block on the opening line of its json fence, and more lines after it. */
  function OneLineReply(pre: string, line: string, post: string, later: string): string {
    pre + JSON_FENCE + ((line + TICKS + post) + "\n" + later)
  }

  /**
    A block written on the opening line is lost as soon as another line follows: what comes out is
    the text of the later lines up to a fence, or nothing without one.  So the block comes back
    exactly if that text happens to be the block.  While the reply ends on the line, it does come out.
  */
  lemma OneLineBlock(pre: string, line: string, post: string, later: string)
    requires !Contains(pre, JSON_FENCE) && '\n' !in line && '\n' !in post
    ensures ExtractFenced(OneLineReply(pre, line, post, later), JSON_FENCE) == LaterBlock(later)
    ensures !Contains(line, TICKS) && (line == "" || line[|line| - 1] != '`') ==>
              ExtractFenced(pre + JSON_FENCE + (line + TICKS + post), JSON_FENCE) == TrimSpace(line)
  {
    var block := line + TICKS + post;
    JsonFenceCut(pre, block + "\n" + later);
    FirstLineCut(block, later);
    JsonFenceCut(pre, block);
    NoNewline(block);
    if !Contains(line, TICKS) && (line == "" || line[|line| - 1] != '`') {
      TicksCut(line, post);
    }
  }

  /**
    What the plain fence finds in such a reply.  It opens at the first fence of all; a line break
    between that one and the json fence makes the text up to the next fence the block.
  */
  function PlainBlock(pre: string, later: string): string {
    var after := CutAround(pre + TICKS, TICKS).after;
    if '\n' in after then TrimSpace(CutAround(AfterFirstLine(after), TICKS).before) else LaterBlock(later)
  }

  lemma EndsInTicks(pre: string)
    ensures CutAround(pre + TICKS, TICKS).found
    ensures var cut := CutAround(pre + TICKS, TICKS); pre + TICKS == cut.before + TICKS + cut.after
    ensures |CutAround(pre + TICKS, TICKS).before| <= |pre|
  {
    assert (pre + TICKS)[|pre|..|pre| + 3] == TICKS;
    assert Occurs(pre + TICKS, TICKS, |pre|);
  }

  /** After a line break there is still a whole fence to come. */
  lemma FenceAfterBreak(pre: string, before: string, after: string)
    requires pre + TICKS == before + TICKS + after && '\n' in after
    ensures CutAround(after, "\n").found && AfterFirstLine(after) == CutAround(after, "\n").after
    ensures CutAround(AfterFirstLine(after), TICKS).found
  {
    var nl :| 0 <= nl < |after| && after[nl] == '\n';
    assert Occurs(after, "\n", nl);
    var cut := CutAround(after, "\n");
    var at := |cut.before|;
    assert Occurs(after, "\n", at);
    OccursAt(after, "\n", at, 0);
    assert after[at] == '\n' && cut.after == after[at + 1..];
    assert (pre + TICKS)[|before| + 3 + at] == after[at];
    assert |before| + 3 + at < |pre|;
    var rest := pre[|before| + 3 + at + 1..];
    assert cut.after == (pre + TICKS)[|before| + 3 + at + 1..] == rest + TICKS;
    EndsInTicks(rest);
  }

  /** What follows the first fence, with a line break before the json fence and without. */
  lemma BlockAfterBreak(pre: string, before: string, after: string, more: string)
    requires pre + TICKS == before + TICKS + after && '\n' in after
    ensures var block := CutAround(AfterFirstLine(after + more), TICKS);
            block.found && block.before == CutAround(AfterFirstLine(after), TICKS).before
  {
    FenceAfterBreak(pre, before, after);
    CutExtends(after, more, "\n");
    CutExtends(AfterFirstLine(after), more, TICKS);
  }

  lemma BlockWithoutBreak(after: string, block: string, later: string)
    requires '\n' !in after && '\n' !in block
    ensures AfterFirstLine(after + ("json" + (block + "\n" + later))) == later
  {
    var info := after + "json" + block;
    assert after + ("json" + (block + "\n" + later)) == info + "\n" + later;
    assert forall i :: 0 <= i < |info| ==> info[i] != '\n';
    FirstLineCut(info, later);
  }

  lemma ReplyFromTicks(pre: string, line: string, post: string, later: string)
    ensures OneLineReply(pre, line, post, later) == (pre + TICKS) + ("json" + ((line + TICKS + post) + "\n" + later))
  {
    var rest := (line + TICKS + post) + "\n" + later;
    assert JSON_FENCE == TICKS + "json";
    assert pre + (TICKS + "json") + rest == (pre + TICKS) + ("json" + rest);
  }

  lemma PlainFence(pre: string, line: string, post: string, later: string)
    requires '\n' !in line && '\n' !in post
    ensures ExtractFenced(OneLineReply(pre, line, post, later), TICKS) == PlainBlock(pre, later)
  {
    var block := line + TICKS + post;
    var more := "json" + (block + "\n" + later);
    var cut := CutAround(pre + TICKS, TICKS);
    ReplyFromTicks(pre, line, post, later);
    EndsInTicks(pre);
    CutExtends(pre + TICKS, more, TICKS);
    if '\n' in cut.after {
      BlockAfterBreak(pre, cut.before, cut.after, more);
    } else {
      BlockWithoutBreak(cut.after, block, later);
    }
  }

  predicate NoOpener(s: string) {
    forall i :: 0 <= i < |s| ==> !IsOpener(s[i])
  }

  /** The text from its first opening bracket on begins with `w`. */
  ghost predicate OpensWith(text: string, w: string) {
    exists start :: FirstOpener(text, start) && HasPrefix(text[start..], w)
  }

  lemma SpanOpens(text: string, r: string)
    requires IsSpan(text, r) && r != ""
    ensures OpensWith(text, r)
  {
    var start, end :| FirstOpener(text, start) && FirstReturn(text, start, end) && r == text[start..end];
    assert text[start..][..|r|] == r;
  }

  lemma PrintedOpens(text: string, v: Json, r: string)
    requires IsContainer(v) && IsSpan(text, r) && OpensWith(text, Print(v))
    ensures r == Print(v)
  {
    var w := Print(v);
    var start :| FirstOpener(text, start) && HasPrefix(text[start..], w);
    CutOut(text, start, w);
    PrintedAt(text[..start], v, text[start + |w|..], r);
  }

  lemma CutOut(text: string, start: nat, w: string)
    requires start <= |text| && HasPrefix(text[start..], w)
    ensures start + |w| <= |text| && text == text[..start] + w + text[start + |w|..]
  {
  }

  lemma PrintedAt(front: string, v: Json, back: string, r: string)
    requires IsContainer(v) && NoOpener(front) && IsSpan(front + Print(v) + back, r)
    ensures r == Print(v)
  {
    PrintedSpan(front, v, back);
  }

  /** The bare span is a printed value exactly when the text from the first opening bracket on begins with it. */
  lemma SpanOpensWith(text: string, v: Json, r: string)
    requires IsContainer(v) && IsSpan(text, r)
    ensures r == Print(v) <==> OpensWith(text, Print(v))
  {
    ContainerEnds(v);
    if OpensWith(text, Print(v)) {
      PrintedOpens(text, v, r);
    }
    if r == Print(v) {
      SpanOpens(text, r);
    }
  }

  lemma OpensAt(front: string, w: string, back: string)
    requires NoOpener(front) && w != "" && IsOpener(w[0])
    ensures OpensWith(front + w + back, w)
  {
    var text := front + w + back;
    assert text[|front|..][..|w|] == w && text[|front|] == w[0];
    assert FirstOpener(text, |front|);
  }

  /**
    Whether the whole extraction still gives a printed value on the opening line back when lines
    follow: a later block comes first, then a block in the preamble, then the bare span.
  */
  lemma OneLineCandidate(pre: string, lead: string, v: Json, trail: string, post: string, later: string, r: string)
    requires !Contains(pre, JSON_FENCE) && IsContainer(v)
    requires '\n' !in lead + Print(v) + trail && '\n' !in post
    requires IsCandidate(OneLineReply(pre, lead + Print(v) + trail, post, later), r)
    ensures r == Print(v) <==>
            if LaterBlock(later) != "" then LaterBlock(later) == Print(v)
            else if PlainBlock(pre, later) != "" then PlainBlock(pre, later) == Print(v)
            else OpensWith(OneLineReply(pre, lead + Print(v) + trail, post, later), Print(v))
  {
    var line := lead + Print(v) + trail;
    OneLineBlock(pre, line, post, later);
    PlainFence(pre, line, post, later);
    if LaterBlock(later) == "" && PlainBlock(pre, later) == "" {
      SpanOpensWith(OneLineReply(pre, line, post, later), v, r);
    }
  }

  lemma ReplyOpens(pre: string, lead: string, w: string, trail: string, post: string, later: string)
    requires NoOpener(pre) && NoOpener(lead) && w != "" && IsOpener(w[0])
    ensures OpensWith(OneLineReply(pre, lead + w + trail, post, later), w)
  {
    var front, back := pre + JSON_FENCE + lead, trail + TICKS + post + "\n" + later;
    assert OneLineReply(pre, lead + w + trail, post, later) == front + w + back;
    assert NoOpener(JSON_FENCE);
    OpensAt(front, w, back);
  }

  /** After a preamble without fences and brackets only a later block can keep the value from coming back. */
  lemma OneLineAfterProse(pre: string, lead: string, v: Json, trail: string, post: string, later: string, r: string)
    requires !Contains(pre, TICKS) && NoOpener(pre) && NoOpener(lead) && IsContainer(v)
    requires '\n' !in lead + Print(v) + trail && '\n' !in post
    requires IsCandidate(OneLineReply(pre, lead + Print(v) + trail, post, later), r)
    ensures r == Print(v) <==> LaterBlock(later) == "" || LaterBlock(later) == Print(v)
  {
    NoJsonFence(pre);
    OneLineCandidate(pre, lead, v, trail, post, later, r);
    NoBreakInFence(pre);
    ContainerEnds(v);
    ReplyOpens(pre, lead, Print(v), trail, post, later);
  }

  lemma NoJsonFence(pre: string)
    requires !Contains(pre, TICKS)
    ensures !Contains(pre, JSON_FENCE)
  {
    forall i | 0 <= i <= |pre| ensures !Occurs(pre, JSON_FENCE, i) {
      if Occurs(pre, JSON_FENCE, i) {
        assert pre[i..i + 7][..3] == pre[i..i + 3];
        assert Occurs(pre, TICKS, i);
      }
    }
  }

  lemma NoBreakInFence(pre: string)
    requires !Contains(pre, TICKS)
    ensures '\n' !in CutAround(pre + TICKS, TICKS).after
  {
    EndsInTicks(pre);
    var cut := CutAround(pre + TICKS, TICKS);
    var at := |cut.before|;
    assert Occurs(pre + TICKS, TICKS, at);
    if at + 3 <= |pre| {
      OccursInPrefix(pre, TICKS, TICKS, at);
    }
    forall i | 0 <= i < |cut.after| ensures cut.after[i] == '`' {
      assert cut.after[i] == (pre + TICKS)[at + 3 + i];
    }
  }

  lemma NoNewline(text: string)
    requires '\n' !in text
    ensures AfterFirstLine(text) == text
  {
    forall i | 0 <= i <= |text| ensures !Occurs(text, "\n", i) {
      assert i < |text| ==> text[i] in text;
      if Occurs(text, "\n", i) {
        OccursAt(text, "\n", i, 0);
      }
    }
  }
}
