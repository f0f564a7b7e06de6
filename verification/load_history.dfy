/**
  `messagesFromNotifications`: replayed message chunks coalesced into messages.
  The loop is proved equal to "keep the message chunks, concatenate maximal runs
  of one role, drop the empty ones".
*/
module LoadHistory {
  import opened Wrappers

  datatype Role = User | Assistant | Thought

  /** The content of a chunk; `text` is absent for images, audio and resources. */
  datatype Content = Content(text: Option<string>)

  /** The variants of an update that can carry a message; others leave all three absent. */
  datatype Update = Update(userMessage: Option<Content>, agentMessage: Option<Content>, agentThought: Option<Content>)

  datatype Message = Message(role: Role, text: string)

  predicate HasText(c: Option<Content>) {
    c.Some? && c.value.text.Some?
  }

  function ExtractMessageChunk(u: Update): Option<Message> {
    if HasText(u.userMessage) then Some(Message(User, u.userMessage.value.text.value))
    else if HasText(u.agentMessage) then Some(Message(Assistant, u.agentMessage.value.text.value))
    else if HasText(u.agentThought) then Some(Message(Thought, u.agentThought.value.text.value))
    else None
  }

  /** The message an update carries, as a sequence of none or one. */
  function Carried(u: Update): seq<Message> {
    var chunk := ExtractMessageChunk(u);
    if chunk.Some? then [chunk.value] else []
  }

  function Chunks(us: seq<Update>): seq<Message> {
    if us == [] then []
    else
      Chunks(us[..|us| - 1]) + Carried(us[|us| - 1])
  }

  /** One more chunk joins the last run if it has its role, and starts a new one otherwise. */
  function Extend(rs: seq<Message>, c: Message): seq<Message> {
    if rs != [] && rs[|rs| - 1].role == c.role then
      rs[..|rs| - 1] + [Message(c.role, rs[|rs| - 1].text + c.text)]
    else
      rs + [c]
  }

  /** The maximal runs of one role, each concatenated into one message. */
  function Runs(cs: seq<Message>): (rs: seq<Message>)
    ensures cs == [] <==> rs == []
    ensures cs != [] ==> rs[|rs| - 1].role == cs[|cs| - 1].role
    ensures forall i :: 0 <= i < |rs| - 1 ==> rs[i].role != rs[i + 1].role
  {
    if cs == [] then [] else Extend(Runs(cs[..|cs| - 1]), cs[|cs| - 1])
  }

  function DropEmpty(ms: seq<Message>): seq<Message> {
    if ms == [] then []
    else DropEmpty(ms[..|ms| - 1]) + if ms[|ms| - 1].text == "" then [] else [ms[|ms| - 1]]
  }

  function Coalesced(us: seq<Update>): seq<Message> {
    DropEmpty(Runs(Chunks(us)))
  }

  /** The `flush` closure: what it appends for the current run. */
  function Flushed(out: seq<Message>, role: Option<Role>, text: string): seq<Message> {
    if role.None? || text == "" then out else out + [Message(role.value, text)]
  }

  /** The loop's variables stand for the runs so far: the last is still open, the others are flushed. */
  predicate Represents(rs: seq<Message>, out: seq<Message>, role: Option<Role>, text: string) {
    if role.None? then rs == [] && out == [] && text == ""
    else rs != [] && rs[|rs| - 1] == Message(role.value, text) && out == DropEmpty(rs[..|rs| - 1])
  }

  lemma FlushedRepresents(rs: seq<Message>, out: seq<Message>, role: Option<Role>, text: string)
    requires Represents(rs, out, role, text)
    ensures Flushed(out, role, text) == DropEmpty(rs)
  {
  }

  lemma ExtendRepresents(rs: seq<Message>, out: seq<Message>, role: Option<Role>, text: string, c: Message)
    requires Represents(rs, out, role, text)
    ensures if role == Some(c.role) then Represents(Extend(rs, c), out, role, text + c.text)
            else Represents(Extend(rs, c), Flushed(out, role, text), Some(c.role), c.text)
  {
    FlushedRepresents(rs, out, role, text);
    if role == Some(c.role) {
      assert Extend(rs, c)[..|rs| - 1] == rs[..|rs| - 1];
    } else {
      assert Extend(rs, c)[..|rs|] == rs;
    }
  }

  lemma ChunksStep(us: seq<Update>, i: nat)
    requires i < |us|
    ensures Chunks(us[..i + 1]) == Chunks(us[..i]) + Carried(us[i])
  {
    assert us[..i + 1][..i] == us[..i];
  }

  lemma RunsStep(cs: seq<Message>, c: Message)
    ensures Runs(cs + [c]) == Extend(Runs(cs), c)
  {
    assert (cs + [c])[..|cs|] == cs;
  }

  /** The runs of the first `i` updates. */
  function RunsOf(us: seq<Update>, i: nat): seq<Message>
    requires i <= |us|
  {
    Runs(Chunks(us[..i]))
  }

  /** What an update does to the runs. */
  function ExtendBy(rs: seq<Message>, u: Update): seq<Message> {
    match ExtractMessageChunk(u)
    case None => rs
    case Some(c) => Extend(rs, c)
  }

  lemma NextRuns(us: seq<Update>, i: nat)
    requires i < |us|
    ensures RunsOf(us, i + 1) == ExtendBy(RunsOf(us, i), us[i])
  {
    var cs := Chunks(us[..i]);
    ChunksStep(us, i);
    match ExtractMessageChunk(us[i])
    case None => assert cs + [] == cs;
    case Some(c) => RunsStep(cs, c);
  }

  /** The loop's variables, and what one round makes of them. */
  datatype Loop = Loop(out: seq<Message>, role: Option<Role>, text: string)

  const LOOP_START := Loop([], None, "")

  function OneRound(l: Loop, u: Update): Loop {
    match ExtractMessageChunk(u)
    case None => l
    case Some(c) =>
      if l.role == Some(c.role) then l.(text := l.text + c.text)
      else Loop(Flushed(l.out, l.role, l.text), Some(c.role), c.text)
  }

  function Rounds(us: seq<Update>, i: nat): Loop
    requires i <= |us|
  {
    if i == 0 then LOOP_START else OneRound(Rounds(us, i - 1), us[i - 1])
  }

  method MessagesFromNotifications(us: seq<Update>) returns (out: seq<Message>)
    ensures out == Coalesced(us)
  {
    out := [];
    var curRole: Option<Role> := None;
    var curText := "";
    var i := 0;
    while i < |us|
      invariant 0 <= i <= |us|
      invariant Loop(out, curRole, curText) == Rounds(us, i)
    {
      var chunk := ExtractMessageChunk(us[i]);
      if chunk.Some? {
        if curRole != Some(chunk.value.role) {
          out := Flushed(out, curRole, curText);
          curText := "";
          curRole := Some(chunk.value.role);
        }
        assert "" + chunk.value.text == chunk.value.text;
        curText := curText + chunk.value.text;
      }
      i := i + 1;
    }
    RoundsCoalesce(us);
    out := Flushed(out, curRole, curText);
  }

  predicate StandsFor(l: Loop, rs: seq<Message>) {
    Represents(rs, l.out, l.role, l.text)
  }

  lemma RoundRepresents(rs: seq<Message>, l: Loop, u: Update)
    requires StandsFor(l, rs)
    ensures StandsFor(OneRound(l, u), ExtendBy(rs, u))
  {
    match ExtractMessageChunk(u)
    case None =>
    case Some(c) => ExtendRepresents(rs, l.out, l.role, l.text, c);
  }

  /** Whatever round, the variables stand for the runs so far. */
  lemma {:induction false} RoundsRepresent(us: seq<Update>, i: nat)
    requires i <= |us|
    ensures StandsFor(Rounds(us, i), RunsOf(us, i))
  {
    if i == 0 {
      assert us[..0] == [];
    } else {
      RoundsRepresent(us, i - 1);
      var rs, l := RunsOf(us, i - 1), Rounds(us, i - 1);
      RoundRepresents(rs, l, us[i - 1]);
      NextRuns(us, i - 1);
      assert RunsOf(us, i) == ExtendBy(rs, us[i - 1]);
      assert Rounds(us, i) == OneRound(l, us[i - 1]);
    }
  }

  lemma RoundsCoalesce(us: seq<Update>)
    ensures var l := Rounds(us, |us|); Flushed(l.out, l.role, l.text) == Coalesced(us)
  {
    var l := Rounds(us, |us|);
    RoundsRepresent(us, |us|);
    FlushedRepresents(RunsOf(us, |us|), l.out, l.role, l.text);
    assert us[..|us|] == us;
  }

  // ----- what coalescing keeps

  /** The text of one role, or of all when `role` is absent, in order. */
  function TextOf(ms: seq<Message>, role: Option<Role>): string {
    if ms == [] then ""
    else
      var last := ms[|ms| - 1];
      TextOf(ms[..|ms| - 1], role) + if role.None? || role.value == last.role then last.text else ""
  }

  lemma ExtendKeepsText(rs: seq<Message>, c: Message, role: Option<Role>)
    ensures TextOf(Extend(rs, c), role) == TextOf(rs, role) + if role.None? || role.value == c.role then c.text else ""
  {
    var rs' := Extend(rs, c);
    if rs != [] && rs[|rs| - 1].role == c.role {
      var before := TextOf(rs[..|rs| - 1], role);
      assert rs'[..|rs| - 1] == rs[..|rs| - 1];
      if role.None? || role.value == c.role {
        assert (before + rs[|rs| - 1].text) + c.text == before + (rs[|rs| - 1].text + c.text);
      } else {
        assert before + "" == before;
      }
    } else {
      assert rs'[..|rs|] == rs;
    }
  }

  lemma {:induction false} RunsKeepText(cs: seq<Message>, role: Option<Role>)
    ensures TextOf(Runs(cs), role) == TextOf(cs, role)
  {
    if cs != [] {
      RunsKeepText(cs[..|cs| - 1], role);
      ExtendKeepsText(Runs(cs[..|cs| - 1]), cs[|cs| - 1], role);
    }
  }

  lemma {:induction false} DropEmptyKeepsText(ms: seq<Message>, role: Option<Role>)
    ensures TextOf(DropEmpty(ms), role) == TextOf(ms, role)
  {
    if ms != [] {
      var front := ms[..|ms| - 1];
      DropEmptyKeepsText(front, role);
      if ms[|ms| - 1].text == "" {
        assert DropEmpty(front) + [] == DropEmpty(front);
        assert TextOf(front, role) + "" == TextOf(front, role);
      } else {
        assert DropEmpty(ms)[..|DropEmpty(ms)| - 1] == DropEmpty(front);
      }
    }
  }

  /** No text is lost, added or moved past text of its own role; nor, over all roles, past any other. */
  lemma TextConserved(us: seq<Update>, role: Option<Role>)
    ensures TextOf(Coalesced(us), role) == TextOf(Chunks(us), role)
  {
    RunsKeepText(Chunks(us), role);
    DropEmptyKeepsText(Runs(Chunks(us)), role);
  }

  // ----- whose text comes out

  /** The text that an update's fields give a role; an agent's text gives way to a user's, a thought's to both. */
  function Spoken(u: Update, role: Role): string {
    match role
    case User =>
      if HasText(u.userMessage) then u.userMessage.value.text.value else ""
    case Assistant =>
      if HasText(u.agentMessage) && !HasText(u.userMessage) then u.agentMessage.value.text.value else ""
    case Thought =>
      if HasText(u.agentThought) && !HasText(u.userMessage) && !HasText(u.agentMessage)
      then u.agentThought.value.text.value else ""
  }

  function SpokenIn(us: seq<Update>, role: Role): string {
    if us == [] then "" else SpokenIn(us[..|us| - 1], role) + Spoken(us[|us| - 1], role)
  }

  lemma TextOfMore(ms: seq<Message>, m: Message, role: Option<Role>)
    ensures TextOf(ms + [m], role) == TextOf(ms, role) + if role.None? || role.value == m.role then m.text else ""
  {
    assert (ms + [m])[..|ms|] == ms;
  }

  lemma TextOfCarried(ms: seq<Message>, u: Update, role: Role)
    ensures TextOf(ms + Carried(u), Some(role)) == TextOf(ms, Some(role)) + Spoken(u, role)
  {
    match ExtractMessageChunk(u)
    case None =>
      assert ms + [] == ms;
      assert TextOf(ms, Some(role)) + "" == TextOf(ms, Some(role));
    case Some(c) => TextOfMore(ms, c, Some(role));
  }

  lemma {:induction false} ChunksSpeak(us: seq<Update>, role: Role)
    ensures TextOf(Chunks(us), Some(role)) == SpokenIn(us, role)
  {
    if us != [] {
      var front, last := us[..|us| - 1], us[|us| - 1];
      ChunksSpeak(front, role);
      TextOfCarried(Chunks(front), last, role);
    }
  }

  /**
    The messages of each role hold, in order, exactly the texts that the updates' own fields give that
    role: the user's from user chunks, the assistant's from agent chunks, thoughts from thought chunks.
  */
  lemma MessagesSpeak(us: seq<Update>, role: Role)
    ensures TextOf(Coalesced(us), Some(role)) == SpokenIn(us, role)
  {
    TextConserved(us, Some(role));
    ChunksSpeak(us, role);
  }

  /** A chunk of one kind makes a message of that kind's role, unless its text is empty. */
  lemma LoneChunk(text: string)
    requires text != ""
    ensures Coalesced([Update(Some(Content(Some(text))), None, None)]) == [Message(User, text)]
    ensures Coalesced([Update(None, Some(Content(Some(text))), None)]) == [Message(Assistant, text)]
    ensures Coalesced([Update(None, None, Some(Content(Some(text))))]) == [Message(Thought, text)]
  {
    LoneMessage(Update(Some(Content(Some(text))), None, None));
    LoneMessage(Update(None, Some(Content(Some(text))), None));
    LoneMessage(Update(None, None, Some(Content(Some(text)))));
  }

  lemma LoneMessage(u: Update)
    requires ExtractMessageChunk(u).Some? && ExtractMessageChunk(u).value.text != ""
    ensures Coalesced([u]) == [ExtractMessageChunk(u).value]
  {
    ChunksOfOne(u);
    var c := ExtractMessageChunk(u).value;
    assert [u][..0] == [] && [c][..0] == [];
    assert Runs([c]) == Extend(Runs([]), c) == [c];
    assert DropEmpty([c]) == DropEmpty([]) + [c];
  }

  lemma {:induction false} RunsUnfold(a: seq<Message>, c: seq<Message>)
    requires c != []
    ensures Runs(a + c) == Extend(Runs(a + c[..|c| - 1]), c[|c| - 1])
  {
    var front, last := c[..|c| - 1], c[|c| - 1];
    assert a + c == (a + front) + [last];
    RunsStep(a + front, last);
  }

  /** Runs are built chunk by chunk, so what follows depends on what precedes only through its runs. */
  lemma {:induction false} RunsAfterSame(a: seq<Message>, b: seq<Message>, c: seq<Message>)
    requires Runs(a) == Runs(b)
    ensures Runs(a + c) == Runs(b + c)
  {
    if c == [] {
      assert a + c == a && b + c == b;
    } else {
      RunsAfterSame(a, b, c[..|c| - 1]);
      RunsUnfold(a, c);
      RunsUnfold(b, c);
    }
  }

  /** Splitting a chunk in two changes nothing. */
  lemma SplitChunk(a: seq<Message>, role: Role, x: string, y: string, b: seq<Message>)
    ensures Runs(a + [Message(role, x), Message(role, y)] + b) == Runs(a + [Message(role, x + y)] + b)
  {
    var one, two := a + [Message(role, x + y)], a + [Message(role, x), Message(role, y)];
    var half := a + [Message(role, x)];
    assert two[..|two| - 1] == half && half[..|half| - 1] == a && one[..|one| - 1] == a;
    if a != [] && Runs(a)[|Runs(a)| - 1].role == role {
      var t := Runs(a)[|Runs(a)| - 1].text;
      assert (t + x) + y == t + (x + y);
    }
    assert Runs(two) == Runs(one);
    RunsAfterSame(two, one, b);
  }

  lemma {:induction false} ChunksConcat(a: seq<Update>, b: seq<Update>)
    ensures Chunks(a + b) == Chunks(a) + Chunks(b)
  {
    if b == [] {
      assert a + b == a;
    } else {
      var front, last := b[..|b| - 1], b[|b| - 1];
      ChunksConcat(a, front);
      assert (a + b)[..|a + b| - 1] == a + front;
      assert (Chunks(a) + Chunks(front)) + Carried(last) == Chunks(a) + (Chunks(front) + Carried(last));
    }
  }

  lemma ChunksOfOne(u: Update)
    ensures Chunks([u]) == Carried(u)
  {
    assert [u][..0] == [];
    assert [] + Carried(u) == Carried(u);
  }

  /** Updates that carry no message text can stand anywhere without effect. */
  lemma OtherUpdatesIgnored(a: seq<Update>, u: Update, b: seq<Update>)
    requires ExtractMessageChunk(u).None?
    ensures Coalesced(a + [u] + b) == Coalesced(a + b)
  {
    ChunksConcat(a, [u]);
    ChunksOfOne(u);
    assert Chunks(a) + [] == Chunks(a);
    ChunksConcat(a + [u], b);
    ChunksConcat(a, b);
  }

  /** Chunk splitting, on the updates themselves. */
  lemma SplitUpdate(a: seq<Update>, u: Update, v: Update, w: Update, b: seq<Update>)
    requires ExtractMessageChunk(u).Some? && ExtractMessageChunk(v).Some?
    requires var mu, mv := ExtractMessageChunk(u).value, ExtractMessageChunk(v).value;
             mu.role == mv.role && ExtractMessageChunk(w) == Some(Message(mu.role, mu.text + mv.text))
    ensures Coalesced(a + [u, v] + b) == Coalesced(a + [w] + b)
  {
    var mu, mv := ExtractMessageChunk(u).value, ExtractMessageChunk(v).value;
    ChunksOfOne(u);
    ChunksOfOne(v);
    ChunksOfOne(w);
    ChunksConcat([u], [v]);
    assert [u] + [v] == [u, v];
    assert [mu] + [mv] == [mu, mv];
    ChunksConcat(a, [u, v]);
    ChunksConcat(a + [u, v], b);
    ChunksConcat(a, [w]);
    ChunksConcat(a + [w], b);
    SplitChunk(Chunks(a), mu.role, mu.text, mv.text, Chunks(b));
  }

  // ----- when two messages of one role end up side by side

  predicate RolesAlternate(ms: seq<Message>) {
    forall i :: 0 <= i < |ms| - 1 ==> ms[i].role != ms[i + 1].role
  }

  /**
    Between chunks `i` and `j`, both with text and of one role, stand only chunks without text, not all
    of that role.
  */
  predicate Straddles(cs: seq<Message>, i: nat, j: nat) {
    && i < j < |cs|
    && cs[i].text != "" && cs[j].text != ""
    && cs[i].role == cs[j].role
    && (forall k :: i < k < j ==> cs[k].text == "")
    && exists k :: i < k < j && cs[k].role != cs[i].role
  }

  ghost predicate SomeStraddle(cs: seq<Message>) {
    exists i: nat, j: nat :: Straddles(cs, i, j)
  }

  /** The position of the last chunk with text, or -1. */
  function LastWithText(cs: seq<Message>): (p: int)
    ensures -1 <= p < |cs|
    ensures p >= 0 ==> cs[p].text != ""
    ensures forall k :: p < k < |cs| ==> cs[k].text == ""
  {
    if cs == [] then -1
    else if cs[|cs| - 1].text != "" then |cs| - 1
    else LastWithText(cs[..|cs| - 1])
  }

  /** Whether the last chunk with text sits in the last run. */
  predicate TextInLastRun(cs: seq<Message>) {
    var p := LastWithText(cs);
    p >= 0 && forall k :: p < k < |cs| ==> cs[k].role == cs[p].role
  }

  /** A chunk with text puts text in the last run; one without leaves it there if it joins that run. */
  lemma TextInLastRunStep(front: seq<Message>, c: Message)
    requires front != []
    ensures TextInLastRun(front + [c]) <==> c.text != "" || (TextInLastRun(front) && c.role == front[|front| - 1].role)
  {
    var cs, p, n := front + [c], LastWithText(front), |front|;
    assert cs[..n] == front;
    if c.text == "" && p >= 0 {
      assert LastWithText(cs) == p;
      assert forall k :: p <= k < n ==> cs[k] == front[k];
      assert cs[n] == c;
      assert TextInLastRun(front) ==> front[n - 1].role == front[p].role;
    }
  }

  /** Whether a chunk of role `role` would be added to a run that already has text. */
  predicate JoinsText(rs: seq<Message>, role: Role) {
    rs != [] && rs[|rs| - 1].role == role && rs[|rs| - 1].text != ""
  }

  lemma ExtendLast(rs: seq<Message>, c: Message)
    ensures var rs' := Extend(rs, c);
            rs' != [] && (rs'[|rs'| - 1].text != "" <==> c.text != "" || JoinsText(rs, c.role))
  {
  }

  /** The last run has text, as far as its chunks say. */
  predicate LastRunTells(cs: seq<Message>)
    requires cs != []
  {
    Runs(cs)[|Runs(cs)| - 1].text != "" <==> TextInLastRun(cs)
  }

  lemma LastRunStep(front: seq<Message>, c: Message)
    requires front != [] && LastRunTells(front)
    ensures LastRunTells(front + [c])
  {
    RunsStep(front, c);
    ExtendLast(Runs(front), c);
    TextInLastRunStep(front, c);
  }

  lemma LastRunSingle(c: Message)
    ensures LastRunTells([c])
  {
    RunsStep([], c);
    ExtendLast([], c);
    assert [] + [c] == [c];
  }

  lemma {:induction false} LastRun(cs: seq<Message>)
    requires cs != []
    ensures LastRunTells(cs)
  {
    var front, c := cs[..|cs| - 1], cs[|cs| - 1];
    if front == [] {
      assert cs == [c];
      LastRunSingle(c);
    } else {
      assert cs == front + [c];
      LastRun(front);
      LastRunStep(front, c);
    }
  }

  /** How one more chunk changes the messages that are kept. */
  predicate KeptBecomes(was: seq<Message>, now: seq<Message>, c: Message, joins: bool) {
    if c.text == "" then now == was
    else if joins then
      && was != [] && |now| == |was|
      && now == was[..|was| - 1] + [Message(was[|was| - 1].role, now[|was| - 1].text)]
    else now == was + [c]
  }

  lemma KeptWhenJoined(rs: seq<Message>, c: Message)
    requires rs != [] && rs[|rs| - 1].role == c.role
    ensures KeptBecomes(DropEmpty(rs), DropEmpty(Extend(rs, c)), c, JoinsText(rs, c.role))
  {
    var rs', front, last := Extend(rs, c), rs[..|rs| - 1], rs[|rs| - 1];
    var joined := Message(c.role, last.text + c.text);
    assert rs'[..|rs| - 1] == front && rs'[|rs| - 1] == joined;
    if last.text == "" {
      assert joined == c;
      assert DropEmpty(rs) == DropEmpty(front) + [] == DropEmpty(front);
      assert DropEmpty(front) + [] == DropEmpty(front);
    } else {
      assert DropEmpty(rs) == DropEmpty(front) + [last];
      assert DropEmpty(rs') == DropEmpty(front) + [joined];
      assert (DropEmpty(front) + [last])[..|DropEmpty(front)|] == DropEmpty(front);
      if c.text == "" {
        assert joined == last;
      }
    }
  }

  lemma KeptStep(front: seq<Message>, c: Message)
    ensures KeptBecomes(DropEmpty(Runs(front)), DropEmpty(Runs(front + [c])), c, JoinsText(Runs(front), c.role))
  {
    var rs := Runs(front);
    assert (front + [c])[..|front|] == front;
    assert Runs(front + [c]) == Extend(rs, c);
    if rs != [] && rs[|rs| - 1].role == c.role {
      KeptWhenJoined(rs, c);
    } else {
      assert (rs + [c])[..|rs|] == rs;
      assert DropEmpty(rs) + [] == DropEmpty(rs);
    }
  }

  /** The last of `out` has the role of the last chunk with text. */
  predicate EndsLike(out: seq<Message>, cs: seq<Message>) {
    var p := LastWithText(cs);
    if p < 0 then out == [] else out != [] && out[|out| - 1].role == cs[p].role
  }

  lemma JoinedRole(rs: seq<Message>, role: Role)
    requires JoinsText(rs, role)
    ensures DropEmpty(rs) != [] && DropEmpty(rs)[|DropEmpty(rs)| - 1].role == role
  {
  }

  lemma EndsLikeStep(was: seq<Message>, now: seq<Message>, front: seq<Message>, c: Message, joins: bool)
    requires EndsLike(was, front) && KeptBecomes(was, now, c, joins)
    requires joins ==> was != [] && was[|was| - 1].role == c.role
    ensures EndsLike(now, front + [c])
  {
    var cs := front + [c];
    assert cs[..|front|] == front;
    if c.text == "" {
      assert LastWithText(cs) == LastWithText(front);
    }
  }

  lemma {:induction false} LastKept(cs: seq<Message>)
    ensures EndsLike(DropEmpty(Runs(cs)), cs)
  {
    if cs != [] {
      var front, c := cs[..|cs| - 1], cs[|cs| - 1];
      LastKept(front);
      KeptStep(front, c);
      assert cs == front + [c];
      if JoinsText(Runs(front), c.role) {
        JoinedRole(Runs(front), c.role);
      }
      EndsLikeStep(DropEmpty(Runs(front)), DropEmpty(Runs(cs)), front, c, JoinsText(Runs(front), c.role));
    }
  }

  predicate ClosesStraddle(front: seq<Message>, c: Message) {
    var p := LastWithText(front);
    c.text != "" && p >= 0 && front[p].role == c.role && !TextInLastRun(front)
  }

  /** A new chunk closes a straddle exactly when it has the role of the last text, and that text's run is over. */
  lemma StraddleStep(front: seq<Message>, c: Message)
    ensures SomeStraddle(front + [c]) <==>
            SomeStraddle(front) || ClosesStraddle(front, c)
  {
    var cs, n, p := front + [c], |front|, LastWithText(front);
    forall i: nat, j: nat | i < j < n
      ensures Straddles(front, i, j) <==> Straddles(cs, i, j)
    {
      assert forall k :: i <= k <= j ==> cs[k] == front[k];
    }
    forall i: nat | Straddles(cs, i, n)
      ensures i == p && c.text != "" && p >= 0 && front[p].role == c.role && !TextInLastRun(front)
    {
      assert cs[i] == front[i];
      assert p < 0 || cs[p] == front[p];
      var k :| i < k < n && cs[k].role != cs[i].role;
      assert cs[k] == front[k];
    }
    if c.text != "" && p >= 0 && front[p].role == c.role && !TextInLastRun(front) {
      var k :| p < k < n && front[k].role != front[p].role;
      assert cs[k].role != cs[p].role;
      assert forall k :: p < k < n ==> cs[k] == front[k];
      assert Straddles(cs, p, n);
    }
    if SomeStraddle(front) {
      var i: nat, j: nat :| Straddles(front, i, j);
      assert Straddles(cs, i, j);
    }
  }

  lemma {:induction false} KeptAlternate(cs: seq<Message>)
    ensures RolesAlternate(DropEmpty(Runs(cs))) <==> !SomeStraddle(cs)
  {
    if cs != [] {
      var front, c := cs[..|cs| - 1], cs[|cs| - 1];
      assert cs == front + [c];
      KeptAlternate(front);
      LastKept(front);
      KeptStep(front, c);
      StraddleStep(front, c);
      AlternateStep(front, c);
    }
  }

  lemma AlternateAppend(was: seq<Message>, c: Message)
    ensures RolesAlternate(was + [c]) <==> RolesAlternate(was) && (was == [] || was[|was| - 1].role != c.role)
  {
    var now := was + [c];
    if RolesAlternate(now) {
      forall i | 0 <= i < |was| - 1
        ensures was[i].role != was[i + 1].role
      {
        assert now[i].role != now[i + 1].role;
      }
      if was != [] {
        assert now[|was| - 1].role != now[|was| - 1 + 1].role;
      }
    }
  }

  /** More text in the last message changes no role. */
  lemma AlternateJoined(was: seq<Message>, now: seq<Message>)
    requires was != [] && |now| == |was|
    requires now == was[..|was| - 1] + [Message(was[|was| - 1].role, now[|was| - 1].text)]
    ensures RolesAlternate(now) <==> RolesAlternate(was)
  {
    assert was == was[..|was| - 1] + [was[|was| - 1]];
    AlternateAppend(was[..|was| - 1], was[|was| - 1]);
    AlternateAppend(was[..|was| - 1], now[|was| - 1]);
  }

  /** Whether a chunk becomes a message of its own after one of its own role. */
  predicate Repeats(was: seq<Message>, c: Message, joins: bool) {
    c.text != "" && !joins && was != [] && was[|was| - 1].role == c.role
  }

  /** What one more chunk does to the roles of the messages kept. */
  lemma AlternateKept(was: seq<Message>, now: seq<Message>, c: Message, joins: bool)
    requires KeptBecomes(was, now, c, joins)
    ensures RolesAlternate(now) <==> RolesAlternate(was) && !Repeats(was, c, joins)
  {
    if c.text != "" {
      if joins {
        AlternateJoined(was, now);
      } else {
        AlternateAppend(was, c);
      }
    }
  }

  /** A chunk closes a straddle exactly when it becomes a message after one of its role. */
  lemma ClosesExactly(was: seq<Message>, front: seq<Message>, c: Message, joins: bool)
    requires EndsLike(was, front)
    requires joins <==> front != [] && TextInLastRun(front) && front[|front| - 1].role == c.role
    ensures ClosesStraddle(front, c) <==> Repeats(was, c, joins)
  {
    var p := LastWithText(front);
    if TextInLastRun(front) {
      assert p == |front| - 1 || front[|front| - 1].role == front[p].role;
    }
  }

  /** Joining text, as far as the chunks say. */
  lemma JoinsTells(front: seq<Message>, c: Message)
    ensures JoinsText(Runs(front), c.role) <==>
            front != [] && TextInLastRun(front) && front[|front| - 1].role == c.role
  {
    if front != [] {
      LastRun(front);
    }
  }

  lemma AlternateStep(front: seq<Message>, c: Message)
    ensures RolesAlternate(DropEmpty(Runs(front + [c]))) <==>
            RolesAlternate(DropEmpty(Runs(front))) && !ClosesStraddle(front, c)
  {
    var joins := JoinsText(Runs(front), c.role);
    KeptStep(front, c);
    AlternateKept(DropEmpty(Runs(front)), DropEmpty(Runs(front + [c])), c, joins);
    LastKept(front);
    JoinsTells(front, c);
    ClosesExactly(DropEmpty(Runs(front)), front, c, joins);
  }

  /**
    Adjacent messages differ in role exactly when no two chunks with text, of one role, are
    separated by nothing but chunks without text of which one has another role.
  */
  lemma MessagesAlternate(us: seq<Update>)
    ensures RolesAlternate(Coalesced(us)) <==> !SomeStraddle(Chunks(us))
  {
    KeptAlternate(Chunks(us));
  }

  /** Three chunks are enough to leave two messages of the user side by side. */
  lemma EmptyChunkSplits(us: seq<Update>, x: string, y: string)
    requires x != "" && y != ""
    requires Chunks(us) == [Message(User, x), Message(Assistant, ""), Message(User, y)]
    ensures Coalesced(us) == [Message(User, x), Message(User, y)]
  {
    var a, b, c := Message(User, x), Message(Assistant, ""), Message(User, y);
    assert [a, b, c][..2] == [a, b] && [a, b][..1] == [a] && [a][..0] == [];
    assert Runs([a]) == [a] && Runs([a, b]) == [a, b] && Runs([a, b, c]) == [a, b, c];
    assert DropEmpty([a]) == [a] && DropEmpty([a, b]) == [a] + [] == [a] && DropEmpty([a, b, c]) == [a, c];
  }

  lemma ThreeChunks(u: Update, v: Update, w: Update)
    ensures Chunks([u, v, w]) == Carried(u) + Carried(v) + Carried(w)
  {
    ChunksOfOne(u);
    ChunksOfOne(v);
    ChunksOfOne(w);
    ChunksConcat([u], [v]);
    ChunksConcat([u, v], [w]);
    assert [u] + [v] == [u, v] && [u, v] + [w] == [u, v, w];
  }

  /** The same from the updates' own fields: the agent's chunk has a text, if an empty one, and so is a chunk. */
  lemma EmptyAgentChunkSplits(x: string, y: string)
    requires x != "" && y != ""
    ensures var us := [Update(Some(Content(Some(x))), None, None), Update(None, Some(Content(Some(""))), None),
                       Update(Some(Content(Some(y))), None, None)];
            Coalesced(us) == [Message(User, x), Message(User, y)]
  {
    var u, v, w := Update(Some(Content(Some(x))), None, None), Update(None, Some(Content(Some(""))), None),
        Update(Some(Content(Some(y))), None, None);
    ThreeChunks(u, v, w);
    assert Carried(u) == [Message(User, x)] && Carried(v) == [Message(Assistant, "")] &&
        Carried(w) == [Message(User, y)];
    assert [Message(User, x)] + [Message(Assistant, "")] + [Message(User, y)] ==
           [Message(User, x), Message(Assistant, ""), Message(User, y)];
    EmptyChunkSplits([u, v, w], x, y);
  }
}
