/**
  `attachMaxTurns`: a subscriber that counts the turns of a session and cancels
  the prompt once, when the limit is reached.  First the handler on one thread,
  then with deliveries running side by side.
*/
module MaxTurns {
  import opened Wrappers

  /** A delivered chunk; `messageId` is absent for older shapes of the protocol. */
  datatype Chunk = NoChunk | Chunk(messageId: Option<string>)

  predicate HasId(c: Chunk) {
    c.Chunk? && c.messageId.Some? && c.messageId.value != ""
  }

  datatype Counter = Counter(lastMsgID: string, count: nat, cancelled: bool)

  /** The first part of the handler: whether the chunk starts a turn, and the id remembered after it. */
  function Recognise(last: string, c: Chunk): (bool, string) {
    if c.NoChunk? then (false, last)
    else if HasId(c) then (c.messageId.value != last, c.messageId.value)
    else (true, last)
  }

  class TurnCounter {
    const limit: int
    var lastMsgID: string
    var count: nat
    var cancelled: bool
    /** The chunks handled so far. */
    ghost var handled: seq<Chunk>

    ghost predicate Valid()
      reads this
    {
      && limit > 0
      && lastMsgID == LastId(handled)
      && count == Turns(handled)
      && (cancelled <==> count >= limit)
    }

    constructor (limit: int)
      requires limit > 0
      ensures Valid() && this.limit == limit && handled == []
    {
      this.limit := limit;
      lastMsgID, count, cancelled := "", 0, false;
      handled := [];
    }

    /** `cancels` tells whether this chunk cancels the prompt: exactly when it takes the turns to the limit. */
    method AgentMessage(c: Chunk) returns (cancels: bool)
      requires Valid()
      modifies this
      ensures Valid()
      ensures handled == old(handled) + [c]
      ensures cancels <==> Turns(old(handled)) < limit <= Turns(handled)
    {
      var isNewMessage, last := false, lastMsgID;
      TurnsStep(handled, c);
      handled := handled + [c];
      if c.NoChunk? {
        return false;
      }
      if HasId(c) {
        if c.messageId.value != lastMsgID {
          lastMsgID := c.messageId.value;
          isNewMessage := true;
        }
      } else {
        isNewMessage := true;
      }
      if !isNewMessage {
        return false;
      }
      count := count + 1;
      if count < limit {
        return false;
      }
      if cancelled {
        return false;
      }
      cancelled := true;
      cancels := true;
    }
  }

  method AttachMaxTurns(limit: int) returns (counter: TurnCounter?)
    ensures limit <= 0 <==> counter == null
    ensures counter != null ==> fresh(counter) && counter.Valid() && counter.limit == limit && counter.handled == []
  {
    if limit <= 0 {
      return null;
    }
    counter := new TurnCounter(limit);
  }

  // ----- the turns of a stream

  /** The ids of the chunks that have one, in order. */
  function Ids(cs: seq<Chunk>): (ids: seq<string>)
    ensures forall i :: 0 <= i < |ids| ==> ids[i] != ""
  {
    if cs == [] then []
    else Ids(cs[..|cs| - 1]) + if HasId(cs[|cs| - 1]) then [cs[|cs| - 1].messageId.value] else []
  }

  function LastId(cs: seq<Chunk>): string {
    if Ids(cs) == [] then "" else Ids(cs)[|Ids(cs)| - 1]
  }

  /** How many chunks come without an id. */
  function WithoutId(cs: seq<Chunk>): nat {
    if cs == [] then 0
    else WithoutId(cs[..|cs| - 1]) + if cs[|cs| - 1].Chunk? && !HasId(cs[|cs| - 1]) then 1 else 0
  }

  /** How many ids differ from the one before; the first always does. */
  function Changes(ids: seq<string>): nat {
    if ids == [] then 0
    else Changes(ids[..|ids| - 1]) + if |ids| == 1 || ids[|ids| - 1] != ids[|ids| - 2] then 1 else 0
  }

  function Turns(cs: seq<Chunk>): nat {
    WithoutId(cs) + Changes(Ids(cs))
  }

  lemma TurnsStep(cs: seq<Chunk>, c: Chunk)
    ensures var (isNew, last) := Recognise(LastId(cs), c);
            Turns(cs + [c]) == Turns(cs) + (if isNew then 1 else 0) && LastId(cs + [c]) == last
  {
    assert (cs + [c])[..|cs|] == cs;
    var ids := Ids(cs);
    if HasId(c) {
      var id := c.messageId.value;
      assert Ids(cs + [c]) == ids + [id];
      assert (ids + [id])[..|ids|] == ids;
      assert ids != [] ==> (ids + [id])[|ids| - 1] == LastId(cs);
    } else {
      assert Ids(cs + [c]) == ids + [] == ids;
    }
  }

  lemma {:induction false} TurnsGrow(cs: seq<Chunk>, i: nat, j: nat)
    requires i <= j <= |cs|
    ensures Turns(cs[..i]) <= Turns(cs[..j])
  {
    if i < j {
      TurnsGrow(cs, i, j - 1);
      assert cs[..j] == cs[..j - 1] + [cs[j - 1]];
      TurnsStep(cs[..j - 1], cs[j - 1]);
    }
  }

  /** Chunk `i` of a stream cancels: what `AgentMessage` answers for it. */
  predicate CancelsAt(cs: seq<Chunk>, limit: int, i: nat)
    requires i < |cs|
  {
    Turns(cs[..i]) < limit <= Turns(cs[..i + 1])
  }

  /** The position of the first chunk that takes the turns to the limit. */
  function FirstAtLimit(cs: seq<Chunk>, limit: int): (i: nat)
    requires 0 < limit <= Turns(cs)
    ensures i < |cs| && CancelsAt(cs, limit, i)
  {
    var n := |cs| - 1;
    assert cs[..n + 1] == cs;
    if Turns(cs[..n]) < limit then n
    else
      var i := FirstAtLimit(cs[..n], limit);
      assert cs[..n][..i] == cs[..i] && cs[..n][..i + 1] == cs[..i + 1];
      i
  }

  /** A stream cancels once if its turns reach the limit, at the chunk that reaches it, and otherwise never. */
  lemma CancelsOnce(cs: seq<Chunk>, limit: int, i: nat)
    requires limit > 0 && i < |cs|
    ensures CancelsAt(cs, limit, i) <==> limit <= Turns(cs) && i == FirstAtLimit(cs, limit)
  {
    assert cs[..|cs|] == cs;
    TurnsGrow(cs, i + 1, |cs|);
    if limit <= Turns(cs) {
      var first := FirstAtLimit(cs, limit);
      if i < first {
        TurnsGrow(cs, i + 1, first);
      } else if first < i {
        TurnsGrow(cs, first + 1, i);
      }
    }
  }

  // ----- turns against messages

  function Distinct(ids: seq<string>): set<string> {
    set i | 0 <= i < |ids| :: ids[i]
  }

  /** No message's chunks are interrupted by those of another. */
  predicate Contiguous(ids: seq<string>) {
    forall i, j, k :: 0 <= i < j < k < |ids| && ids[i] == ids[k] ==> ids[j] == ids[i]
  }

  lemma ContiguousShorter(ids: seq<string>, id: string)
    requires Contiguous(ids + [id])
    ensures Contiguous(ids) && (id in ids ==> id == ids[|ids| - 1])
  {
    var more, n := ids + [id], |ids|;
    assert forall i :: 0 <= i < n ==> more[i] == ids[i];
    if id in ids {
      var i :| 0 <= i < n && ids[i] == id;
      assert more[i] == more[n];
      assert i < n - 1 ==> more[n - 1] == more[i];
    }
  }

  lemma ContiguousLonger(ids: seq<string>, id: string)
    requires Contiguous(ids) && (id in ids ==> id == ids[|ids| - 1])
    ensures Contiguous(ids + [id])
  {
    var more, n := ids + [id], |ids|;
    forall i, j, k | 0 <= i < j < k < |more| && more[i] == more[k]
      ensures more[j] == more[i]
    {
      if k == n {
        assert ids[i] == id && id in ids;
        assert j < n - 1 ==> ids[i] == ids[n - 1];
      } else {
        assert ids[i] == ids[k];
      }
    }
  }

  lemma ContiguousStep(ids: seq<string>, id: string)
    ensures Contiguous(ids + [id]) <==> Contiguous(ids) && (id in ids ==> id == ids[|ids| - 1])
  {
    if Contiguous(ids + [id]) {
      ContiguousShorter(ids, id);
    }
    if Contiguous(ids) && (id in ids ==> id == ids[|ids| - 1]) {
      ContiguousLonger(ids, id);
    }
  }

  lemma DistinctStep(ids: seq<string>, id: string)
    ensures |Distinct(ids + [id])| == |Distinct(ids)| + if id in ids then 0 else 1
  {
    var more := ids + [id];
    assert Distinct(more) == Distinct(ids) + {id} by {
      assert forall i :: 0 <= i < |ids| ==> more[i] == ids[i];
      assert more[|ids|] == id;
    }
    assert id in Distinct(ids) <==> id in ids;
  }

  lemma {:induction false} ChangesCountMessages(ids: seq<string>)
    ensures Changes(ids) >= |Distinct(ids)|
    ensures Changes(ids) == |Distinct(ids)| <==> Contiguous(ids)
  {
    if ids == [] {
      assert Distinct(ids) == {};
    } else {
      var front, id := ids[..|ids| - 1], ids[|ids| - 1];
      ChangesCountMessages(front);
      assert ids == front + [id];
      ContiguousStep(front, id);
      DistinctStep(front, id);
      assert Changes(ids) == Changes(front) + if front == [] || id != front[|front| - 1] then 1 else 0;
    }
  }

  /**
    The counter counts messages, one turn for each distinct id, exactly when every chunk has
    an id and no message is interrupted; otherwise it counts more turns than messages.
  */
  lemma TurnsAreMessages(cs: seq<Chunk>)
    ensures Turns(cs) >= |Distinct(Ids(cs))|
    ensures Turns(cs) == |Distinct(Ids(cs))| <==> WithoutId(cs) == 0 && Contiguous(Ids(cs))
  {
    ChangesCountMessages(Ids(cs));
  }

  // ----- deliveries side by side

  /**
    The handler's shared variables, and how many of its activations stand where: `waiting`
    have not yet looked at their chunk, `adding` have found a new turn, `swapping` have
    counted it and found the limit reached.  `order` is the order in which chunks were looked at.
  */
  datatype Shared = Shared(
    lastMsgID: string, count: nat, cancelled: bool,
    waiting: multiset<Chunk>, adding: nat, swapping: nat,
    order: seq<Chunk>, cancels: nat)

  datatype Action = Arrive(c: Chunk) | Look(c: Chunk) | AddTurn | SwapCancelled

  const START := Shared("", 0, false, multiset{}, 0, 0, [], 0)

  predicate Can(s: Shared, a: Action) {
    match a
    case Arrive(_) => true
    case Look(c) => c in s.waiting
    case AddTurn => s.adding > 0
    case SwapCancelled => s.swapping > 0
  }

  function Do(s: Shared, a: Action, limit: int): Shared
    requires Can(s, a)
  {
    match a
    case Arrive(c) => s.(waiting := s.waiting + multiset{c})
    case Look(c) =>
      var (isNew, last) := Recognise(s.lastMsgID, c);
      s.(waiting := s.waiting - multiset{c}, lastMsgID := last, order := s.order + [c],
         adding := if isNew then s.adding + 1 else s.adding)
    case AddTurn =>
      var n := s.count + 1;
      s.(adding := s.adding - 1, count := n, swapping := if n < limit then s.swapping else s.swapping + 1)
    case SwapCancelled =>
      if s.cancelled then s.(swapping := s.swapping - 1)
      else s.(swapping := s.swapping - 1, cancelled := true, cancels := s.cancels + 1)
  }

  predicate ValidRun(s: Shared, run: seq<Action>, limit: int)
    decreases |run|
  {
    run == [] || (Can(s, run[0]) && ValidRun(Do(s, run[0], limit), run[1..], limit))
  }

  function After(s: Shared, run: seq<Action>, limit: int): Shared
    requires ValidRun(s, run, limit)
    decreases |run|
  {
    if run == [] then s else After(Do(s, run[0], limit), run[1..], limit)
  }

  function Arrived(run: seq<Action>): multiset<Chunk> {
    if run == [] then multiset{}
    else (if run[0].Arrive? then multiset{run[0].c} else multiset{}) + Arrived(run[1..])
  }

  predicate Consistent(s: Shared, limit: int) {
    && s.lastMsgID == LastId(s.order)
    && s.count + s.adding == Turns(s.order)
    && s.cancels == (if s.cancelled then 1 else 0)
    && (s.cancelled ==> s.count >= limit)
    && (s.swapping > 0 ==> s.count >= limit)
    && (s.count >= limit ==> s.cancelled || s.swapping > 0)
  }

  lemma StepConsistent(s: Shared, a: Action, limit: int)
    requires Consistent(s, limit) && Can(s, a)
    ensures Consistent(Do(s, a, limit), limit)
  {
    if a.Look? {
      TurnsStep(s.order, a.c);
    }
  }

  lemma {:induction false} RunConsistent(s: Shared, run: seq<Action>, limit: int)
    requires Consistent(s, limit) && ValidRun(s, run, limit)
    ensures Consistent(After(s, run, limit), limit)
    decreases |run|
  {
    if run != [] {
      StepConsistent(s, run[0], limit);
      RunConsistent(Do(s, run[0], limit), run[1..], limit);
    }
  }

  lemma {:induction false} RunKeepsChunks(s: Shared, run: seq<Action>, limit: int)
    requires ValidRun(s, run, limit)
    ensures var t := After(s, run, limit);
            multiset(t.order) + t.waiting == multiset(s.order) + s.waiting + Arrived(run)
    decreases |run|
  {
    if run != [] {
      StepKeepsChunks(s, run[0], limit);
      RunKeepsChunks(Do(s, run[0], limit), run[1..], limit);
    }
  }

  lemma StepKeepsChunks(s: Shared, a: Action, limit: int)
    requires Can(s, a)
    ensures var t := Do(s, a, limit);
            multiset(t.order) + t.waiting ==
            multiset(s.order) + s.waiting + if a.Arrive? then multiset{a.c} else multiset{}
  {
  }

  /**
    However deliveries interleave, the prompt is cancelled at most once.  When none is left,
    the outcome is that of handling the delivered chunks one by one in some order: cancelled
    exactly when the turns in that order reach the limit.
  */
  lemma ConcurrentCancelsOnce(run: seq<Action>, limit: int)
    requires limit > 0 && ValidRun(START, run, limit)
    ensures var t := After(START, run, limit);
            && t.cancels <= 1
            && (t.cancels == 1 ==> Turns(t.order) >= limit)
            && (t.waiting == multiset{} && t.adding == 0 && t.swapping == 0 ==>
                  && multiset(t.order) == Arrived(run)
                  && t.cancels == if Turns(t.order) >= limit then 1 else 0)
  {
    RunConsistent(START, run, limit);
    RunKeepsChunks(START, run, limit);
    var t := After(START, run, limit);
    assert multiset(START.order) + START.waiting + Arrived(run) == Arrived(run);
    assert t.waiting == multiset{} ==> multiset(t.order) + t.waiting == multiset(t.order);
  }

  /** The actions still owed to the deliveries under way. */
  function Owed(s: Shared): nat {
    3 * |s.waiting| + 2 * s.adding + s.swapping
  }

  lemma StepPays(s: Shared, a: Action, limit: int)
    requires Can(s, a)
    ensures Owed(Do(s, a, limit)) + 1 <= Owed(s) + if a.Arrive? then 4 else 0
  {
  }

  lemma {:induction false} DeliveriesPaid(s: Shared, run: seq<Action>, limit: int)
    requires ValidRun(s, run, limit)
    ensures |run| + Owed(After(s, run, limit)) <= Owed(s) + 4 * |Arrived(run)|
    decreases |run|
  {
    if run != [] {
      StepPays(s, run[0], limit);
      DeliveriesPaid(Do(s, run[0], limit), run[1..], limit);
    }
  }

  /** Every delivery comes to an end: a run has at most four actions for each chunk, less what is still to come. */
  lemma DeliveriesEnd(run: seq<Action>, limit: int)
    requires ValidRun(START, run, limit)
    ensures |run| + Owed(After(START, run, limit)) <= 4 * |Arrived(run)|
  {
    DeliveriesPaid(START, run, limit);
  }
}
