/**
 The Gateway's projection of worker output: one growing token list per request,
 fed by updates that may be stale, repeated or out of order, and read by a
 stream. Output states are objects that a caller may still hold after the buffer
 has evicted them, so they live in a heap and the buffer maps requests to them.
 */
module Output {
  import opened Recency
  import opened Wrappers

  /** `error` is empty when there is none. */
  datatype OutputState = OutputState(req: string, tokens: seq<int>, terminal: bool, error: string) {
    predicate Ended() { terminal || error != "" }
  }

  datatype OutputError = Capacity | RequestChanged | BadSequence | PrefixChanged | StillActive

  type Heap = map<nat, OutputState>

  /** The worker's final sequence for each request; a request id is used once. */
  type Final = string -> seq<int>

  /** What an honest worker may report: a prefix, and the whole when it says it is done. */
  predicate Honest(final: Final, req: string, u: Update) {
    u.tokens <= final(req) && (u.terminal && u.error == "" ==> u.tokens == final(req))
  }

  predicate Truthful(final: Final, s: OutputState) { Honest(final, s.req, Update(s.tokens, s.terminal, s.error)) }

  /** Later contents of one state: extended tokens, and an end that stays. */
  predicate Extends(a: OutputState, b: OutputState) {
    && a.req == b.req && a.tokens <= b.tokens && (a.terminal ==> b.terminal) && (a.error != "" ==> b.error != "")
  }

  predicate Grown(h: Heap, h': Heap) { forall o :: o in h ==> o in h' && Extends(h[o], h'[o]) }

  lemma GrownOn(a: Heap, b: Heap, c: Heap)
    requires Grown(a, b) && Grown(b, c)
    ensures Grown(a, c)
  {
    forall o | o in a ensures o in c && Extends(a[o], c[o]) {
      assert o in b && Extends(a[o], b[o]);
      PrefixOn(a[o].tokens, b[o].tokens, c[o].tokens);
    }
  }

  lemma PrefixOn(a: seq<int>, b: seq<int>, c: seq<int>)
    requires a <= b <= c
    ensures a <= c
  {
  }

  datatype Update = Update(tokens: seq<int>, terminal: bool, error: string) {
    predicate Ending() { terminal || error != "" }
  }

  /** The outcome of a cumulative update on one state. */
  function Updated(s: OutputState, u: Update): Result<(OutputState, bool), OutputError> {
    if |u.tokens| < |s.tokens| then Ok((s, false))
    else if u.tokens[..|s.tokens|] != s.tokens then Err(PrefixChanged)
    else
      Ok((OutputState(s.req, u.tokens, s.terminal || u.terminal, if u.error != "" then u.error else s.error),
          |u.tokens| > |s.tokens| || u.terminal != s.terminal))
  }

  /** An honest update is never refused and keeps the state truthful; a stale one changes nothing. */
  lemma HonestUpdate(final: Final, s: OutputState, u: Update)
    requires Truthful(final, s) && Honest(final, s.req, u)
    ensures Updated(s, u).Ok?
    ensures var next := Updated(s, u).value.0;
            && Truthful(final, next) && Extends(s, next)
            && |next.tokens| == if |u.tokens| > |s.tokens| then |u.tokens| else |s.tokens|
  {
    if |u.tokens| >= |s.tokens| {
      assert u.tokens[..|s.tokens|] == final(s.req)[..|s.tokens|] == s.tokens;
    }
  }

  ghost function Longest(updates: seq<Update>): nat {
    if updates == [] then 0
    else
      var before := Longest(updates[..|updates| - 1]);
      var last := |updates[|updates| - 1].tokens|;
      if last > before then last else before
  }

  ghost function Fold(s: OutputState, updates: seq<Update>): OutputState {
    if updates == [] then s
    else
      var before := Fold(s, updates[..|updates| - 1]);
      var r := Updated(before, updates[|updates| - 1]);
      if r.Ok? then r.value.0 else before
  }

  function Opened(req: string): OutputState { OutputState(req, [], false, "") }

  ghost predicate AllHonest(final: Final, req: string, updates: seq<Update>) {
    forall u :: u in updates ==> Honest(final, req, u)
  }

  /** No update before this one was longer. */
  ghost predicate NotStale(updates: seq<Update>, i: int) {
    0 <= i < |updates| && forall j :: 0 <= j < i ==> |updates[j].tokens| <= |updates[i].tokens|
  }

  ghost predicate TerminalSeen(updates: seq<Update>) { exists i :: NotStale(updates, i) && updates[i].terminal }

  ghost predicate ErrorSeen(updates: seq<Update>) { exists i :: NotStale(updates, i) && updates[i].error != "" }

  lemma {:induction false} LongestBounds(updates: seq<Update>)
    ensures forall i :: 0 <= i < |updates| ==> |updates[i].tokens| <= Longest(updates)
    ensures updates != [] ==> exists i :: 0 <= i < |updates| && |updates[i].tokens| == Longest(updates)
  {
    if updates != [] {
      var n := |updates| - 1;
      LongestBounds(updates[..n]);
      if |updates[n].tokens| > Longest(updates[..n]) || n == 0 {
        assert |updates[n].tokens| == Longest(updates);
      } else {
        var i :| 0 <= i < n && |updates[..n][i].tokens| == Longest(updates[..n]);
        assert |updates[i].tokens| == Longest(updates);
      }
    }
  }

  lemma LastNotStale(updates: seq<Update>)
    requires updates != []
    ensures var n := |updates| - 1; NotStale(updates, n) <==> |updates[n].tokens| >= Longest(updates[..n])
  {
    var n := |updates| - 1;
    LongestBounds(updates[..n]);
    if NotStale(updates, n) && n > 0 {
      var i :| 0 <= i < n && |updates[..n][i].tokens| == Longest(updates[..n]);
      assert |updates[i].tokens| <= |updates[n].tokens|;
    }
    if |updates[n].tokens| >= Longest(updates[..n]) {
      assert forall j :: 0 <= j < n ==> updates[..n][j] == updates[j];
    }
  }

  lemma StaleAlike(updates: seq<Update>, n: nat, i: int)
    requires n <= |updates| && i < n
    ensures NotStale(updates[..n], i) <==> NotStale(updates, i)
  {
    if 0 <= i { assert forall j :: 0 <= j <= i ==> updates[..n][j] == updates[j]; }
  }

  /** A flag of the fold comes from an earlier update that was not stale, or from the last one. */
  lemma SeenSplit(updates: seq<Update>)
    requires updates != []
    ensures var n := |updates| - 1;
            && (TerminalSeen(updates) <==> TerminalSeen(updates[..n]) || (NotStale(updates, n) && updates[n].terminal))
            && (ErrorSeen(updates) <==> ErrorSeen(updates[..n]) || (NotStale(updates, n) && updates[n].error != ""))
  {
    var n := |updates| - 1;
    if i :| NotStale(updates, i) && updates[i].terminal { if i < n { StaleAlike(updates, n, i); } }
    if i :| NotStale(updates, i) && updates[i].error != "" { if i < n { StaleAlike(updates, n, i); } }
    if i :| NotStale(updates[..n], i) && updates[..n][i].terminal { StaleAlike(updates, n, i); }
    if i :| NotStale(updates[..n], i) && updates[..n][i].error != "" { StaleAlike(updates, n, i); }
  }

  /**
   Any sequence of honest updates, stale, repeated or out of order, leaves
   exactly the longest token list; the stream is ended, or carries an error,
   exactly when some update saying so is at least as long as every update before.
   */
  lemma {:induction false} FoldedUpdates(final: Final, req: string, updates: seq<Update>)
    requires AllHonest(final, req, updates)
    ensures Longest(updates) <= |final(req)|
    ensures var s := Fold(Opened(req), updates);
            && s.req == req && s.tokens == final(req)[..Longest(updates)] && Truthful(final, s)
            && (s.terminal <==> TerminalSeen(updates)) && (s.error != "" <==> ErrorSeen(updates))
  {
    if updates != [] {
      var n := |updates| - 1;
      assert updates[n] in updates;
      assert AllHonest(final, req, updates[..n]);
      FoldedUpdates(final, req, updates[..n]);
      HonestUpdate(final, Fold(Opened(req), updates[..n]), updates[n]);
      LastNotStale(updates);
      SeenSplit(updates);
    }
  }

  /** An end not shorter than any update is never lost, whatever the order; so a finished worker always ends it. */
  lemma LongestEndIsKept(final: Final, req: string, updates: seq<Update>, i: nat)
    requires AllHonest(final, req, updates) && i < |updates| && updates[i].Ending()
    requires |updates[i].tokens| == Longest(updates) || (updates[i].terminal && updates[i].error == "")
    ensures Fold(Opened(req), updates).Ended()
  {
    FoldedUpdates(final, req, updates);
    LongestBounds(updates);
    assert Honest(final, req, updates[i]);
    assert NotStale(updates, i);
  }

  /** An error report shorter than what is buffered is dropped, so here the order of two updates decides. */
  lemma ShortEndIsLost(req: string)
    ensures var open, failed := Update([1, 2], false, ""), Update([1], true, "boom");
            && AllHonest(_ => [1, 2], req, [open, failed])
            && !Fold(Opened(req), [open, failed]).Ended() && Fold(Opened(req), [failed, open]).Ended()
  {
    var open, failed := Update([1, 2], false, ""), Update([1], true, "boom");
    var s := Opened(req);
    assert Fold(s, []) == s;
    assert [open, failed][..1] == [open] && [failed, open][..1] == [failed] && [open][..0] == [failed][..0] == [];
    assert Fold(s, [open]) == OutputState(req, [1, 2], false, "");
    assert Fold(s, [failed]) == OutputState(req, [1], true, "boom");
  }

  ghost predicate GoodHeap(heap: Heap, next: nat) { forall o :: o in heap ==> o < next }

  ghost predicate AllTruthful(final: Final, heap: Heap) { forall o :: o in heap ==> Truthful(final, heap[o]) }

  type States = map<string, nat>

  ghost predicate Mapped(states: States, heap: Heap) {
    forall r :: r in states ==> states[r] in heap && heap[states[r]].req == r
  }

  ghost predicate AllEnded(reqs: seq<string>, states: States, heap: Heap) {
    forall r :: r in reqs ==> r in states && states[r] in heap && heap[states[r]].Ended()
  }

  /** Evictable requests are tracked, ended and bounded; the others are within the cap. */
  ghost predicate Bounded(states: States, heap: Heap, lru: seq<string>, activeCap: nat, terminalCap: nat) {
    Distinct(lru) && |lru| <= terminalCap && AllEnded(lru, states, heap) && |states| - |lru| <= activeCap
  }

  /** Extending one object keeps everything about the others. */
  lemma ExtendKeeps(final: Final, heap: Heap, next: nat, states: States, lru: seq<string>, o: nat, s: OutputState)
    requires GoodHeap(heap, next) && Mapped(states, heap) && AllEnded(lru, states, heap)
    requires o in heap && Extends(heap[o], s)
    ensures GoodHeap(heap[o := s], next) && Mapped(states, heap[o := s]) && AllEnded(lru, states, heap[o := s])
    ensures Grown(heap, heap[o := s])
    ensures AllTruthful(final, heap) && Truthful(final, s) ==> AllTruthful(final, heap[o := s])
  {
  }

  lemma CreateKeeps(final: Final, heap: Heap, next: nat, states: States, lru: seq<string>, req: string)
    requires GoodHeap(heap, next) && Mapped(states, heap) && AllEnded(lru, states, heap) && req !in states
    ensures var heap' := heap[next := Opened(req)];
            && (AllTruthful(final, heap) ==> AllTruthful(final, heap'))
            && GoodHeap(heap', next + 1) && Mapped(states[req := next], heap')
            && AllEnded(lru, states[req := next], heap') && Grown(heap, heap')
  {
  }

  lemma OneMore(states: States, req: string, o: nat)
    requires req !in states
    ensures |states[req := o]| == |states| + 1
  {
    assert states[req := o].Keys == states.Keys + {req};
    assert |states[req := o].Keys| == |states.Keys| + 1;
  }

  class GatewayOutputBuffer {
    const activeCap: nat
    const terminalCap: nat
    const final: Final
    var heap: Heap
    var next: nat
    var states: States
    var lru: seq<string>

    ghost predicate Valid()
      reads this
    {
      && activeCap > 0 && terminalCap > 0
      && GoodHeap(heap, next) && Mapped(states, heap)
      && Bounded(states, heap, lru, activeCap, terminalCap)
    }

    /** Every buffered state is what an honest worker could have reported. */
    ghost predicate Faithful()
      reads this
    {
      AllTruthful(final, heap)
    }

    constructor (activeCap: nat, terminalCap: nat, final: Final)
      requires activeCap > 0 && terminalCap > 0
      ensures Valid() && Faithful() && states == map[] && lru == [] && this.final == final
      ensures this.activeCap == activeCap && this.terminalCap == terminalCap
    {
      this.activeCap, this.terminalCap, this.final := activeCap, terminalCap, final;
      heap, next, states, lru := map[], 0, map[], [];
    }

    /** The state of a request, created if there is room. */
    method Ensure(req: string) returns (r: Option<nat>)
      requires Valid()
      modifies this`heap, this`next, this`states
      ensures Valid() && Grown(old(heap), heap) && (old(Faithful()) ==> Faithful())
      ensures r.Some? ==> req in states && r.value == states[req] && r.value in heap && heap[r.value].req == req
      ensures r.None? <==> req !in old(states) && |old(states)| - |lru| == activeCap
      ensures r.None? || req in old(states) ==> states == old(states) && heap == old(heap)
      ensures r.Some? && req !in old(states) ==>
                && r.value !in old(heap) && heap == old(heap)[r.value := Opened(req)]
                && states == old(states)[req := r.value]
    {
      if req in states { return Some(states[req]); }
      if |states| - |lru| >= activeCap { return None; }
      CreateKeeps(final, heap, next, states, lru, req);
      OneMore(states, req, next);
      heap, states, next := heap[next := Opened(req)], states[req := next], next + 1;
      return Some(states[req]);
    }

    /** Under the state's lock: one cumulative update of an object the caller holds. */
    method UpdateLocked(o: nat, u: Update) returns (r: Result<bool, OutputError>)
      requires Valid() && o in heap
      modifies this`heap
      ensures Valid() && Grown(old(heap), heap) && heap.Keys == old(heap).Keys
      ensures forall q :: q in heap && q != o ==> heap[q] == old(heap)[q]
      ensures r.Err? <==> |u.tokens| >= |old(heap)[o].tokens| && !(old(heap)[o].tokens <= u.tokens)
      ensures r.Err? ==> r.error.PrefixChanged?
      ensures r.Err? || |u.tokens| < |old(heap)[o].tokens| ==> heap == old(heap) && r != Ok(true)
      ensures r.Ok? && |u.tokens| >= |old(heap)[o].tokens| ==>
                && heap[o].tokens == u.tokens
                && heap[o].terminal == (old(heap)[o].terminal || u.terminal)
                && heap[o].error == (if u.error != "" then u.error else old(heap)[o].error)
      ensures r.Ok? && heap[o].tokens != old(heap)[o].tokens ==> r.value
      ensures r.Ok? && heap[o].terminal != old(heap)[o].terminal ==> r.value
      ensures old(Faithful()) && Honest(final, old(heap)[o].req, u) ==> r.Ok? && Faithful()
    {
      var next := Updated(heap[o], u);
      if next.Err? {
        assert Honest(final, heap[o].req, u) && Faithful() ==> false by {
          if Honest(final, heap[o].req, u) && Faithful() { HonestUpdate(final, heap[o], u); }
        }
        return Err(next.error);
      }
      if Honest(final, heap[o].req, u) && Truthful(final, heap[o]) { HonestUpdate(final, heap[o], u); }
      ExtendKeeps(final, heap, this.next, states, lru, o, next.value.0);
      heap := heap[o := next.value.0];
      return Ok(next.value.1);
    }

    /** Under the state's lock: ends a stream with an error; an earlier error and the tokens stay. */
    method FailLocked(o: nat, error: string)
      requires Valid() && o in heap
      modifies this`heap
      ensures Valid() && Grown(old(heap), heap) && heap.Keys == old(heap).Keys
      ensures forall q :: q in heap && q != o ==> heap[q] == old(heap)[q]
      ensures heap[o].tokens == old(heap)[o].tokens && heap[o].req == old(heap)[o].req && heap[o].terminal
      ensures heap[o].error == if old(heap)[o].error != "" then old(heap)[o].error else error
      ensures old(Faithful()) && error != "" ==> Faithful()
    {
      var s := heap[o];
      var ended := OutputState(s.req, s.tokens, true, if s.error != "" then s.error else error);
      ExtendKeeps(final, heap, next, states, lru, o, ended);
      heap := heap[o := ended];
    }

    /** Makes an ended stream evictable, and evicts the oldest ones beyond the cap. */
    method MarkResourceFree(req: string) returns (r: Option<OutputError>)
      requires Valid()
      modifies this`states, this`lru
      ensures Valid()
      ensures r.Some? <==> req in old(states) && old(states)[req] in heap && !heap[old(states)[req]].Ended()
      ensures OnlyEndedLeft(old(states), states, heap)
      ensures r.None? && req in old(states) ==> req in states && req in lru && states[req] == old(states)[req]
      ensures old(Faithful()) ==> Faithful()
    {
      if req !in states { return None; }
      if !heap[states[req]].Ended() { return Some(StillActive); }
      WithoutKeeps(lru, req);
      states, lru := EvictOldest(states, heap, Without(lru, req) + [req], activeCap, terminalCap);
      return None;
    }

    /** Updates, failures, creations and evictions by others, in this order. */
    method Interleave(others: seq<Other>)
      requires Valid() && Faithful()
      modifies this
      ensures Valid() && Faithful() && Grown(old(heap), heap)
      ensures others == [] ==> heap == old(heap) && states == old(states)
    {
      for i := 0 to |others|
        invariant Valid() && Faithful() && Grown(old(heap), heap)
        invariant i == 0 ==> heap == old(heap) && states == old(states)
      {
        ghost var before := heap;
        OtherCall(others[i]);
        GrownOn(old(heap), before, heap);
      }
    }

    /** One call by another task; what the code would refuse or an honest worker would not send does nothing. */
    method OtherCall(c: Other)
      requires Valid() && Faithful()
      modifies this
      ensures Valid() && Faithful() && Grown(old(heap), heap)
    {
      match c {
        case Creates(req) => var _ := Ensure(req);
        case Updates(o, u) => if o in heap && Honest(final, heap[o].req, u) { var _ := UpdateLocked(o, u); }
        case Fails(o, error) => if o in heap && error != "" { FailLocked(o, error); }
        case Frees(req) => var _ := MarkResourceFree(req);
      }
    }

    /** One cumulative update of a request; others may act while it waits for the state's lock. */
    method ApplyCumulative(
      req: string, u: Update, seqNo: int, currentBefore: bool, currentAfter: bool, others: seq<Other>)
      returns (r: Result<bool, OutputError>)
      requires Valid() && Faithful()
      modifies this
      ensures Valid() && Grown(old(heap), heap)
      ensures r.Ok? ==> seqNo == |u.tokens| && currentBefore && currentAfter
      ensures Honest(final, req, u) ==> Faithful() && r != Err(PrefixChanged)
    {
      if !currentBefore { return Err(RequestChanged); }
      var o := Ensure(req);
      if o.None? { return Err(Capacity); }
      if seqNo != |u.tokens| { return Err(BadSequence); }
      ghost var before := heap;
      Interleave(others);
      assert Extends(before[o.value], heap[o.value]);
      GrownOn(old(heap), before, heap);
      if !currentAfter { return Err(RequestChanged); }
      before := heap;
      r := UpdateLocked(o.value, u);
      GrownOn(old(heap), before, heap);
    }

    /** Asks the worker for the cumulative output; an answer for another identity is refused. */
    method RepairOutputGap(req: string, asked: seq<Other>, reply: Option<Reply>, applying: seq<Other>)
      requires Valid() && Faithful()
      modifies this
      ensures Valid() && Faithful() && Grown(old(heap), heap)
    {
      Interleave(asked);
      if reply.Some? && reply.value.sameIdentity && Honest(final, req, reply.value.update) {
        ghost var before := heap;
        var _ := ApplyCumulative(req, reply.value.update, reply.value.seqNo,
                                 reply.value.currentBefore, reply.value.currentAfter, applying);
        GrownOn(old(heap), before, heap);
      }
    }

    /**
     What the reader of a request sees beyond `cursor`, once there is something or
     the stream ended; `o` is the object it waited on.
     */
    method WaitNext(req: string, cursor: nat, others: seq<Other>) returns (r: Option<OutputState>, o: Option<nat>)
      requires Valid() && Faithful()
      modifies this
      ensures Valid() && Faithful() && Grown(old(heap), heap)
      ensures r.Some? ==>
                && r.value.req == req && Truthful(final, r.value) && (|r.value.tokens| > cursor || r.value.Ended())
                && o.Some? && o.value in heap && heap[o.value] == r.value
      ensures others == [] && req in old(states) ==>
                && heap == old(heap) && states == old(states) && o == Some(states[req]) && o.value in heap
                && (r.Some? <==> |heap[o.value].tokens| > cursor || heap[o.value].Ended())
    {
      o := Ensure(req);
      if o.None? { return None, o; }
      ghost var before := heap;
      Interleave(others);
      assert Extends(before[o.value], heap[o.value]);
      GrownOn(old(heap), before, heap);
      var s := heap[o.value];
      r := if |s.tokens| > cursor || s.Ended() then Some(s) else None;
    }

    /**
     The tracker no longer knows the request: the stream is failed, made
     evictable and read as a whole. A state evicted while the lock was awaited is
     replaced by a new, empty one; `None` is an exception.
     */
    method TrackerGone(req: string, others: seq<Other>) returns (r: Option<OutputState>, o: Option<nat>)
      requires Valid() && Faithful()
      modifies this
      ensures Valid() && Faithful() && Grown(old(heap), heap)
      ensures r.Some? ==>
                && r.value.req == req && Truthful(final, r.value) && (r.value.Ended() || r.value.tokens == [])
                && o.Some? && o.value in heap && heap[o.value] == r.value
      ensures others == [] && req in old(states) && old(states)[req] in old(heap) ==>
                && r.Some? && r.value.Ended() && o == Some(old(states)[req])
                && r.value.tokens == old(heap)[old(states)[req]].tokens
    {
      o := Ensure(req);
      if o.None? { return None, o; }
      ghost var before := heap;
      Interleave(others);
      assert Extends(before[o.value], heap[o.value]);
      GrownOn(old(heap), before, heap);
      before := heap;
      FailLocked(o.value, "request_terminated_without_output");
      GrownOn(old(heap), before, heap);
      var refused := MarkResourceFree(req);
      if refused.Some? { return None, o; }
      before := heap;
      o := Ensure(req);
      GrownOn(old(heap), before, heap);
      r := if o.None? then None else Some(heap[o.value]);
    }

    /**
     The stream of one request yields `sent` and then `again`. Whatever updates
     arrive in whatever order, both are prefixes of the worker's final sequence,
     `sent` is all of it if the stream ends with `Stop`, and `again` is empty unless
     the tracker lost the request. Then the buffer is read from its start: nothing
     is repeated if nothing was sent yet, and everything sent is repeated if the
     request still has the state it was last read from (`kept`).
     */
    method Stream(req: string, rounds: seq<Round>)
      returns (sent: seq<int>, again: seq<int>, ending: Ending, ghost kept: bool)
      requires Valid() && Faithful()
      modifies this
      ensures Valid() && Faithful()
      ensures sent <= final(req) && again <= final(req)
      ensures ending.Stop? ==> sent == final(req)
      ensures !ending.TrackerLost? ==> again == []
      ensures sent == [] ==> sent + again <= final(req)
      ensures ending.TrackerLost? && kept ==> sent <= again
      ensures rounds == [Reads([]), Loses([])] && old(Buffered(req)) ==>
                ending.TrackerLost? && sent == again == old(heap[states[req]].tokens)
    {
      sent, again, kept := [], [], false;
      ghost var last: Option<nat> := None;
      ghost var quiet := rounds == [Reads([]), Loses([])] && Buffered(req);
      for n := 0 to |rounds|
        invariant Valid() && Faithful() && sent <= final(req) && again == [] && ReadFrom(sent, last)
        invariant quiet && n <= 1 ==> heap == old(heap) && states == old(states)
        invariant n == 0 ==> sent == []
        invariant quiet && n == 1 ==> sent == old(heap)[old(states)[req]].tokens
        invariant quiet ==> n <= 1
      {
        var end;
        sent, again, end, last, kept := OneRound(req, rounds[n], sent, last);
        if end.Some? { return sent, again, end.value, kept; }
      }
      ending := Open;
    }

    /** The request has a state in the buffer that has not ended. */
    ghost predicate Buffered(req: string)
      reads this
    {
      req in states && states[req] in heap && !heap[states[req]].Ended()
    }

    /** What was sent was read from this object. */
    ghost predicate ReadFrom(sent: seq<int>, last: Option<nat>)
      reads this
    {
      sent != [] ==> last.Some? && last.value in heap && sent <= heap[last.value].tokens
    }

    lemma StillReadFrom(before: Heap, sent: seq<int>, last: Option<nat>)
      requires Grown(before, heap)
      requires sent != [] ==> last.Some? && last.value in before && sent <= before[last.value].tokens
      ensures ReadFrom(sent, last)
    {
      if sent != [] { PrefixOn(sent, before[last.value].tokens, heap[last.value].tokens); }
    }

    /** One turn of the stream. */
    method OneRound(req: string, round: Round, sent0: seq<int>, ghost last0: Option<nat>)
      returns (sent: seq<int>, again: seq<int>, end: Option<Ending>, ghost last: Option<nat>, ghost kept: bool)
      requires Valid() && Faithful() && sent0 <= final(req) && ReadFrom(sent0, last0)
      modifies this
      ensures Valid() && Faithful() && sent <= final(req) && again <= final(req) && ReadFrom(sent, last)
      ensures end == Some(Stop) ==> sent == final(req)
      ensures end != Some(TrackerLost) ==> again == []
      ensures end == Some(TrackerLost) && kept ==> sent <= again
      ensures round == Reads([]) && sent0 == [] && old(Buffered(req)) ==>
                end.None? && heap == old(heap) && states == old(states) && sent == heap[states[req]].tokens
      ensures round == Loses([]) && old(Buffered(req)) ==>
                end == Some(TrackerLost) && sent == sent0 && again == old(heap[states[req]].tokens)
    {
      sent, again, end, last, kept := sent0, [], None, last0, false;
      match round {
        case Loses(others) =>
          var s, o := TrackerGone(req, others);
          StillReadFrom(old(heap), sent, last);
          if s.None? { return sent, again, Some(Raised), last, false; }
          if s.value.Ended() { return sent, s.value.tokens, Some(TrackerLost), last, o == last; }
        case Repairs(asked, reply, applying) =>
          RepairOutputGap(req, asked, reply, applying);
          StillReadFrom(old(heap), sent, last);
        case Reads(others) =>
          var s, o := WaitNext(req, |sent|, others);
          StillReadFrom(old(heap), sent, last);
          if s.Some? {
            sent := Continue(sent, s.value.tokens, final(req));
            if |s.value.tokens| > |sent0| { last := o; }
            end := if s.value.error != "" then Some(Error) else if s.value.terminal then Some(Stop) else None;
          }
      }
    }
  }

  /** A call another task makes while a reader waits. */
  datatype Other = Creates(req: string) | Updates(o: nat, u: Update) | Fails(o: nat, error: string) | Frees(req: string)

  /** The worker's answer to a query, and whether the request was still the same before and after the lock. */
  datatype Reply = Reply(sameIdentity: bool, update: Update, seqNo: int, currentBefore: bool, currentAfter: bool)

  /** One turn of a stream: a wait that may end, a query after a timeout, or a timeout with the tracker gone. */
  datatype Round =
    | Reads(others: seq<Other>)
    | Repairs(asked: seq<Other>, reply: Option<Reply>, applying: seq<Other>)
    | Loses(others: seq<Other>)

  /** One run of the stream: two tokens are sent, the tracker forgets the request, and both are sent again. */
  method TrackerLossRepeatsTokens(req: string) returns (sent: seq<int>, again: seq<int>)
    ensures sent == again == [1, 2] && !(sent + again <= [1, 2])
  {
    var buffer := new GatewayOutputBuffer(1, 1, _ => [1, 2]);
    var o := buffer.Ensure(req);
    var _ := buffer.UpdateLocked(o.value, Update([1, 2], false, ""));
    var ending;
    ghost var kept;
    sent, again, ending, kept := buffer.Stream(req, [Reads([]), Loses([])]);
  }

  /** The tokens past what was already yielded, one by one. */
  method Continue(yielded: seq<int>, tokens: seq<int>, ghost whole: seq<int>) returns (more: seq<int>)
    requires yielded <= whole && tokens <= whole
    ensures more <= whole && yielded <= more
    ensures more == if |tokens| > |yielded| then tokens else yielded
  {
    more := yielded;
    var cursor := |yielded|;
    while cursor < |tokens|
      invariant |yielded| <= cursor && cursor == |more| && (cursor <= |tokens| || cursor == |yielded|)
      invariant more == whole[..cursor]
      invariant cursor > |yielded| ==> more == tokens[..cursor]
    {
      more := more + [tokens[cursor]];
      cursor := cursor + 1;
    }
  }

  datatype Ending = Open | Stop | Error | Raised | TrackerLost

  /** Requests leave the buffer only when their stream has ended; the rest is untouched. */
  ghost predicate OnlyEndedLeft(states: States, states': States, heap: Heap) {
    && (forall q :: q in states' ==> q in states && states'[q] == states[q])
    && (forall q :: q in states && q !in states' ==> states[q] in heap && heap[states[q]].Ended())
  }

  method EvictOldest(states: States, heap: Heap, lru: seq<string>, activeCap: nat, terminalCap: nat)
    returns (states': States, lru': seq<string>)
    requires terminalCap > 0 && lru != [] && Distinct(lru)
    requires AllEnded(lru, states, heap) && |states| - |lru| <= activeCap
    ensures Bounded(states', heap, lru', activeCap, terminalCap) && OnlyEndedLeft(states, states', heap)
    ensures lru[|lru| - 1] in lru' && lru[|lru| - 1] in states'
  {
    states', lru' := states, lru;
    while |lru'| > terminalCap
      invariant lru' != [] && Distinct(lru') && lru'[|lru'| - 1] == lru[|lru| - 1]
      invariant AllEnded(lru', states', heap) && OnlyEndedLeft(states, states', heap)
      invariant |states'| - |lru'| <= activeCap
    {
      EvictOne(states', lru');
      assert forall q :: q in lru'[1..] ==> q in lru';
      states', lru' := states' - {lru'[0]}, lru'[1..];
    }
    assert lru'[|lru'| - 1] in lru';
  }

  lemma EvictOne(states: States, lru: seq<string>)
    requires lru != [] && lru[0] in states && Distinct(lru)
    ensures |states - {lru[0]}| == |states| - 1 && lru[0] !in lru[1..]
  {
    assert states.Keys == (states - {lru[0]}).Keys + {lru[0]};
    assert |states.Keys| == |(states - {lru[0]}).Keys| + 1;
  }
}
