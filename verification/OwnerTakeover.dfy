/**
 A new control owner takes over the workers: list, abort, query, finalize and
 list again under the old owner, then retire it everywhere, then activate the
 new one everywhere. Every reply is arbitrary and every call may fail before or
 after its effect, so what is proved is about the calls sent and replies seen,
 kept in order in a trace.
 */
module OwnerTakeover {
  import opened Wrappers

  datatype Ref = Ref(target: string, owner: string, epoch: string, operation: string, seqNo: int)

  datatype OpState = Prepared | Running | Completed | Fenced | Unknown

  predicate Terminal(s: OpState) { s.Completed? || s.Fenced? }

  datatype Snapshot = Snapshot(ref: Ref, state: OpState, held: bool, kinds: seq<string>)

  /** A reply as it arrived, before any check. */
  datatype RawReport = RawReport(complete: bool, epoch: string, operations: seq<Snapshot>)

  datatype TakeoverError =
    | BadArguments | CallFailed | OwnersDisagree | IdentityIncomplete | ReportRefused | DuplicateRef
    | OperationUnknown | FinalizeFailed | EndpointsChanged | StillHeld | StillActive
    | DeadlineExceeded | ForeignOwner | NotConfirmed

  /** What one worker is asked to release of one operation. */
  datatype FinalizeRequest = FinalizeRequest(
    cleanup: string, operation: string, lease: string, refs: seq<Ref>, kinds: set<string>)

  /** A reply to it; `payload` is what its digest covers. */
  datatype Ack = Ack(
    cleanup: string, operation: string, lease: string, epoch: string, payload: FinalizeRequest,
    heldAfter: bool, kinds: seq<string>, counts: seq<(string, int)>)

  datatype Event =
    | ReadOwner(instance: string, seen: Option<string>)
    | Listed(instance: string, owner: string, operations: seq<Snapshot>)
    | SentAbort(instance: string, ref: Ref)
    | Queried(instance: string, ref: Ref, state: OpState)
    | SentFinalize(instance: string, request: FinalizeRequest)
    | Acknowledged(instance: string, request: FinalizeRequest, ack: Ack)
    | SentRetire(instance: string, owner: string)
    | SentActivate(instance: string, owner: string)

  type Trace = seq<Event>

  function RefsOf(ops: seq<Snapshot>): set<Ref> { set i | 0 <= i < |ops| :: ops[i].ref }

  predicate Bound(s: Snapshot, instance: string, owner: string, epoch: string) {
    && s.ref.target == instance && s.ref.owner == owner && s.ref.epoch == epoch && s.ref.operation != ""
    && (forall i, j :: 0 <= i < j < |s.kinds| ==> s.kinds[i] != s.kinds[j])
    && (forall i :: 0 <= i < |s.kinds| ==> s.kinds[i] != "")
    && s.held == (s.kinds != [])
  }

  predicate AllBound(ops: seq<Snapshot>, instance: string, owner: string, epoch: string) {
    forall i :: 0 <= i < |ops| ==> Bound(ops[i], instance, owner, epoch)
  }

  /** A report counts only when complete, of the expected incarnation, and with entries of this owner alone. */
  function ParseReport(raw: RawReport, instance: string, owner: string, epoch: string, cap: Option<int>)
    : (r: Result<seq<Snapshot>, TakeoverError>)
    ensures r.Ok? ==> raw.complete && r.value == raw.operations && AllBound(r.value, instance, owner, epoch)
    ensures r.Ok? && cap.Some? ==> |r.value| <= cap.value
    ensures r.Err? ==> r.error.ReportRefused?
  {
    if !raw.complete || raw.epoch != epoch then Err(ReportRefused)
    else if cap.Some? && |raw.operations| > cap.value then Err(ReportRefused)
    else if !AllBound(raw.operations, instance, owner, epoch) then Err(ReportRefused)
    else Ok(raw.operations)
  }

  /** Earlier in the order of characters, as texts are sorted. */
  predicate Precedes(a: string, b: string) {
    b != [] && (a == [] || a[0] < b[0] || (a[0] == b[0] && Precedes(a[1..], b[1..])))
  }

  /** The sorted list of exactly these kinds. */
  predicate Lists(list: seq<string>, kinds: set<string>) {
    && (set i | 0 <= i < |list| :: list[i]) == kinds
    && forall i, j :: 0 <= i < j < |list| ==> Precedes(list[i], list[j])
  }

  /** The reply is bound to the request and the worker, releases exactly the kinds asked for and leaves nothing held. */
  predicate ValidAck(ack: Ack, instance: string, request: FinalizeRequest, epoch: string) {
    && request.refs != [] && epoch != "" && request.kinds != {}
    && (forall i :: 0 <= i < |request.refs| ==>
          && request.refs[i].target == instance && request.refs[i].epoch == epoch
          && request.refs[i].operation == request.operation)
    && ack.cleanup == request.cleanup && ack.operation == request.operation && ack.lease == request.lease
    && ack.epoch == epoch && ack.payload == request && !ack.heldAfter && Lists(ack.kinds, request.kinds)
    && |ack.counts| == |ack.kinds|
    && (forall i :: 0 <= i < |ack.counts| ==> ack.counts[i].0 == ack.kinds[i] != "" && ack.counts[i].1 >= 0)
  }

  predicate AllSafe(ops: seq<Snapshot>) {
    forall i :: 0 <= i < |ops| ==> Terminal(ops[i].state) && !ops[i].held
  }

  /** Within the first `n` events, two complete reports of a worker: the same refs, and in the second all safe. */
  ghost predicate Cleared(trace: Trace, n: int, instance: string, owner: string) {
    exists a, b :: 0 <= a < b < n <= |trace|
      && IsReport(trace[a], instance, owner) && IsReport(trace[b], instance, owner)
      && RefsOf(trace[a].operations) == RefsOf(trace[b].operations) && AllSafe(trace[b].operations)
  }

  predicate IsReport(e: Event, instance: string, owner: string) {
    e.Listed? && e.instance == instance && e.owner == owner
  }

  /** Within the first `n` events the worker was seen without its old owner. */
  ghost predicate Gone(trace: Trace, n: int, instance: string, owner: string) {
    exists a :: 0 <= a < n <= |trace| && trace[a].ReadOwner? && trace[a].instance == instance
      && trace[a].seen != Some(owner)
  }

  ghost predicate Ended(trace: Trace, n: int, instance: string, ref: Ref) {
    exists a :: 0 <= a < n <= |trace| && trace[a].Queried? && trace[a].instance == instance && trace[a].ref == ref
      && Terminal(trace[a].state)
  }

  type Owners = map<string, string>

  /** A mutation is in order when everything it must wait for is among the events before it. */
  ghost predicate InOrder(trace: Trace, p: nat, prior: Owners, newOwner: string)
    requires p < |trace|
  {
    match trace[p]
    case SentRetire(i, o) =>
      && i in prior && prior[i] == o && p > 0 && trace[p - 1] == ReadOwner(i, Some(o))
      && forall j :: j in prior ==> Cleared(trace, p, j, prior[j])
    case SentActivate(i, o) =>
      && o == newOwner && p > 0 && trace[p - 1] == ReadOwner(i, None)
      && forall j :: j in prior ==> Gone(trace, p, j, prior[j])
    case SentFinalize(i, request) => forall k :: 0 <= k < |request.refs| ==> Ended(trace, p, i, request.refs[k])
    case Acknowledged(i, request, _) => p > 0 && trace[p - 1] == SentFinalize(i, request)
    case _ => true
  }

  predicate EndsWith(trace: Trace, e: Event) { trace != [] && trace[|trace| - 1] == e }

  ghost predicate Ordered(trace: Trace, prior: Owners, newOwner: string) {
    forall p :: 0 <= p < |trace| ==> InOrder(trace, p, prior, newOwner)
  }

  ghost predicate AllCleared(trace: Trace, prior: Owners) {
    forall j :: j in prior ==> Cleared(trace, |trace|, j, prior[j])
  }

  ghost predicate AllGone(trace: Trace, prior: Owners) {
    forall j :: j in prior ==> Gone(trace, |trace|, j, prior[j])
  }

  predicate Mutates(e: Event) { e.SentRetire? || e.SentActivate? }

  /** The last thing known of the worker is that the new owner is active: no owner call follows. */
  ghost predicate Confirmed(trace: Trace, instance: string, owner: string) {
    exists a :: 0 <= a < |trace| && trace[a] == ReadOwner(instance, Some(owner))
      && forall b :: a < b < |trace| ==> !Mutates(trace[b])
  }

  lemma ClearedLasts(trace: Trace, e: Event, n: int, instance: string, owner: string)
    requires n <= |trace| && Cleared(trace, n, instance, owner)
    ensures Cleared(trace + [e], n, instance, owner) && Cleared(trace + [e], |trace| + 1, instance, owner)
  {
    var a, b :| 0 <= a < b < n <= |trace| && IsReport(trace[a], instance, owner) && IsReport(trace[b], instance, owner)
      && RefsOf(trace[a].operations) == RefsOf(trace[b].operations) && AllSafe(trace[b].operations);
    var t := trace + [e];
    assert t[a] == trace[a] && t[b] == trace[b];
  }

  lemma GoneLasts(trace: Trace, e: Event, n: int, instance: string, owner: string)
    requires n <= |trace| && Gone(trace, n, instance, owner)
    ensures Gone(trace + [e], n, instance, owner) && Gone(trace + [e], |trace| + 1, instance, owner)
  {
    var a :| 0 <= a < n <= |trace| && trace[a].ReadOwner? && trace[a].instance == instance
      && trace[a].seen != Some(owner);
    assert (trace + [e])[a] == trace[a];
  }

  lemma EndedLasts(trace: Trace, e: Event, n: int, instance: string, ref: Ref)
    requires n <= |trace| && Ended(trace, n, instance, ref)
    ensures Ended(trace + [e], n, instance, ref) && Ended(trace + [e], |trace| + 1, instance, ref)
  {
    var a :| 0 <= a < n <= |trace| && trace[a].Queried? && trace[a].instance == instance && trace[a].ref == ref
      && Terminal(trace[a].state);
    assert (trace + [e])[a] == trace[a];
  }

  /** What must hold before an event may be added. */
  ghost predicate MayAdd(trace: Trace, e: Event, prior: Owners, newOwner: string) {
    match e
    case SentRetire(i, o) =>
      i in prior && prior[i] == o && EndsWith(trace, ReadOwner(i, Some(o))) && AllCleared(trace, prior)
    case SentActivate(i, o) => o == newOwner && EndsWith(trace, ReadOwner(i, None)) && AllGone(trace, prior)
    case SentFinalize(i, request) => forall k :: 0 <= k < |request.refs| ==> Ended(trace, |trace|, i, request.refs[k])
    case Acknowledged(i, request, _) => EndsWith(trace, SentFinalize(i, request))
    case _ => true
  }

  lemma PositionStays(trace: Trace, e: Event, prior: Owners, newOwner: string, p: nat)
    requires p < |trace| && InOrder(trace, p, prior, newOwner)
    ensures InOrder(trace + [e], p, prior, newOwner)
  {
    assert (trace + [e])[p] == trace[p] && (p > 0 ==> (trace + [e])[p - 1] == trace[p - 1]);
    match trace[p]
    case SentRetire(i, o) =>
      forall j | j in prior ensures Cleared(trace + [e], p, j, prior[j]) { ClearedLasts(trace, e, p, j, prior[j]); }
    case SentActivate(_, _) =>
      forall j | j in prior ensures Gone(trace + [e], p, j, prior[j]) { GoneLasts(trace, e, p, j, prior[j]); }
    case SentFinalize(i, request) =>
      forall k | 0 <= k < |request.refs| ensures Ended(trace + [e], p, i, request.refs[k]) {
        EndedLasts(trace, e, p, i, request.refs[k]);
      }
    case _ =>
  }

  lemma LastIsInOrder(trace: Trace, e: Event, prior: Owners, newOwner: string)
    requires MayAdd(trace, e, prior, newOwner)
    ensures InOrder(trace + [e], |trace|, prior, newOwner)
  {
    assert (trace + [e])[|trace|] == e && (trace != [] ==> (trace + [e])[|trace| - 1] == trace[|trace| - 1]);
    var n := |trace|;
    match e
    case SentRetire(i, o) =>
      forall j | j in prior ensures Cleared(trace + [e], n, j, prior[j]) { ClearedLasts(trace, e, n, j, prior[j]); }
    case SentActivate(_, _) =>
      forall j | j in prior ensures Gone(trace + [e], n, j, prior[j]) { GoneLasts(trace, e, n, j, prior[j]); }
    case SentFinalize(i, request) =>
      forall k | 0 <= k < |request.refs| ensures Ended(trace + [e], n, i, request.refs[k]) {
        EndedLasts(trace, e, n, i, request.refs[k]);
      }
    case _ =>
  }

  /** Adding an event that was waited for keeps the order and what was established. */
  lemma AddKeeps(trace: Trace, e: Event, prior: Owners, newOwner: string)
    requires Ordered(trace, prior, newOwner) && MayAdd(trace, e, prior, newOwner)
    ensures Ordered(trace + [e], prior, newOwner)
    ensures AllCleared(trace, prior) ==> AllCleared(trace + [e], prior)
    ensures AllGone(trace, prior) ==> AllGone(trace + [e], prior)
  {
    forall p | 0 <= p < |trace + [e]| ensures InOrder(trace + [e], p, prior, newOwner) {
      if p < |trace| { PositionStays(trace, e, prior, newOwner, p); } else { LastIsInOrder(trace, e, prior, newOwner); }
    }
    EstablishedLasts(trace, e, prior);
  }

  lemma EstablishedLasts(trace: Trace, e: Event, prior: Owners)
    ensures AllCleared(trace, prior) ==> AllCleared(trace + [e], prior)
    ensures AllGone(trace, prior) ==> AllGone(trace + [e], prior)
  {
    if AllCleared(trace, prior) {
      forall j | j in prior ensures Cleared(trace + [e], |trace + [e]|, j, prior[j]) {
        ClearedLasts(trace, e, |trace|, j, prior[j]);
      }
    }
    if AllGone(trace, prior) {
      forall j | j in prior ensures Gone(trace + [e], |trace + [e]|, j, prior[j]) {
        GoneLasts(trace, e, |trace|, j, prior[j]);
      }
    }
  }

  /** The prior owners are those the first round of reads showed, other than the new owner. */
  ghost predicate PriorAsRead(trace: Trace, instances: seq<string>, newOwner: string, prior: Owners) {
    && |instances| <= |trace|
    && (forall k :: 0 <= k < |instances| ==>
          && trace[k].ReadOwner? && trace[k].instance == instances[k]
          && PriorOf(instances[k], prior) == if trace[k].seen == Some(newOwner) then None else trace[k].seen)
  }

  ghost function PriorOf(instance: string, prior: Owners): Option<string> {
    if instance in prior then Some(prior[instance]) else None
  }

  // The phases. Each takes the trace so far and returns it extended.

  /** Owner status as first read, and the workers still under another owner. */
  method ReadStatuses(instances: seq<string>, newOwner: string)
    returns (r: Option<TakeoverError>, trace: Trace, prior: Owners)
    requires forall i, j :: 0 <= i < j < |instances| ==> instances[i] != instances[j]
    ensures r.None? ==> PriorAsRead(trace, instances, newOwner, prior)
    ensures forall p :: 0 <= p < |trace| ==> trace[p].ReadOwner?
    ensures forall i :: i in prior ==> i in instances && prior[i] != newOwner
    ensures r.None? ==> forall i, j :: i in prior && j in prior ==> prior[i] == prior[j]
  {
    trace, prior := [], map[];
    for n := 0 to |instances|
      invariant |trace| == n && forall p :: 0 <= p < |trace| ==> trace[p].ReadOwner?
      invariant forall i :: i in prior ==> i in instances[..n] && prior[i] != newOwner
      invariant PriorAsRead(trace, instances[..n], newOwner, prior)
    {
      var failed: bool, owner: Option<string> := *, *;
      if failed { return Some(CallFailed), trace, prior; }
      trace := trace + [ReadOwner(instances[n], owner)];
      if owner.Some? && owner.value != newOwner { prior := prior[instances[n] := owner.value]; }
    }
    assert instances[..|instances|] == instances;
    if exists i, j :: i in prior && j in prior && prior[i] != prior[j] { return Some(OwnersDisagree), trace, prior; }
    r := None;
  }

  method ReadIdentities(workers: seq<string>) returns (r: Option<TakeoverError>, epochs: map<string, string>)
    ensures r.None? ==> forall i :: i in workers ==> i in epochs && epochs[i] != ""
  {
    epochs := map[];
    for n := 0 to |workers|
      invariant forall k :: 0 <= k < n ==> workers[k] in epochs && epochs[workers[k]] != ""
    {
      var failed: bool, instance: string, epoch: string := *, *, *;
      if failed { return Some(CallFailed), epochs; }
      if instance != workers[n] || epoch == "" { return Some(IdentityIncomplete), epochs; }
      epochs := epochs[workers[n] := epoch];
    }
    r := None;
  }

  /** One complete report of one worker under its prior owner. */
  method ListOperations(
    instance: string, owner: string, epoch: string, cap: Option<int>, trace: Trace, ghost prior: Owners,
    ghost newOwner: string)
    returns (r: Result<seq<Snapshot>, TakeoverError>, trace': Trace)
    requires Ordered(trace, prior, newOwner)
    ensures Ordered(trace', prior, newOwner) && trace <= trace'
    ensures r.Ok? ==> trace' == trace + [Listed(instance, owner, r.value)] && AllBound(r.value, instance, owner, epoch)
    ensures r.Ok? && cap.Some? ==> |r.value| <= cap.value
  {
    var failed: bool, raw: RawReport := *, *;
    if failed { return Err(CallFailed), trace; }
    r := ParseReport(raw, instance, owner, epoch, cap);
    trace' := trace;
    if r.Ok? {
      AddKeeps(trace, Listed(instance, owner, r.value), prior, newOwner);
      trace' := trace + [Listed(instance, owner, r.value)];
    }
  }

  ghost predicate ReportSeen(trace: Trace, instance: string, owner: string, ops: seq<Snapshot>) {
    Listed(instance, owner, ops) in trace
  }

  /** First complete report of every worker that has a prior owner. */
  method ListAll(workers: seq<string>, epochs: map<string, string>, maxEntries: int, trace: Trace, prior: Owners,
                 ghost newOwner: string)
    returns (r: Option<TakeoverError>, trace': Trace, reports: map<string, seq<Snapshot>>)
    requires Ordered(trace, prior, newOwner) && forall i :: i in workers ==> i in prior && i in epochs
    ensures Ordered(trace', prior, newOwner) && trace <= trace'
    ensures r.None? ==> forall i :: i in workers ==> i in reports && ReportSeen(trace', i, prior[i], reports[i])
  {
    trace', reports := trace, map[];
    var left := maxEntries;
    for n := 0 to |workers|
      invariant Ordered(trace', prior, newOwner) && trace <= trace'
      invariant forall k :: 0 <= k < n ==>
                  workers[k] in reports && ReportSeen(trace', workers[k], prior[workers[k]], reports[workers[k]])
    {
      var i := workers[n];
      var report;
      ghost var before := trace';
      report, trace' := ListOperations(i, prior[i], epochs[i], Some(left), trace', prior, newOwner);
      if report.Err? { return Some(report.error), trace', reports; }
      assert forall e :: e in before ==> e in trace';
      reports, left := reports[i := report.value], left - |report.value|;
    }
    r := None;
  }

  /** Aborts what still runs, then asks for the exact ref; only a terminal answer goes on. */
  method SettleOne(instance: string, listed: Snapshot, owner: string, epoch: string, trace: Trace,
                   ghost prior: Owners, ghost newOwner: string)
    returns (r: Result<Snapshot, TakeoverError>, trace': Trace)
    requires Ordered(trace, prior, newOwner)
    ensures Ordered(trace', prior, newOwner) && trace <= trace'
    ensures r.Ok? ==> r.value.ref == listed.ref && Bound(r.value, instance, owner, epoch)
                      && Ended(trace', |trace'|, instance, listed.ref)
  {
    trace' := trace;
    if !Terminal(listed.state) {
      AddKeeps(trace', SentAbort(instance, listed.ref), prior, newOwner);
      trace' := trace' + [SentAbort(instance, listed.ref)];
    }
    var failed: bool, reply: Snapshot := *, *;
    if failed || reply.ref != listed.ref || !Bound(reply, instance, owner, epoch) || !Terminal(reply.state) {
      return Err(OperationUnknown), trace';
    }
    AddKeeps(trace', Queried(instance, listed.ref, reply.state), prior, newOwner);
    trace' := trace' + [Queried(instance, listed.ref, reply.state)];
    assert trace'[|trace'| - 1].ref == listed.ref;
    r := Ok(reply);
  }

  /** An operation of a worker whose end was read back. */
  datatype Entry = Entry(instance: string, snapshot: Snapshot)

  ghost predicate AllEnded(entries: seq<Entry>, trace: Trace) {
    forall k :: 0 <= k < |entries| ==> Ended(trace, |trace|, entries[k].instance, entries[k].snapshot.ref)
  }

  lemma {:induction false} EndedLastsOn(trace: Trace, trace': Trace, instance: string, ref: Ref)
    requires trace <= trace' && Ended(trace, |trace|, instance, ref)
    ensures Ended(trace', |trace'|, instance, ref)
  {
    var a :| 0 <= a < |trace| && trace[a].Queried? && trace[a].instance == instance && trace[a].ref == ref
      && Terminal(trace[a].state);
    assert trace'[a] == trace[a];
  }

  lemma AllEndedLasts(entries: seq<Entry>, trace: Trace, trace': Trace)
    requires trace <= trace' && AllEnded(entries, trace)
    ensures AllEnded(entries, trace')
  {
    forall k | 0 <= k < |entries| ensures Ended(trace', |trace'|, entries[k].instance, entries[k].snapshot.ref) {
      EndedLastsOn(trace, trace', entries[k].instance, entries[k].snapshot.ref);
    }
  }

  /** All listed operations, or a refusal when a ref is listed twice. */
  method Collect(workers: seq<string>, reports: map<string, seq<Snapshot>>)
    returns (r: Option<TakeoverError>, entries: seq<Entry>)
    requires forall i :: i in workers ==> i in reports
    ensures forall k :: 0 <= k < |entries| ==> entries[k].instance in workers
    ensures r.None? ==> forall i, k :: i in workers && 0 <= k < |reports[i]| ==> Entry(i, reports[i][k]) in entries
    ensures r.None? ==> forall a, b :: 0 <= a < b < |entries| ==> entries[a].snapshot.ref != entries[b].snapshot.ref
  {
    entries := [];
    var seen: set<Ref> := {};
    for n := 0 to |workers|
      invariant forall k :: 0 <= k < |entries| ==> entries[k].instance in workers && entries[k].snapshot.ref in seen
      invariant forall m, k :: 0 <= m < n && 0 <= k < |reports[workers[m]]| ==>
                  Entry(workers[m], reports[workers[m]][k]) in entries
      invariant forall a, b :: 0 <= a < b < |entries| ==> entries[a].snapshot.ref != entries[b].snapshot.ref
    {
      var report := reports[workers[n]];
      for c := 0 to |report|
        invariant forall k :: 0 <= k < |entries| ==> entries[k].instance in workers && entries[k].snapshot.ref in seen
        invariant forall m, k :: 0 <= m < n && 0 <= k < |reports[workers[m]]| ==>
                    Entry(workers[m], reports[workers[m]][k]) in entries
        invariant forall k :: 0 <= k < c ==> Entry(workers[n], report[k]) in entries
        invariant forall a, b :: 0 <= a < b < |entries| ==> entries[a].snapshot.ref != entries[b].snapshot.ref
      {
        if report[c].ref in seen { return Some(DuplicateRef), entries; }
        entries, seen := entries + [Entry(workers[n], report[c])], seen + {report[c].ref};
      }
    }
    r := None;
  }

  method SettleAll(entries: seq<Entry>, epochs: map<string, string>, trace: Trace, prior: Owners,
                   ghost newOwner: string)
    returns (r: Option<TakeoverError>, trace': Trace, settled: seq<Entry>)
    requires Ordered(trace, prior, newOwner)
    requires forall k :: 0 <= k < |entries| ==> entries[k].instance in prior && entries[k].instance in epochs
    ensures Ordered(trace', prior, newOwner) && trace <= trace' && AllEnded(settled, trace')
    ensures r.None? ==> |settled| == |entries| && forall k :: 0 <= k < |entries| ==>
              settled[k].instance == entries[k].instance && settled[k].snapshot.ref == entries[k].snapshot.ref
  {
    trace', settled := trace, [];
    for n := 0 to |entries|
      invariant Ordered(trace', prior, newOwner) && trace <= trace' && AllEnded(settled, trace') && |settled| == n
      invariant forall k :: 0 <= k < n ==>
                  settled[k].instance == entries[k].instance && settled[k].snapshot.ref == entries[k].snapshot.ref
    {
      var i := entries[n].instance;
      var reply;
      ghost var before := trace';
      reply, trace' := SettleOne(i, entries[n].snapshot, prior[i], epochs[i], trace', prior, newOwner);
      AllEndedLasts(settled, before, trace');
      if reply.Err? { return Some(reply.error), trace', settled; }
      settled := settled + [Entry(i, reply.value)];
    }
    r := None;
  }

  /** The refs one operation still holds on one worker. */
  function HeldOn(settled: seq<Entry>, operation: string, instance: string): seq<Ref> {
    if settled == [] then []
    else
      var last := settled[|settled| - 1];
      var before := HeldOn(settled[..|settled| - 1], operation, instance);
      if last.instance == instance && last.snapshot.held && last.snapshot.ref.operation == operation
      then before + [last.snapshot.ref] else before
  }

  lemma {:induction false} HeldHaveEnded(settled: seq<Entry>, operation: string, instance: string, trace: Trace)
    requires AllEnded(settled, trace)
    ensures forall k :: 0 <= k < |HeldOn(settled, operation, instance)| ==>
              Ended(trace, |trace|, instance, HeldOn(settled, operation, instance)[k])
  {
    if settled != [] { HeldHaveEnded(settled[..|settled| - 1], operation, instance, trace); }
  }

  /** The kinds one operation still holds on one worker. */
  function KindsOn(settled: seq<Entry>, operation: string, instance: string): set<string> {
    set k, kind | 0 <= k < |settled| && settled[k].instance == instance && settled[k].snapshot.held
                  && settled[k].snapshot.ref.operation == operation && kind in settled[k].snapshot.kinds :: kind
  }

  function RequestFor(settled: seq<Entry>, operation: string, instance: string, ownerKey: string): FinalizeRequest {
    var id := "orphan:" + ownerKey + ":" + operation;
    FinalizeRequest(id, operation, id, HeldOn(settled, operation, instance), KindsOn(settled, operation, instance))
  }

  /** The worker confirmed that it released exactly what the operation held there. */
  ghost predicate Released(i: string, request: FinalizeRequest, epoch: string, trace: Trace) {
    exists ack :: ValidAck(ack, i, request, epoch) && Acknowledged(i, request, ack) in trace
  }

  /** Every worker where the operation still held something confirmed its release. */
  ghost predicate Finalized(
    settled: seq<Entry>, operation: string, workers: seq<string>, epochs: map<string, string>, ownerKey: string,
    trace: Trace)
  {
    forall i :: i in workers && HeldOn(settled, operation, i) != [] ==>
      i in epochs && Released(i, RequestFor(settled, operation, i, ownerKey), epochs[i], trace)
  }

  lemma ReleasedLasts(i: string, request: FinalizeRequest, epoch: string, trace: Trace, trace': Trace)
    requires trace <= trace' && Released(i, request, epoch, trace)
    ensures Released(i, request, epoch, trace')
  {
    var ack :| ValidAck(ack, i, request, epoch) && Acknowledged(i, request, ack) in trace;
    assert Acknowledged(i, request, ack) in trace';
  }

  lemma FinalizedLasts(
    settled: seq<Entry>, operation: string, workers: seq<string>, epochs: map<string, string>, ownerKey: string,
    trace: Trace, trace': Trace)
    requires trace <= trace' && Finalized(settled, operation, workers, epochs, ownerKey, trace)
    ensures Finalized(settled, operation, workers, epochs, ownerKey, trace')
  {
    forall i | i in workers && HeldOn(settled, operation, i) != []
      ensures i in epochs && Released(i, RequestFor(settled, operation, i, ownerKey), epochs[i], trace')
    {
      ReleasedLasts(i, RequestFor(settled, operation, i, ownerKey), epochs[i], trace, trace');
    }
  }

  /** Releases what ended operations still hold; an operation is done only when every worker confirmed it. */
  method FinalizeAll(
    settled: seq<Entry>, workers: seq<string>, epochs: map<string, string>, ownerKey: string, trace: Trace,
    ghost prior: Owners, ghost newOwner: string)
    returns (r: Option<TakeoverError>, trace': Trace)
    requires Ordered(trace, prior, newOwner) && AllEnded(settled, trace) && forall i :: i in workers ==> i in epochs
    ensures Ordered(trace', prior, newOwner) && trace <= trace'
    ensures r.None? ==> forall k :: 0 <= k < |settled| ==>
              Finalized(settled, settled[k].snapshot.ref.operation, workers, epochs, ownerKey, trace')
  {
    trace' := trace;
    var finalized: set<string> := {};
    for n := 0 to |settled|
      invariant Ordered(trace', prior, newOwner) && trace <= trace'
      invariant forall op :: op in finalized ==> Finalized(settled, op, workers, epochs, ownerKey, trace')
      invariant forall k :: 0 <= k < n ==> settled[k].snapshot.ref.operation in finalized
    {
      var operation := settled[n].snapshot.ref.operation;
      if operation !in finalized {
        ghost var before := trace';
        AllEndedLasts(settled, trace, trace');
        r, trace' := FinalizeRetrying(settled, operation, workers, epochs, ownerKey, trace', prior, newOwner);
        PrefixOfPrefix(trace, before, trace');
        if r.Some? { return; }
        forall op | op in finalized ensures Finalized(settled, op, workers, epochs, ownerKey, trace') {
          FinalizedLasts(settled, op, workers, epochs, ownerKey, before, trace');
        }
        finalized := finalized + {operation};
      }
    }
    r := None;
  }

  /** Up to three attempts; a worker that confirmed once is not asked again. */
  method FinalizeRetrying(
    settled: seq<Entry>, operation: string, workers: seq<string>, epochs: map<string, string>, ownerKey: string,
    trace: Trace, ghost prior: Owners, ghost newOwner: string)
    returns (r: Option<TakeoverError>, trace': Trace)
    requires Ordered(trace, prior, newOwner) && AllEnded(settled, trace) && forall i :: i in workers ==> i in epochs
    ensures Ordered(trace', prior, newOwner) && trace <= trace'
    ensures r.None? ==> Finalized(settled, operation, workers, epochs, ownerKey, trace')
  {
    trace' := trace;
    var acked: set<string> := {};
    for attempt := 0 to 3
      invariant Ordered(trace', prior, newOwner) && trace <= trace'
      invariant AllReleased(acked, settled, operation, epochs, ownerKey, trace')
    {
      var done;
      ghost var before := trace';
      AllEndedLasts(settled, trace, trace');
      done, acked, trace' :=
        FinalizeOperation(settled, operation, workers, epochs, ownerKey, acked, trace', prior, newOwner);
      PrefixOfPrefix(trace, before, trace');
      if done { return None, trace'; }
    }
    r := Some(FinalizeFailed);
  }

  ghost predicate AllReleased(
    acked: set<string>, settled: seq<Entry>, operation: string, epochs: map<string, string>, ownerKey: string,
    trace: Trace)
  {
    forall i :: i in acked ==> i in epochs && Released(i, RequestFor(settled, operation, i, ownerKey), epochs[i], trace)
  }

  lemma AllReleasedLasts(
    acked: set<string>, settled: seq<Entry>, operation: string, epochs: map<string, string>, ownerKey: string,
    trace: Trace, trace': Trace)
    requires trace <= trace' && AllReleased(acked, settled, operation, epochs, ownerKey, trace)
    ensures AllReleased(acked, settled, operation, epochs, ownerKey, trace')
  {
    forall i | i in acked
      ensures i in epochs && Released(i, RequestFor(settled, operation, i, ownerKey), epochs[i], trace')
    {
      ReleasedLasts(i, RequestFor(settled, operation, i, ownerKey), epochs[i], trace, trace');
    }
  }

  /** One attempt over all workers; it stops at the first reply that does not match its request. */
  method FinalizeOperation(
    settled: seq<Entry>, operation: string, workers: seq<string>, epochs: map<string, string>, ownerKey: string,
    acked0: set<string>, trace: Trace, ghost prior: Owners, ghost newOwner: string)
    returns (acknowledged: bool, acked: set<string>, trace': Trace)
    requires Ordered(trace, prior, newOwner) && AllEnded(settled, trace) && forall i :: i in workers ==> i in epochs
    requires AllReleased(acked0, settled, operation, epochs, ownerKey, trace)
    ensures Ordered(trace', prior, newOwner) && trace <= trace'
    ensures AllReleased(acked, settled, operation, epochs, ownerKey, trace')
    ensures acknowledged ==> Finalized(settled, operation, workers, epochs, ownerKey, trace')
  {
    trace', acked := trace, acked0;
    for n := 0 to |workers|
      invariant Ordered(trace', prior, newOwner) && trace <= trace'
      invariant AllReleased(acked, settled, operation, epochs, ownerKey, trace')
      invariant forall k :: 0 <= k < n && HeldOn(settled, operation, workers[k]) != [] ==> workers[k] in acked
    {
      var i := workers[n];
      if HeldOn(settled, operation, i) != [] && i !in acked {
        var request := RequestFor(settled, operation, i, ownerKey);
        ghost var before := trace';
        AllEndedLasts(settled, trace, trace');
        HeldHaveEnded(settled, operation, i, trace');
        var confirmed;
        confirmed, trace' := FinalizeRemote(i, request, epochs[i], trace', prior, newOwner);
        PrefixOfPrefix(trace, before, trace');
        AllReleasedLasts(acked, settled, operation, epochs, ownerKey, before, trace');
        if !confirmed { return false, acked, trace'; }
        acked := acked + {i};
      }
    }
    acknowledged := true;
  }

  /** One finalize call; it counts only with a reply bound to it. */
  method FinalizeRemote(i: string, request: FinalizeRequest, epoch: string, trace: Trace, ghost prior: Owners,
                        ghost newOwner: string)
    returns (confirmed: bool, trace': Trace)
    requires Ordered(trace, prior, newOwner) && MayAdd(trace, SentFinalize(i, request), prior, newOwner)
    ensures Ordered(trace', prior, newOwner) && trace <= trace'
    ensures confirmed ==> Released(i, request, epoch, trace')
  {
    AddKeeps(trace, SentFinalize(i, request), prior, newOwner);
    trace' := trace + [SentFinalize(i, request)];
    var failed: bool, ack: Ack := *, *;
    if failed || !ValidAck(ack, i, request, epoch) { return false, trace'; }
    AddKeeps(trace', Acknowledged(i, request, ack), prior, newOwner);
    trace' := trace' + [Acknowledged(i, request, ack)];
    assert Acknowledged(i, request, ack) in trace';
    confirmed := true;
  }

  /** Second complete report of every worker: the same refs, nothing held, all ended. */
  method VerifyAll(workers: seq<string>, epochs: map<string, string>, reports: map<string, seq<Snapshot>>,
                   trace: Trace, prior: Owners, ghost newOwner: string)
    returns (r: Option<TakeoverError>, trace': Trace)
    requires Ordered(trace, prior, newOwner)
    requires forall i :: i in workers ==>
               i in prior && i in epochs && i in reports && ReportSeen(trace, i, prior[i], reports[i])
    requires forall i :: i in prior ==> i in workers
    ensures Ordered(trace', prior, newOwner) && trace <= trace' && (r.None? ==> AllCleared(trace', prior))
  {
    trace' := trace;
    for n := 0 to |workers|
      invariant Ordered(trace', prior, newOwner) && trace <= trace'
      invariant forall k :: 0 <= k < n ==> Cleared(trace', |trace'|, workers[k], prior[workers[k]])
    {
      var i := workers[n];
      ghost var before := trace';
      var ops;
      ops, trace' := ListOperations(i, prior[i], epochs[i], None, trace', prior, newOwner);
      if ops.Err? { return Some(ops.error), trace'; }
      if RefsOf(ops.value) != RefsOf(reports[i]) { return Some(EndpointsChanged), trace'; }
      if exists k :: 0 <= k < |ops.value| && ops.value[k].held { return Some(StillHeld), trace'; }
      if exists k :: 0 <= k < |ops.value| && !Terminal(ops.value[k].state) { return Some(StillActive), trace'; }
      SecondReportClears(before, i, prior[i], reports[i], ops.value);
      forall k | 0 <= k < n ensures Cleared(trace', |trace'|, workers[k], prior[workers[k]]) {
        ClearedLasts(before, Listed(i, prior[i], ops.value), |before|, workers[k], prior[workers[k]]);
      }
    }
    r := None;
  }

  lemma SecondReportClears(trace: Trace, instance: string, owner: string, first: seq<Snapshot>, second: seq<Snapshot>)
    requires ReportSeen(trace, instance, owner, first) && RefsOf(first) == RefsOf(second) && AllSafe(second)
    ensures Cleared(trace + [Listed(instance, owner, second)], |trace| + 1, instance, owner)
  {
    var t := trace + [Listed(instance, owner, second)];
    var a :| 0 <= a < |trace| && trace[a] == Listed(instance, owner, first);
    assert IsReport(t[a], instance, owner) && IsReport(t[|trace|], instance, owner);
  }

  /** Reads a worker's owner, retrying while the deadline allows. */
  method ReadOwnerRetrying(instance: string, trace: Trace, ghost prior: Owners, ghost newOwner: string)
    returns (r: Result<Option<string>, TakeoverError>, trace': Trace)
    requires Ordered(trace, prior, newOwner)
    ensures Ordered(trace', prior, newOwner) && trace <= trace'
    ensures trace' == if r.Ok? then trace + [ReadOwner(instance, r.value)] else trace
    ensures AllCleared(trace, prior) ==> AllCleared(trace', prior)
    ensures AllGone(trace, prior) ==> AllGone(trace', prior)
  {
    trace' := trace;
    var tries: int := *;
    while tries > 0
      invariant trace' == trace
    {
      var failed: bool, retryable: bool, owner: Option<string> := *, *, *;
      if !failed {
        AddKeeps(trace, ReadOwner(instance, owner), prior, newOwner);
        return Ok(owner), trace + [ReadOwner(instance, owner)];
      }
      if !retryable { return Err(CallFailed), trace; }
      tries := tries - 1;
    }
    r := Err(DeadlineExceeded);
  }

  /** Sends an owner change; a retryable failure is left to the next read. */
  method MutateOwner(e: Event, trace: Trace, ghost prior: Owners, ghost newOwner: string)
    returns (r: Option<TakeoverError>, trace': Trace)
    requires Ordered(trace, prior, newOwner) && MayAdd(trace, e, prior, newOwner)
    ensures Ordered(trace', prior, newOwner) && trace <= trace' <= trace + [e]
    ensures AllCleared(trace, prior) ==> AllCleared(trace', prior)
    ensures AllGone(trace, prior) ==> AllGone(trace', prior)
  {
    var inTime: bool, fatal: bool, inTimeAfter: bool := *, *, *;
    if !inTime { return Some(DeadlineExceeded), trace; }
    AddKeeps(trace, e, prior, newOwner);
    trace' := trace + [e];
    if fatal { return Some(CallFailed), trace'; }
    r := if inTimeAfter then None else Some(DeadlineExceeded);
  }

  /** Retires the prior owner everywhere; done with a worker only when it was read without that owner. */
  method RetireAll(workers: seq<string>, newOwner: string, trace: Trace, prior: Owners)
    returns (r: Option<TakeoverError>, trace': Trace)
    requires Ordered(trace, prior, newOwner) && AllCleared(trace, prior)
    requires forall i :: i in workers ==> i in prior && prior[i] != newOwner
    requires forall i :: i in prior ==> i in workers
    ensures Ordered(trace', prior, newOwner) && AllCleared(trace', prior) && trace <= trace'
    ensures r.None? ==> AllGone(trace', prior)
  {
    trace' := trace;
    for n := 0 to |workers|
      invariant Ordered(trace', prior, newOwner) && AllCleared(trace', prior) && trace <= trace'
      invariant GoneSoFar(trace', workers, n, prior)
    {
      ghost var before := trace';
      r, trace' := RetireOne(workers[n], newOwner, trace', prior);
      PrefixOfPrefix(trace, before, trace');
      if r.Some? { return; }
      GoneNext(before, trace', workers, n, prior);
    }
    r := None;
  }

  ghost predicate GoneSoFar(trace: Trace, workers: seq<string>, n: nat, prior: Owners) {
    forall k :: 0 <= k < n <= |workers| && workers[k] in prior ==> Gone(trace, |trace|, workers[k], prior[workers[k]])
  }

  lemma GoneNext(trace: Trace, trace': Trace, workers: seq<string>, n: nat, prior: Owners)
    requires trace <= trace' && GoneSoFar(trace, workers, n, prior)
    requires n < |workers| && workers[n] in prior && Gone(trace', |trace'|, workers[n], prior[workers[n]])
    ensures GoneSoFar(trace', workers, n + 1, prior)
  {
    forall k | 0 <= k < n && workers[k] in prior ensures Gone(trace', |trace'|, workers[k], prior[workers[k]]) {
      GoneLastsOn(trace, trace', workers[k], prior[workers[k]]);
    }
  }

  lemma GoneLastsOn(trace: Trace, trace': Trace, instance: string, owner: string)
    requires trace <= trace' && Gone(trace, |trace|, instance, owner)
    ensures Gone(trace', |trace'|, instance, owner)
  {
    var a :| 0 <= a < |trace| && trace[a].ReadOwner? && trace[a].instance == instance && trace[a].seen != Some(owner);
    assert trace'[a] == trace[a];
  }

  lemma PrefixOfPrefix(a: Trace, b: Trace, c: Trace)
    requires a <= b <= c
    ensures a <= c
  {
  }

  lemma ReadShowsGone(trace: Trace, instance: string, seen: Option<string>, owner: string)
    requires seen != Some(owner)
    ensures Gone(trace + [ReadOwner(instance, seen)], |trace| + 1, instance, owner)
  {
    assert (trace + [ReadOwner(instance, seen)])[|trace|].seen == seen;
  }

  method RetireOne(i: string, newOwner: string, trace: Trace, prior: Owners)
    returns (r: Option<TakeoverError>, trace': Trace)
    requires Ordered(trace, prior, newOwner) && AllCleared(trace, prior) && i in prior && prior[i] != newOwner
    ensures Ordered(trace', prior, newOwner) && AllCleared(trace', prior) && trace <= trace'
    ensures r.None? ==> Gone(trace', |trace'|, i, prior[i])
  {
    trace' := trace;
    var rounds: int := *;
    while rounds > 0
      invariant Ordered(trace', prior, newOwner) && AllCleared(trace', prior) && trace <= trace'
    {
      var gone;
      ghost var before := trace';
      r, gone, trace' := RetireRound(i, newOwner, trace', prior);
      PrefixOfPrefix(trace, before, trace');
      if r.Some? || gone { return; }
      rounds := rounds - 1;
    }
    r := Some(DeadlineExceeded);
  }

  /** One read of the owner, and one retire if it is still the prior one. */
  method RetireRound(i: string, newOwner: string, trace: Trace, prior: Owners)
    returns (r: Option<TakeoverError>, gone: bool, trace': Trace)
    requires Ordered(trace, prior, newOwner) && AllCleared(trace, prior) && i in prior && prior[i] != newOwner
    ensures Ordered(trace', prior, newOwner) && AllCleared(trace', prior) && trace <= trace'
    ensures gone ==> r.None? && Gone(trace', |trace'|, i, prior[i])
  {
    var seen;
    seen, trace' := ReadOwnerRetrying(i, trace, prior, newOwner);
    if seen.Err? { return Some(seen.error), false, trace'; }
    if seen.value == None || seen.value == Some(newOwner) {
      ReadShowsGone(trace, i, seen.value, prior[i]);
      return None, true, trace';
    }
    if seen.value != Some(prior[i]) { return Some(ForeignOwner), false, trace'; }
    ghost var before := trace';
    r, trace' := MutateOwner(SentRetire(i, prior[i]), trace', prior, newOwner);
    PrefixOfPrefix(trace, before, trace');
    gone := false;
  }

  /** Activates the new owner everywhere, closing any late prior owner first. */
  method ActivateAll(instances: seq<string>, newOwner: string, trace: Trace, prior: Owners)
    returns (r: Option<TakeoverError>, trace': Trace)
    requires Ordered(trace, prior, newOwner) && AllCleared(trace, prior) && AllGone(trace, prior)
    ensures Ordered(trace', prior, newOwner) && trace <= trace'
  {
    trace' := trace;
    for n := 0 to |instances|
      invariant Ordered(trace', prior, newOwner) && trace <= trace'
      invariant AllCleared(trace', prior) && AllGone(trace', prior)
    {
      ghost var before := trace';
      r, trace' := ActivateOne(instances[n], newOwner, trace', prior);
      PrefixOfPrefix(trace, before, trace');
      if r.Some? { return; }
    }
    r := None;
  }

  method ActivateOne(i: string, newOwner: string, trace: Trace, prior: Owners)
    returns (r: Option<TakeoverError>, trace': Trace)
    requires Ordered(trace, prior, newOwner) && AllCleared(trace, prior) && AllGone(trace, prior)
    ensures Ordered(trace', prior, newOwner) && AllCleared(trace', prior) && AllGone(trace', prior) && trace <= trace'
    ensures r.None? ==> |trace'| > 0 && trace'[|trace'| - 1] == ReadOwner(i, Some(newOwner))
  {
    trace' := trace;
    var rounds: int := *;
    while rounds > 0
      invariant Ordered(trace', prior, newOwner) && trace <= trace'
      invariant AllCleared(trace', prior) && AllGone(trace', prior)
    {
      var seen;
      ghost var before := trace';
      seen, trace' := ReadOwnerRetrying(i, trace', prior, newOwner);
      PrefixOfPrefix(trace, before, trace');
      before := trace';
      if seen.Err? { return Some(seen.error), trace'; }
      if seen.value == Some(newOwner) { return None, trace'; }
      if seen.value == None {
        r, trace' := MutateOwner(SentActivate(i, newOwner), trace', prior, newOwner);
      } else if i in prior && seen.value == Some(prior[i]) {
        r, trace' := MutateOwner(SentRetire(i, prior[i]), trace', prior, newOwner);
      } else {
        return Some(ForeignOwner), trace';
      }
      PrefixOfPrefix(trace, before, trace');
      if r.Some? { return; }
      rounds := rounds - 1;
    }
    r := Some(DeadlineExceeded);
  }

  /** Reads every worker back; no owner call is sent from here on. */
  method ConfirmAll(instances: seq<string>, newOwner: string, trace: Trace, ghost prior: Owners)
    returns (r: Option<TakeoverError>, trace': Trace)
    requires Ordered(trace, prior, newOwner)
    ensures Ordered(trace', prior, newOwner) && trace <= trace'
    ensures r.None? ==> forall i :: i in instances ==> Confirmed(trace', i, newOwner)
  {
    trace' := trace;
    var wrong := false;
    for n := 0 to |instances|
      invariant Ordered(trace', prior, newOwner) && trace <= trace' && |trace'| == |trace| + n
      invariant forall b :: |trace| <= b < |trace'| ==> trace'[b].ReadOwner?
      invariant !wrong ==> forall k :: 0 <= k < n ==> trace'[|trace| + k] == ReadOwner(instances[k], Some(newOwner))
    {
      var seen;
      seen, trace' := ReadOwnerRetrying(instances[n], trace', prior, newOwner);
      if seen.Err? { return Some(seen.error), trace'; }
      if seen.value != Some(newOwner) { wrong := true; }
    }
    if wrong { return Some(NotConfirmed), trace'; }
    forall i | i in instances ensures Confirmed(trace', i, newOwner) {
      var k :| 0 <= k < |instances| && instances[k] == i;
      assert trace'[|trace| + k] == ReadOwner(i, Some(newOwner));
    }
    r := None;
  }

  /**
   The takeover. Whatever the replies: no retire before every prior worker's
   second complete report was safe, no activate before every prior worker was
   seen without its prior owner, no finalize before the exact query was
   terminal; and success means every worker was last read with the new owner.
   */
  method ActivateReplacementOwner(instances: seq<string>, newOwner: string, maxAuditEntries: int)
    returns (r: Option<TakeoverError>, trace: Trace, prior: Owners)
    ensures Ordered(trace, prior, newOwner)
    ensures (forall e :: e in trace ==> !Mutates(e)) || PriorAsRead(trace, instances, newOwner, prior)
    ensures r.None? ==> instances != [] && forall i :: i in instances ==> Confirmed(trace, i, newOwner)
  {
    trace, prior := [], map[];
    if instances == [] || maxAuditEntries <= 0
       || (exists i, j :: 0 <= i < j < |instances| && instances[i] == instances[j]) {
      return Some(BadArguments), trace, prior;
    }
    r, trace, prior := ReadStatuses(instances, newOwner);
    assert Ordered(trace, prior, newOwner);
    if r.Some? { return; }
    ghost var first := trace;
    var workers := WorkersOf(instances, prior);
    var epochs;
    r, epochs := ReadIdentities(workers);
    if r.Some? { return; }
    r, trace := ReplaceOwner(workers, instances, epochs, newOwner, maxAuditEntries, trace, prior);
    PriorReadLasts(first, trace, instances, newOwner, prior);
  }

  lemma PriorReadLasts(trace: Trace, trace': Trace, instances: seq<string>, newOwner: string, prior: Owners)
    requires trace <= trace' && PriorAsRead(trace, instances, newOwner, prior)
    ensures PriorAsRead(trace', instances, newOwner, prior)
  {
    assert forall k :: 0 <= k < |instances| ==> trace'[k] == trace[k];
  }

  method ReplaceOwner(workers: seq<string>, instances: seq<string>, epochs: map<string, string>, newOwner: string,
                      maxAuditEntries: int, trace: Trace, prior: Owners)
    returns (r: Option<TakeoverError>, trace': Trace)
    requires Ordered(trace, prior, newOwner) && forall i :: i in workers ==> i in epochs
    requires forall i :: i in workers <==> i in prior
    requires forall i :: i in prior ==> prior[i] != newOwner
    ensures Ordered(trace', prior, newOwner) && trace <= trace'
    ensures r.None? ==> forall i :: i in instances ==> Confirmed(trace', i, newOwner)
  {
    var reports;
    r, trace', reports := ListAll(workers, epochs, maxAuditEntries, trace, prior, newOwner);
    if r.Some? { return; }
    ghost var listed := trace';
    r, trace' := Settle(workers, epochs, reports, trace', prior, newOwner);
    PrefixOfPrefix(trace, listed, trace');
    if r.Some? { return; }
    forall i | i in workers ensures ReportSeen(trace', i, prior[i], reports[i]) {
      assert ReportSeen(listed, i, prior[i], reports[i]);
    }
    ghost var before := trace';
    r, trace' := VerifyAll(workers, epochs, reports, trace', prior, newOwner);
    PrefixOfPrefix(trace, before, trace');
    if r.Some? { return; }
    before := trace';
    r, trace' := RetireAll(workers, newOwner, trace', prior);
    PrefixOfPrefix(trace, before, trace');
    if r.Some? { return; }
    before := trace';
    r, trace' := ActivateAll(instances, newOwner, trace', prior);
    PrefixOfPrefix(trace, before, trace');
    if r.Some? { return; }
    before := trace';
    r, trace' := ConfirmAll(instances, newOwner, trace', prior);
    PrefixOfPrefix(trace, before, trace');
  }

  method Settle(workers: seq<string>, epochs: map<string, string>, reports: map<string, seq<Snapshot>>,
                trace: Trace, prior: Owners, ghost newOwner: string)
    returns (r: Option<TakeoverError>, trace': Trace)
    requires Ordered(trace, prior, newOwner) && forall i :: i in workers ==> i in prior && i in epochs && i in reports
    ensures Ordered(trace', prior, newOwner) && trace <= trace'
  {
    trace' := trace;
    var entries, settled;
    r, entries := Collect(workers, reports);
    if r.Some? { return; }
    r, trace', settled := SettleAll(entries, epochs, trace', prior, newOwner);
    if r.Some? { return; }
    var ownerKey := if workers == [] then "none" else prior[workers[0]];
    r, trace' := FinalizeAll(settled, workers, epochs, ownerKey, trace', prior, newOwner);
  }

  method WorkersOf(instances: seq<string>, prior: Owners) returns (workers: seq<string>)
    requires forall i :: i in prior ==> i in instances
    ensures forall i :: i in workers <==> i in prior
  {
    workers := [];
    for n := 0 to |instances|
      invariant forall i :: i in workers <==> i in prior && i in instances[..n]
    {
      if instances[n] in prior { workers := workers + [instances[n]]; }
    }
    assert instances[..|instances|] == instances;
  }
}
