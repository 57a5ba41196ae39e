/**
 Proving that one captured container is gone, from a watch on its Pod. Raw
 events are journalled before they are looked at; the first termination seen in
 a MODIFIED event is frozen, later views must agree with it, and the DELETED
 event completes it.
 */
module Termination {
  import opened Wrappers

  /** The four workers of a world. */
  datatype Member = P0 | P1 | D0 | D1

  /** One captured worker process. */
  datatype Identity = Identity(
    member: Member, podUid: string, nodeUid: string, nodeName: string, containerId: string, containerName: string,
    processGeneration: string, topologyGeneration: string, resourceVersion: string, restartCount: nat)

  datatype Kind = Added | Modified | Deleted | ErrorEvent

  /** A terminated state as Kubernetes shows it; `exit` is absent when there is none. */
  datatype TerminatedState = TerminatedState(
    containerId: string, exit: Option<int>, signal: Option<int>, reason: string, message: string,
    startedAt: string, finishedAt: string)

  /** A Pod event: the container's current state and its last one. `pod` is the digest of the Pod object. */
  datatype Event = Event(
    kind: Kind, podUid: string, nodeName: string, resourceVersion: string, restartCount: Option<int>,
    currentContainer: string, current: TerminatedState, last: TerminatedState, pod: string)

  datatype Source = InState | InLastState

  /** The captured process a proof is about, and where its watch began. */
  datatype Subject = Subject(
    member: Member, podUid: string, nodeUid: string, containerId: string, containerName: string,
    processGeneration: string, topologyGeneration: string, watchStart: string, restartBefore: int)

  datatype Ended = Ended(
    exitCode: int, signal: Option<int>, reason: string, message: string, startedAt: string, finishedAt: string)

  /** How the end showed in an event. */
  datatype View = View(source: Source, restarts: int, adjacent: Option<string>)

  datatype Deletion = Deletion(version: string, pod: string, sequence: nat)

  datatype Proof = Proof(
    of: Subject, ended: Ended, view: View, observedVersion: string, eventKind: Kind,
    pod: Option<string>, sequence: Option<nat>, deletion: Option<Deletion>)
  {
    predicate Deleted() { deletion.Some? }
  }

  datatype WatchError =
    | WatchLost | Ambiguous | BadRestartCount | NotBound | NoAdjacent | WatchErrorEvent | NoVersion | PodDrifted
    | NodeDrifted | ContainerDrifted | ProofChanged | NotModified | NotJournalled | DeletedUnproven | NotLinked
    | TimedOut

  function Shows(t: TerminatedState, e: Identity): bool { t.containerId == e.containerId && t.exit.Some? }

  function ObservedRestarts(e: Event, x: Identity, inLast: bool): int {
    if e.restartCount.Some? then e.restartCount.value else x.restartCount + (if inLast then 1 else 0)
  }

  function SubjectOf(x: Identity): Subject {
    Subject(x.member, x.podUid, x.nodeUid, x.containerId, x.containerName, x.processGeneration,
            x.topologyGeneration, x.resourceVersion, x.restartCount)
  }

  function FromState(t: TerminatedState, e: Event, x: Identity, view: View): Proof
    requires t.exit.Some?
  {
    Proof(SubjectOf(x), Ended(t.exit.value, t.signal, t.reason, t.message, t.startedAt, t.finishedAt), view,
          e.resourceVersion, e.kind, None, None, None)
  }

  /** The termination of the captured container that an event shows, if any. */
  function EventTermination(e: Event, x: Identity): Result<Option<Proof>, WatchError> {
    var inState, inLast := Shows(e.current, x), Shows(e.last, x);
    if inState && inLast then Err(Ambiguous)
    else if !inState && !inLast then Ok(None)
    else
      var restarts := ObservedRestarts(e, x, inLast);
      if restarts < 0 then Err(BadRestartCount)
      else if inState then
        if e.currentContainer != x.containerId then Err(NotBound)
        else if restarts != x.restartCount then Err(BadRestartCount)
        else Ok(Some(FromState(e.current, e, x, View(InState, restarts, None))))
      else
        if restarts != x.restartCount + 1 then Err(BadRestartCount)
        else if e.currentContainer == "" || e.currentContainer == x.containerId then Err(NoAdjacent)
        else Ok(Some(FromState(e.last, e, x, View(InLastState, restarts, Some(e.currentContainer)))))
  }

  /** The rule that ties where a termination was seen to the restart count and the container now running. */
  predicate SourceRule(p: Proof) {
    match p.view.source
    case InState => p.view.restarts == p.of.restartBefore && p.view.adjacent.None?
    case InLastState => p.view.restarts == p.of.restartBefore + 1 && p.view.adjacent.Some?
                        && p.view.adjacent.value != "" && p.view.adjacent.value != p.of.containerId
  }

  predicate BindsIdentity(p: Proof, x: Identity) { p.of == SubjectOf(x) }

  /** Whatever an event shows is of the captured container and obeys the rule. */
  lemma ShownIsBound(e: Event, x: Identity)
    requires EventTermination(e, x).Ok? && EventTermination(e, x).value.Some?
    ensures var p := EventTermination(e, x).value.value;
            && BindsIdentity(p, x) && SourceRule(p) && !p.Deleted()
            && p.eventKind == e.kind && p.observedVersion == e.resourceVersion
  {
  }

  /** The container was restarted after the frozen view: the same end, now as the last state. */
  predicate AdvancedToLast(candidate: Proof, frozen: Proof) {
    && frozen.view == View(InState, frozen.of.restartBefore, None)
    && candidate.view.source.InLastState? && candidate.view.restarts == frozen.of.restartBefore + 1
    && candidate.view.adjacent.Some? && candidate.view.adjacent.value != frozen.of.containerId
  }

  /** The same end of the same container, seen in another event. */
  predicate SameEnd(a: Proof, b: Proof) { a.of == b.of && a.ended == b.ended }

  predicate MatchesFrozen(candidate: Proof, frozen: Proof) {
    if candidate.view != frozen.view && !AdvancedToLast(candidate, frozen) then false
    else
      candidate.(observedVersion := frozen.observedVersion, view := frozen.view, eventKind := frozen.eventKind,
                 pod := frozen.pod, sequence := frozen.sequence) == frozen
  }

  predicate AgreesWith(candidate: Proof, frozen: Proof) {
    SameEnd(candidate, frozen) && (candidate.view == frozen.view || AdvancedToLast(candidate, frozen))
  }

  /** A later view of an undeleted proof agrees exactly when it is the same end in the same or the advanced view. */
  lemma AgreesIff(candidate: Proof, frozen: Proof)
    requires !candidate.Deleted() && !frozen.Deleted()
    ensures MatchesFrozen(candidate, frozen) <==> AgreesWith(candidate, frozen)
  {
  }

  /** One line of the run's journal: a raw event, an observation, or the verdict on one. */
  datatype JournalEntry = RawEvent(event: Event) | Observed(proof: Proof) | Verdict(proof: Proof, pass: bool)

  type Journal = seq<JournalEntry>

  /** The raw event journalled under this number. */
  predicate Entry(j: Journal, n: nat, e: Event) { 1 <= n <= |j| && j[n - 1] == RawEvent(e) }

  /** What an event shows once it was journalled as entry `n`. */
  predicate FrozenFrom(p: Proof, e: Event, n: nat, x: Identity) {
    && e.kind.Modified? && e.podUid == x.podUid
    && EventTermination(e, x).Ok? && EventTermination(e, x).value.Some?
    && p == EventTermination(e, x).value.value.(pod := Some(e.pod), sequence := Some(n))
  }

  /** Frozen from a journalled MODIFIED event, or from one that never was journalled. */
  ghost predicate Frozen(p: Proof, j: Journal, x: Identity) {
    && BindsIdentity(p, x) && SourceRule(p) && p.eventKind.Modified? && !p.Deleted()
    && (p.sequence.Some? ==> exists e :: Entry(j, p.sequence.value, e) && FrozenFrom(p, e, p.sequence.value, x))
  }

  lemma FrozenLasts(p: Proof, j: Journal, e: JournalEntry, x: Identity)
    requires Frozen(p, j, x)
    ensures Frozen(p, j + [e], x)
  {
    if p.sequence.Some? {
      var f :| Entry(j, p.sequence.value, f) && FrozenFrom(p, f, p.sequence.value, x);
      assert Entry(j + [e], p.sequence.value, f);
    }
  }

  /** One proof made of two journalled events, the end strictly before the deletion. */
  ghost predicate Linked(p: Proof, j: Journal, x: Identity) {
    && p.sequence.Some? && p.Deleted() && p.sequence.value < p.deletion.value.sequence
    && BindsIdentity(p, x) && SourceRule(p) && p.eventKind.Modified?
    && exists m, d :: Entry(j, p.sequence.value, m) && Entry(j, p.deletion.value.sequence, d) && Completes(p, m, d, x)
  }

  /** Nothing appended to the journal unlinks a proof. */
  lemma LinkedLasts(p: Proof, j: Journal, j': Journal, x: Identity)
    requires Linked(p, j, x) && j <= j'
    ensures Linked(p, j', x)
  {
    var m, d :| Entry(j, p.sequence.value, m) && Entry(j, p.deletion.value.sequence, d) && Completes(p, m, d, x);
    assert Entry(j', p.sequence.value, m) && Entry(j', p.deletion.value.sequence, d);
  }

  predicate Completes(p: Proof, m: Event, d: Event, x: Identity) {
    && p.sequence.Some? && p.Deleted()
    && FrozenFrom(p.(deletion := None), m, p.sequence.value, x)
    && d.kind.Deleted? && d.podUid == x.podUid
    && p.deletion.value.version == d.resourceVersion && p.deletion.value.pod == d.pod
  }

  datatype Item = Raw(event: Event) | Plain(event: Event) | Lost

  /** What one event does to the frozen proof: keep it, freeze a first one, or refuse. */
  function Take(e: Event, x: Identity, observed: Option<Proof>, journalled: Option<nat>, raw: bool)
    : Result<Option<Proof>, WatchError>
  {
    if e.kind.ErrorEvent? then Err(WatchErrorEvent)
    else if raw && e.resourceVersion == "" then Err(NoVersion)
    else if e.podUid != x.podUid then Err(PodDrifted)
    else if e.nodeName != x.nodeName then Err(NodeDrifted)
    else
      var shown := EventTermination(e, x);
      if shown.Err? then Err(shown.error)
      else if shown.value.None? then
        if observed.None? && e.currentContainer != "" && e.currentContainer != x.containerId then Err(ContainerDrifted)
        else Ok(observed)
      else
        var candidate := shown.value.value;
        if e.kind.Deleted? && observed.Some? then
          if MatchesFrozen(candidate, observed.value) then Ok(observed) else Err(ProofChanged)
        else if !e.kind.Modified? then Err(NotModified)
        else if raw && journalled.None? then Err(NotJournalled)
        else
          var marked := if raw then candidate.(pod := Some(e.pod), sequence := journalled) else candidate;
          if observed.None? then Ok(Some(marked))
          else if MatchesFrozen(marked, observed.value) then Ok(observed)
          else Err(ProofChanged)
  }

  /** The frozen proof is never replaced; a first one comes from this very event. */
  lemma TakeFreezes(e: Event, x: Identity, observed: Option<Proof>, j: Journal, journalled: Option<nat>, raw: bool)
    requires observed.Some? ==> Frozen(observed.value, j, x)
    requires raw && journalled.Some? ==> Entry(j, journalled.value, e)
    requires Take(e, x, observed, journalled, raw).Ok?
    ensures var next := Take(e, x, observed, journalled, raw).value;
            && (observed.Some? ==> next == observed)
            && (next.Some? ==> Frozen(next.value, j, x))
  {
    if observed.None? && Take(e, x, observed, journalled, raw).value.Some? {
      ShownIsBound(e, x);
      var p := Take(e, x, observed, journalled, raw).value.value;
      if raw { assert Entry(j, journalled.value, e) && FrozenFrom(p, e, journalled.value, x); }
    }
  }

  /** What an item shows of the captured end agrees with the frozen proof, if there is one. */
  predicate Agrees(item: Item, observed: Option<Proof>, x: Identity) {
    !item.Lost? && EventTermination(item.event, x).Ok?
    && (EventTermination(item.event, x).value.Some? ==>
          observed.Some? && AgreesWith(EventTermination(item.event, x).value.value, observed.value))
  }

  ghost predicate AllAgree(items: seq<Item>, n: nat, observed: Option<Proof>, x: Identity) {
    forall k :: 0 <= k < n <= |items| ==> Agrees(items[k], observed, x)
  }

  lemma TakeAgrees(item: Item, x: Identity, observed: Option<Proof>, j: Journal, journalled: Option<nat>, raw: bool)
    requires !item.Lost? && (observed.Some? ==> Frozen(observed.value, j, x))
    requires Take(item.event, x, observed, journalled, raw).Ok?
    ensures Agrees(item, Take(item.event, x, observed, journalled, raw).value, x)
  {
    var shown := EventTermination(item.event, x);
    if shown.Ok? && shown.value.Some? {
      var candidate := shown.value.value;
      if observed.Some? {
        AgreesIff(candidate, observed.value);
        AgreesIff(candidate.(pod := Some(item.event.pod), sequence := journalled), observed.value);
      }
    }
  }

  /** The deletion completes a frozen proof, if both ends are in the journal. */
  function Complete(p: Proof, e: Event, journalled: Option<nat>): Result<Proof, WatchError> {
    if journalled.None? then Err(NotJournalled)
    else if !p.eventKind.Modified? || p.sequence.None? then Err(NotLinked)
    else Ok(p.(deletion := Some(Deletion(e.resourceVersion, e.pod, journalled.value))))
  }

  lemma CompleteLinks(p: Proof, j: Journal, e: Event, x: Identity)
    requires Frozen(p, j, x) && e.kind.Deleted? && e.podUid == x.podUid
    requires Complete(p, e, Some(|j| + 1)).Ok?
    ensures Linked(Complete(p, e, Some(|j| + 1)).value, j + [RawEvent(e)], x)
  {
    var m :| Entry(j, p.sequence.value, m) && FrozenFrom(p, m, p.sequence.value, x);
    var q := Complete(p, e, Some(|j| + 1)).value;
    var longer := j + [RawEvent(e)];
    assert Entry(longer, p.sequence.value, m) && Entry(longer, |j| + 1, e);
    assert q.(deletion := None) == p;
    assert Completes(q, m, e, x);
  }

  /**
   Reads a watch to its proof. `sink` says whether raw events are journalled.
   Whatever the stream, a returned proof is of the captured container, frozen
   from a MODIFIED event and agreed with by every event read; a deleted one is
   linked to two journal entries in order.
   */
  method Consume(items: seq<Item>, x: Identity, prior: Option<Proof>, requireDeleted: bool, sink: bool, j: Journal)
    returns (r: Result<Proof, WatchError>, j': Journal, read: nat)
    requires prior.Some? ==> Frozen(prior.value, j, x)
    ensures j <= j' && read <= |items|
    ensures r.Ok? ==> read > 0 && AllAgree(items, read, Some(r.value), x)
    ensures r.Ok? && requireDeleted ==>
              Linked(r.value, j', x) && !items[read - 1].Lost? && items[read - 1].event.kind.Deleted?
    ensures r.Ok? && !requireDeleted ==> Frozen(r.value, j', x)
    ensures r.Ok? && prior.Some? ==>
              && SameEnd(r.value, prior.value) && r.value.view == prior.value.view
              && r.value.sequence == prior.value.sequence
    ensures forall i :: |j| <= i < |j'| ==> j'[i].RawEvent?
  {
    var observed := prior;
    j' := j;
    for n := 0 to |items|
      invariant j <= j'
      invariant observed.Some? ==> Frozen(observed.value, j', x)
      invariant prior.Some? ==> observed == prior
      invariant AllAgree(items, n, observed, x)
      invariant forall i :: |j| <= i < |j'| ==> j'[i].RawEvent?
    {
      read := n;
      var item := items[n];
      if item.Lost? { return Err(WatchLost), j', n; }
      var e := item.event;
      ghost var before := j';
      var journalled: Option<nat> := None;
      if item.Raw? && sink {
        if observed.Some? { FrozenLasts(observed.value, j', RawEvent(e), x); }
        j', journalled := j' + [RawEvent(e)], Some(|j'| + 1);
      }
      var taken := Take(e, x, observed, journalled, item.Raw?);
      if taken.Err? { return Err(taken.error), j', n; }
      TakeFreezes(e, x, observed, j', journalled, item.Raw?);
      TakeAgrees(item, x, observed, j', journalled, item.Raw?);
      AgreeNext(items, n, observed, taken.value, x);
      ghost var was := observed;
      observed := taken.value;
      if observed.Some? && !requireDeleted { return Ok(observed.value), j', n + 1; }
      if e.kind.Deleted? {
        if observed.None? { return Err(DeletedUnproven), j', n; }
        var done := Complete(observed.value, e, if item.Raw? then journalled else None);
        if done.Err? { return Err(done.error), j', n; }
        DeletedKeepsFrozen(e, x, was, journalled, item.Raw?);
        CompleteLinks(observed.value, before, e, x);
        DeletionChangesNoView(items, n + 1, observed.value, done.value, x);
        return Ok(done.value), j', n + 1;
      }
    }
    return Err(TimedOut), j', |items|;
  }

  /** A deletion event never freezes a proof. */
  lemma DeletedKeepsFrozen(e: Event, x: Identity, observed: Option<Proof>, journalled: Option<nat>, raw: bool)
    requires e.kind.Deleted? && Take(e, x, observed, journalled, raw).Ok?
    ensures Take(e, x, observed, journalled, raw).value == observed && e.podUid == x.podUid
  {
  }

  lemma AgreeNext(items: seq<Item>, n: nat, observed: Option<Proof>, next: Option<Proof>, x: Identity)
    requires n < |items| && AllAgree(items, n, observed, x) && Agrees(items[n], next, x)
    requires observed.Some? ==> next == observed
    ensures AllAgree(items, n + 1, next, x)
  {
    forall k | 0 <= k < n + 1 ensures Agrees(items[k], next, x) {
      if k < n { assert Agrees(items[k], observed, x); }
    }
  }

  lemma DeletionChangesNoView(items: seq<Item>, n: nat, p: Proof, q: Proof, x: Identity)
    requires n <= |items| && AllAgree(items, n, Some(p), x) && SameEnd(p, q) && p.view == q.view
    ensures AllAgree(items, n, Some(q), x)
  {
    forall k | 0 <= k < n ensures Agrees(items[k], Some(q), x) { assert Agrees(items[k], Some(p), x); }
  }

  // The authority that judges sealed records.

  datatype Digest = DigestOf(p: Proof)

  /** A sealed record: the proof without its termination message, and the digest over that. */
  datatype Record = Record(proof: Proof, digest: Digest)

  function Payload(p: Proof): Proof { p.(ended := p.ended.(message := "")) }

  function Seal(p: Proof): Record { Record(Payload(p), DigestOf(Payload(p))) }

  predicate IsDigest(s: string) {
    |s| == 71 && s[..7] == "sha256:" && forall i :: 7 <= i < 71 ==> '0' <= s[i] <= '9' || 'a' <= s[i] <= 'f'
  }

  predicate Present(text: string) { |text| > 0 }

  predicate TextsPresent(p: Proof) {
    && Present(p.of.topologyGeneration) && Present(p.of.podUid) && Present(p.of.nodeUid)
    && Present(p.of.containerName) && Present(p.of.containerId) && Present(p.of.processGeneration)
    && Present(p.of.watchStart) && Present(p.observedVersion)
    && (p.Deleted() ==> Present(p.deletion.value.version))
    && Present(p.ended.startedAt) && Present(p.ended.finishedAt)
  }

  predicate NumbersInRange(p: Proof) {
    p.ended.exitCode >= 0 && (p.ended.signal.Some? ==> p.ended.signal.value >= 0)
  }

  /** The checks of one sealed record, in the order they are made. */
  predicate ValidRecord(r: Record, generation: Option<string>) {
    var p := r.proof;
    && r.digest == DigestOf(p)
    && TextsPresent(p)
    && p.of.containerName == "worker"
    && (generation.Some? ==> p.of.topologyGeneration == generation.value)
    && p.eventKind.Modified? && p.Deleted()
    && p.of.restartBefore >= 0 && p.view.restarts >= 0
    && p.sequence.Some? && p.sequence.value >= 1 && p.deletion.value.sequence > p.sequence.value
    && p.pod.Some? && IsDigest(p.pod.value) && IsDigest(p.deletion.value.pod)
    && p.of.watchStart != p.observedVersion && p.of.watchStart != p.deletion.value.version
    && NumbersInRange(p)
    && SourceRule(p)
  }

  /** What a watch cannot guarantee about its own proof: the values Kubernetes and the capture put in. */
  predicate GoodValues(p: Proof, generation: string) {
    && TextsPresent(p) && p.of.containerName == "worker" && p.of.topologyGeneration == generation
    && (p.pod.Some? ==> IsDigest(p.pod.value)) && p.of.watchStart != p.observedVersion
    && (p.Deleted() ==> IsDigest(p.deletion.value.pod) && p.of.watchStart != p.deletion.value.version)
    && NumbersInRange(p)
  }

  /** A watch's proof is accepted exactly when those values are good; the structure never fails. */
  lemma WatchProofAcceptedIff(p: Proof, j: Journal, x: Identity, generation: string)
    requires Linked(p, j, x)
    ensures ValidRecord(Seal(p), Some(generation)) <==> GoodValues(p, generation)
  {
    var m, d :| Entry(j, p.sequence.value, m) && Entry(j, p.deletion.value.sequence, d) && Completes(p, m, d, x);
    ShownIsBound(m, x);
  }

  /** The journal still holds both transitions the proof names. */
  predicate InJournal(p: Proof, j: Journal) {
    && p.sequence.Some? && 1 <= p.sequence.value <= |j|
    && p.Deleted() && 1 <= p.deletion.value.sequence <= |j|
    && var m, d := j[p.sequence.value - 1], j[p.deletion.value.sequence - 1];
       && m.RawEvent? && m.event.kind.Modified? && Some(m.event.pod) == p.pod
       && m.event.resourceVersion == p.observedVersion
       && d.RawEvent? && d.event.kind.Deleted? && d.event.pod == p.deletion.value.pod
       && d.event.resourceVersion == p.deletion.value.version
  }

  lemma WatchProofIsInJournal(p: Proof, j: Journal, x: Identity, more: Journal)
    requires Linked(p, j, x)
    ensures InJournal(p, j + more)
  {
    var m, d :| Entry(j, p.sequence.value, m) && Entry(j, p.deletion.value.sequence, d) && Completes(p, m, d, x);
    ShownIsBound(m, x);
    assert (j + more)[p.sequence.value - 1] == RawEvent(m) && (j + more)[p.deletion.value.sequence - 1] == RawEvent(d);
  }

  predicate EntryOf(j: Journal, n: nat, podUid: string) {
    1 <= n <= |j| && j[n - 1].RawEvent? && j[n - 1].event.podUid == podUid
  }

  /** Both journal entries a proof names are of its own Pod. */
  lemma EntriesAreOfThePod(p: Proof, j: Journal, x: Identity)
    requires Linked(p, j, x)
    ensures EntryOf(j, p.sequence.value, x.podUid) && EntryOf(j, p.deletion.value.sequence, x.podUid)
  {
    var m, d :| Entry(j, p.sequence.value, m) && Entry(j, p.deletion.value.sequence, d) && Completes(p, m, d, x);
  }

  predicate NumbersApart(p: Proof, q: Proof) {
    && p.sequence.Some? && q.sequence.Some? && p.Deleted() && q.Deleted()
    && p.sequence.value != q.sequence.value && p.sequence.value != q.deletion.value.sequence
    && p.deletion.value.sequence != q.sequence.value && p.deletion.value.sequence != q.deletion.value.sequence
  }

  /** Journal numbers of proofs of different Pods never collide. */
  lemma NumbersAreApart(p: Proof, x: Identity, q: Proof, y: Identity, j: Journal)
    requires Linked(p, j, x) && Linked(q, j, y) && x.podUid != y.podUid
    ensures NumbersApart(p, q)
  {
    EntriesAreOfThePod(p, j, x);
    EntriesAreOfThePod(q, j, y);
  }

  /** The checks of a whole set of records. */
  predicate ValidRecords(records: seq<Record>, generation: string, members: set<Member>) {
    && (forall i :: 0 <= i < |records| ==> ValidRecord(records[i], Some(generation)))
    && |records| == 4 && (set i | 0 <= i < |records| :: records[i].proof.of.member) == members
    && (forall i, k :: 0 <= i < k < |records| ==> DistinctProcesses(records[i].proof, records[k].proof))
  }

  predicate DistinctProcesses(p: Proof, q: Proof) {
    p.of.podUid != q.of.podUid && p.of.containerId != q.of.containerId && NumbersApart(p, q)
  }

  function SealAll(proofs: seq<Proof>): (r: seq<Record>)
    ensures |r| == |proofs| && forall i :: 0 <= i < |r| ==> r[i] == Seal(proofs[i])
  {
    seq(|proofs|, i requires 0 <= i < |proofs| => Seal(proofs[i]))
  }

  /** Four captured processes, one journal: the four proofs are accepted as a set once each is on its own. */
  lemma FourWatchesAccepted(
    proofs: seq<Proof>, captured: seq<Identity>, j: Journal, generation: string, members: set<Member>)
    requires |proofs| == |captured| == 4
    requires forall i :: 0 <= i < 4 ==> Linked(proofs[i], j, captured[i]) && GoodValues(proofs[i], generation)
    requires forall i, k :: 0 <= i < k < 4 ==>
               captured[i].podUid != captured[k].podUid && captured[i].containerId != captured[k].containerId
    requires (set i | 0 <= i < 4 :: captured[i].member) == members
    ensures ValidRecords(SealAll(proofs), generation, members)
  {
    var records := SealAll(proofs);
    forall i | 0 <= i < |records| ensures ValidRecord(records[i], Some(generation)) {
      WatchProofAcceptedIff(proofs[i], j, captured[i], generation);
    }
    forall i, k | 0 <= i < k < |records| ensures DistinctProcesses(records[i].proof, records[k].proof) {
      NumbersAreApart(proofs[i], captured[i], proofs[k], captured[k], j);
    }
    assert forall i :: 0 <= i < 4 ==> records[i].proof.of.member == captured[i].member;
    assert (set i | 0 <= i < |records| :: records[i].proof.of.member) == members;
  }
}
