/**
 Endpoint refs and the bounded registry of network operations. One allocator
 numbers each target worker 1, 2, 3, ...; callers may also hand in refs of their
 own, which the registry files as they are.
 */
module OperationRegistry {
  import opened Recency
  import opened Wrappers

  datatype Ref = Ref(topology: string, owner: string, seqNo: nat, target: string, workerEpoch: string,
                     operation: string, payload: string)

  datatype RefKey = RefKey(kind: string, instance: string, operation: string)

  datatype RegistryError = AlreadyRetired | CapacityExhausted | UnknownWorker | TaskActive | NotRemembered

  type Refs = map<RefKey, Ref>

  function Active(refs: Refs): set<string> { set k | k in refs :: k.operation }

  function Except(refs: Refs, operation: string): Refs {
    map k | k in refs && k.operation != operation :: refs[k]
  }

  function NotOf(s: set<Ref>, operation: string): set<Ref> { set r | r in s && r.operation != operation }

  ghost function Occupant(refs: Refs, k: RefKey): set<Ref> { if k in refs then {refs[k]} else {} }

  ghost predicate Holds(refs: Refs, r: Ref) { exists k :: k in refs && refs[k] == r }

  /** The registry's bounds, and no ref of an operation remembered as over. */
  ghost predicate Bounded(refs: Refs, retired: seq<string>, activeCap: nat, retiredCap: nat) {
    && |Active(refs)| <= activeCap
    && Distinct(retired) && |retired| <= retiredCap
    && forall op :: op in retired ==> op !in Active(refs)
  }

  function NextOf(next: map<string, nat>, target: string): nat { if target in next then next[target] else 1 }

  /** Each target's refs carry the numbers 1, 2, 3, ... once each. */
  ghost predicate Numbered(issued: set<Ref>, next: map<string, nat>) {
    && (forall r :: r in issued ==> 1 <= r.seqNo < NextOf(next, r.target))
    && (forall r, s :: r in issued && s in issued && r.target == s.target && r.seqNo == s.seqNo ==> r == s)
    && (forall t, n :: t in next && 1 <= n < next[t] ==> Issued(issued, t, n))
    && (forall t :: t in next ==> next[t] >= 1)
  }

  ghost predicate Issued(issued: set<Ref>, target: string, n: nat) {
    exists r :: r in issued && r.target == target && r.seqNo == n
  }

  lemma NumberNext(issued: set<Ref>, next: map<string, nat>, r: Ref)
    requires Numbered(issued, next) && r.seqNo == NextOf(next, r.target)
    ensures r !in issued && Numbered(issued + {r}, next[r.target := r.seqNo + 1])
  {
    var issued', next' := issued + {r}, next[r.target := r.seqNo + 1];
    forall t, n | t in next' && 1 <= n < next'[t] ensures Issued(issued', t, n) {
      if t == r.target && n == r.seqNo {
        assert r in issued';
      } else {
        assert Issued(issued, t, n);
        var s :| s in issued && s.target == t && s.seqNo == n;
        assert s in issued';
      }
    }
  }

  /** The ref was issued for the worker and operation it is filed under. */
  predicate Own(k: RefKey, ref: Ref, issued: set<Ref>) {
    ref in issued && ref.target == k.instance && ref.operation == k.operation
  }

  /** Every remembered ref is the allocator's own, except those handed in. */
  ghost predicate Filed(refs: Refs, issued: set<Ref>, foreign: set<RefKey>) {
    forall k :: k in refs && k !in foreign ==> Own(k, refs[k], issued)
  }

  lemma ActiveOfUpdate(refs: Refs, k: RefKey, r: Ref)
    ensures Active(refs[k := r]) == Active(refs) + {k.operation}
  {
    var refs' := refs[k := r];
    forall op | op in Active(refs) + {k.operation} ensures op in Active(refs') {
      if op in Active(refs) {
        var j :| j in refs && j.operation == op;
        assert j in refs';
      } else {
        assert k in refs';
      }
    }
  }

  class NetworkControl {
    const activeCap: nat
    const retiredCap: nat
    const topology: string
    const owner: string
    const workerEpochs: map<string, string>
    var next: map<string, nat>
    var refs: Refs
    var attempted: set<Ref>
    var ambiguous: set<Ref>
    var retired: seq<string>
    var busyTasks: set<string>
    ghost var issued: set<Ref>
    /** Keys under which a caller filed a ref that the allocator did not issue for them. */
    ghost var foreign: set<RefKey>
    /** Refs whose place was taken by another one of the same kind, worker and operation. */
    ghost var displaced: set<Ref>

    ghost predicate Valid()
      reads this
    {
      && Numbered(issued, next) && Filed(refs, issued, foreign)
      && ambiguous <= attempted
      && Bounded(refs, retired, activeCap, retiredCap)
    }

    constructor (activeCap: nat, retiredCap: nat, topology: string, owner: string, workerEpochs: map<string, string>)
      ensures Valid() && refs == map[] && next == map[] && retired == [] && issued == {} && foreign == {}
      ensures displaced == {} && attempted == ambiguous == {} && this.activeCap == activeCap
    {
      this.activeCap, this.retiredCap := activeCap, retiredCap;
      this.topology, this.owner, this.workerEpochs := topology, owner, workerEpochs;
      next, refs, attempted, ambiguous, retired, busyTasks := map[], map[], {}, {}, [], {};
      issued, foreign, displaced := {}, {}, {};
    }

    /** A retired operation is refused; a new one is refused at the cap. */
    method EnsureOperationCapacity(operation: string) returns (r: Option<RegistryError>)
      requires Valid()
      ensures r == Some(AlreadyRetired) <==> operation in retired
      ensures r == Some(CapacityExhausted) <==>
                operation !in retired && operation !in Active(refs) && |Active(refs)| == activeCap
      ensures r.Some? ==> r.value.AlreadyRetired? || r.value.CapacityExhausted?
    {
      if operation in retired { return Some(AlreadyRetired); }
      var active := Active(refs);
      if operation !in active && |active| >= activeCap { return Some(CapacityExhausted); }
      return None;
    }

    /** The allocator: the next number of the target. */
    method AllocateNumber(target: string, epoch: string, operation: string, payload: string) returns (ref: Ref)
      requires Valid()
      modifies this`next, this`issued
      ensures Valid() && ref.seqNo == NextOf(old(next), target) && next == old(next)[target := ref.seqNo + 1]
      ensures issued == old(issued) + {ref} && ref !in old(issued)
      ensures ref.target == target && ref.operation == operation && ref.payload == payload && ref.workerEpoch == epoch
    {
      ref := Ref(topology, owner, NextOf(next, target), target, epoch, operation, payload);
      NumberNext(issued, next, ref);
      next, issued := next[target := ref.seqNo + 1], issued + {ref};
    }

    method Remember(key: RefKey, ref: Ref)
      requires Valid() && key.operation !in retired
      requires key.operation in Active(refs) || |Active(refs)| < activeCap
      modifies this`refs, this`foreign, this`displaced
      ensures Valid() && refs == old(refs)[key := ref]
      ensures displaced == old(displaced) + Occupant(old(refs), key)
      ensures foreign == if Own(key, ref, issued) then old(foreign) - {key} else old(foreign) + {key}
    {
      RememberKeepsBounds(refs, retired, key, ref, activeCap, retiredCap);
      displaced := displaced + Occupant(refs, key);
      refs := refs[key := ref];
      foreign := if Own(key, ref, issued) then foreign - {key} else foreign + {key};
    }

    method Allocate(kind: string, instance: string, operation: string, payload: string)
      returns (r: Result<Ref, RegistryError>)
      requires Valid()
      modifies this`next, this`issued, this`refs, this`foreign, this`displaced
      ensures Valid() && foreign <= old(foreign)
      ensures displaced == old(displaced) + if r.Ok? then Occupant(old(refs), RefKey(kind, instance, operation)) else {}
      ensures r.Ok? <==>
                && operation !in retired && instance in workerEpochs
                && (operation in Active(old(refs)) || |Active(old(refs))| < activeCap)
      ensures r.Ok? ==> r.value.seqNo == NextOf(old(next), instance) && r.value !in old(issued)
      ensures r.Ok? ==> refs == old(refs)[RefKey(kind, instance, operation) := r.value]
      ensures r.Err? ==> refs == old(refs) && next == old(next)
      ensures issued == old(issued) + if r.Ok? then {r.value} else {}
    {
      var refused := EnsureOperationCapacity(operation);
      if refused.Some? { return Err(refused.value); }
      if instance !in workerEpochs { return Err(UnknownWorker); }
      var ref := AllocateNumber(instance, workerEpochs[instance], operation, payload);
      Remember(RefKey(kind, instance, operation), ref);
      return Ok(ref);
    }

    /** Files whatever ref a caller hands in, under the same bounds. */
    method RememberExternalRef(kind: string, instance: string, operation: string, ref: Ref)
      returns (r: Option<RegistryError>)
      requires Valid()
      modifies this`refs, this`foreign, this`displaced
      ensures Valid()
      ensures displaced
           == old(displaced) + if r.None? then Occupant(old(refs), RefKey(kind, instance, operation)) else {}
      ensures r.None? <==> operation !in retired && (operation in Active(old(refs)) || |Active(old(refs))| < activeCap)
      ensures refs == if r.None? then old(refs)[RefKey(kind, instance, operation) := ref] else old(refs)
      ensures Own(RefKey(kind, instance, operation), ref, issued) ==> foreign <= old(foreign)
    {
      r := EnsureOperationCapacity(operation);
      if r.None? { Remember(RefKey(kind, instance, operation), ref); }
    }

    method MarkExternalRefAttempted(ref: Ref) returns (r: Option<RegistryError>)
      requires Valid()
      modifies this`attempted
      ensures Valid() && (r.None? <==> Holds(refs, ref))
      ensures attempted == if r.None? then old(attempted) + {ref} else old(attempted)
    {
      if !exists k :: k in refs && refs[k] == ref { return Some(NotRemembered); }
      attempted := attempted + {ref};
      return None;
    }

    method MarkExternalRefAmbiguous(ref: Ref) returns (r: Option<RegistryError>)
      requires Valid()
      modifies this`attempted, this`ambiguous
      ensures Valid() && (r.None? <==> Holds(refs, ref))
      ensures r.None? ==> attempted == old(attempted) + {ref} && ambiguous == old(ambiguous) + {ref}
      ensures r.Some? ==> attempted == old(attempted) && ambiguous == old(ambiguous)
    {
      if !exists k :: k in refs && refs[k] == ref { return Some(NotRemembered); }
      attempted, ambiguous := attempted + {ref}, ambiguous + {ref};
      return None;
    }

    /** Forgets everything about an operation and remembers, boundedly, that it is over. */
    method RetireOperation(operation: string) returns (r: Option<RegistryError>)
      requires Valid()
      modifies this`refs, this`attempted, this`ambiguous, this`retired
      ensures Valid() && (r.Some? <==> operation in busyTasks)
      ensures r.Some? ==> refs == old(refs) && retired == old(retired)
      ensures r.Some? ==> attempted == old(attempted) && ambiguous == old(ambiguous)
      ensures r.None? ==>
                && refs == Except(old(refs), operation)
                && attempted == NotOf(old(attempted), operation) && ambiguous == NotOf(old(ambiguous), operation)
                && retired == Tail(Without(old(retired), operation) + [operation], retiredCap)
    {
      if operation in busyTasks { return Some(TaskActive); }
      RetireKeepsBounds(refs, retired, operation, activeCap, retiredCap);
      FewerAreFiled(refs, issued, foreign, operation);
      var kept := EvictOldest(Without(retired, operation) + [operation], retiredCap);
      refs, attempted, ambiguous, retired :=
        Except(refs, operation), NotOf(attempted, operation), NotOf(ambiguous, operation), kept;
      return None;
    }

    /**
     The endpoints a request's cleanup must visit, one entry per worker and
     number. Every candidate is visited exactly when no two different ones share a
     worker and a number, as is the case for the allocator's own refs.
     */
    method CleanupCandidates(operation: string, dispatched: Option<Candidate>) returns (plan: Plan)
      requires Valid()
      ensures PlanOf(plan, Candidates(operation, dispatched))
      ensures (forall c :: c in Candidates(operation, dispatched) ==> Visits(plan, c))
              <==> NoneCollide(Candidates(operation, dispatched))
      ensures AllOwn(operation, dispatched) ==> NoneCollide(Candidates(operation, dispatched))
    {
      plan := MergedPlan(operation, dispatched);
      PlanVisitsAllIff(plan, Candidates(operation, dispatched));
      if AllOwn(operation, dispatched) { OwnNeverCollide(operation, dispatched); }
    }

    /** The merging itself; a later candidate takes the place of an earlier one. */
    method MergedPlan(operation: string, dispatched: Option<Candidate>) returns (plan: Plan)
      ensures PlanOf(plan, Candidates(operation, dispatched))
    {
      plan := map[];
      if dispatched.Some? {
        AddToPlan(plan, {}, dispatched.value);
        plan := plan[dispatched.value.Slot() := dispatched.value.ref];
      }
      var left, seen := refs.Keys, {};
      assert Start(dispatched) + Needed({}, operation) == Start(dispatched);
      while left != {}
        invariant left + seen == refs.Keys
        invariant PlanOf(plan, Start(dispatched) + Needed(seen, operation))
        decreases left
      {
        var k :| k in left;
        NeededNext(seen, k, operation);
        if k.operation == operation && NeedsCleanup(refs[k]) {
          var c := Candidate(k.instance, refs[k]);
          AddToPlan(plan, Start(dispatched) + Needed(seen, operation), c);
          plan := plan[c.Slot() := c.ref];
          assert Start(dispatched) + Needed(seen, operation) + {c} == Start(dispatched) + Needed(seen + {k}, operation);
        }
        left, seen := left - {k}, seen + {k};
      }
    }

    predicate NeedsCleanup(ref: Ref)
      reads this
    {
      ref in attempted || ref in ambiguous
    }

    ghost function Needed(keys: set<RefKey>, operation: string): set<Candidate>
      reads this
    {
      set k | k in keys && k in refs && k.operation == operation && NeedsCleanup(refs[k]) ::
        Candidate(k.instance, refs[k])
    }

    /** The dispatched ref on its prefill worker, and every ref of the operation that may have reached a worker. */
    ghost function Candidates(operation: string, dispatched: Option<Candidate>): set<Candidate>
      reads this
    {
      Start(dispatched) + Needed(refs.Keys, operation)
    }

    lemma NeededNext(keys: set<RefKey>, k: RefKey, operation: string)
      requires k in refs
      ensures Needed(keys + {k}, operation) == Needed(keys, operation)
                + if k.operation == operation && NeedsCleanup(refs[k]) then {Candidate(k.instance, refs[k])} else {}
    {
    }

    /** All candidates come from the allocator, for the worker they are sent to. */
    ghost predicate AllOwn(operation: string, dispatched: Option<Candidate>)
      reads this
    {
      && (dispatched.Some? ==>
            dispatched.value.ref in issued && dispatched.value.ref.target == dispatched.value.instance)
      && forall k :: k in refs && k.operation == operation && NeedsCleanup(refs[k]) ==> k !in foreign
    }

    lemma OwnNeverCollide(operation: string, dispatched: Option<Candidate>)
      requires Valid() && AllOwn(operation, dispatched)
      ensures NoneCollide(Candidates(operation, dispatched))
    {
      forall c | c in Candidates(operation, dispatched) ensures c.ref in issued && c.ref.target == c.instance {
        if c in Needed(refs.Keys, operation) {
          var k :| k in refs && k.operation == operation && NeedsCleanup(refs[k])
                   && c == Candidate(k.instance, refs[k]);
          assert Own(k, refs[k], issued);
        }
      }
    }
  }

  /** A ref together with the worker it is sent to. */
  datatype Candidate = Candidate(instance: string, ref: Ref) {
    function Slot(): (string, nat) { (instance, ref.seqNo) }
  }

  type Plan = map<(string, nat), Ref>

  function Start(dispatched: Option<Candidate>): set<Candidate> {
    if dispatched.Some? then {dispatched.value} else {}
  }

  ghost predicate Visits(plan: Plan, c: Candidate) { c.Slot() in plan && plan[c.Slot()] == c.ref }

  /** One entry for every worker and number of a candidate, and each entry a candidate. */
  ghost predicate PlanOf(plan: Plan, cs: set<Candidate>) {
    && (forall c :: c in cs ==> c.Slot() in plan)
    && (forall p :: p in plan ==> Candidate(p.0, plan[p]) in cs && plan[p].seqNo == p.1)
  }

  ghost predicate NoneCollide(cs: set<Candidate>) {
    forall c, d :: c in cs && d in cs && c.Slot() == d.Slot() ==> c == d
  }

  lemma AddToPlan(plan: Plan, cs: set<Candidate>, c: Candidate)
    requires PlanOf(plan, cs)
    ensures PlanOf(plan[c.Slot() := c.ref], cs + {c})
  {
  }

  /** De-duplication by worker and number loses nothing exactly when it has nothing to merge. */
  lemma PlanVisitsAllIff(plan: Plan, cs: set<Candidate>)
    requires PlanOf(plan, cs)
    ensures (forall c :: c in cs ==> Visits(plan, c)) <==> NoneCollide(cs)
  {
    if NoneCollide(cs) {
      forall c | c in cs ensures Visits(plan, c) {
        assert Candidate(c.instance, plan[c.Slot()]) in cs;
        assert Candidate(c.instance, plan[c.Slot()]).Slot() == c.Slot();
      }
    }
    if forall c :: c in cs ==> Visits(plan, c) {
      forall c, d | c in cs && d in cs && c.Slot() == d.Slot() ensures c == d {
        assert Visits(plan, c) && Visits(plan, d);
      }
    }
  }

  /**
   A use of the registry by a program that numbers every ref it hands in with the
   same allocator: drawing a ref, filing one drawn earlier under its own worker
   and operation, and the registry's other operations.
   */
  datatype Call =
    | Allocates(kind: string, instance: string, operation: string, payload: string)
    | Draws(instance: string, epoch: string, operation: string, payload: string)
    | HandsIn(kind: string, which: nat)
    | Attempts(ref: Ref)
    | Suspects(ref: Ref)
    | Starts(operation: string)
    | Ends(operation: string)
    | Retires(operation: string)

  /** What such a program keeps: nothing foreign, and every attempted ref filed unless displaced. */
  ghost predicate Kept(control: NetworkControl, drawn: seq<Ref>)
    reads control
  {
    && control.Valid() && control.foreign == {}
    && (forall i :: 0 <= i < |drawn| ==> drawn[i] in control.issued)
    && Tracked(control.refs, control.attempted, control.displaced)
  }

  ghost predicate Tracked(refs: Refs, attempted: set<Ref>, displaced: set<Ref>) {
    forall r :: r in attempted ==> r in displaced || Holds(refs, r)
  }

  lemma FilingTracks(refs: Refs, attempted: set<Ref>, displaced: set<Ref>, k: RefKey, ref: Ref)
    requires Tracked(refs, attempted, displaced)
    ensures Tracked(refs[k := ref], attempted, displaced + Occupant(refs, k))
  {
    var refs', displaced' := refs[k := ref], displaced + Occupant(refs, k);
    forall r | r in attempted && r !in displaced' ensures Holds(refs', r) {
      var j :| j in refs && refs[j] == r;
      assert j in refs' && refs'[j] == r;
    }
  }

  lemma RetiringTracks(refs: Refs, attempted: set<Ref>, displaced: set<Ref>, issued: set<Ref>, operation: string)
    requires Tracked(refs, attempted, displaced) && Filed(refs, issued, {})
    ensures Tracked(Except(refs, operation), NotOf(attempted, operation), displaced)
  {
    var refs' := Except(refs, operation);
    forall r | r in NotOf(attempted, operation) && r !in displaced ensures Holds(refs', r) {
      var j :| j in refs && refs[j] == r;
      assert Own(j, r, issued);
      assert j in refs' && refs'[j] == r;
    }
  }

  method Files(control: NetworkControl, kind: string, instance: string, operation: string, payload: string,
               ghost drawn: seq<Ref>)
    requires Kept(control, drawn)
    modifies control
    ensures Kept(control, drawn)
  {
    ghost var refs, displaced := control.refs, control.displaced;
    var r := control.Allocate(kind, instance, operation, payload);
    if r.Ok? { FilingTracks(refs, control.attempted, displaced, RefKey(kind, instance, operation), r.value); }
  }

  method FilesDrawn(control: NetworkControl, kind: string, ref: Ref, ghost drawn: seq<Ref>)
    requires Kept(control, drawn) && ref in control.issued
    modifies control
    ensures Kept(control, drawn)
  {
    FilingTracks(control.refs, control.attempted, control.displaced, RefKey(kind, ref.target, ref.operation), ref);
    var _ := control.RememberExternalRef(kind, ref.target, ref.operation, ref);
  }

  method Marks(control: NetworkControl, ref: Ref, suspect: bool, ghost drawn: seq<Ref>)
    requires Kept(control, drawn)
    modifies control
    ensures Kept(control, drawn)
  {
    if suspect {
      var _ := control.MarkExternalRefAmbiguous(ref);
    } else {
      var _ := control.MarkExternalRefAttempted(ref);
    }
  }

  method Perform(control: NetworkControl, call: Call, drawn: seq<Ref>) returns (drawn': seq<Ref>)
    requires Kept(control, drawn)
    modifies control
    ensures Kept(control, drawn') && drawn <= drawn'
  {
    drawn' := drawn;
    match call
    case Allocates(kind, instance, operation, payload) => Files(control, kind, instance, operation, payload, drawn);
    case Draws(instance, epoch, operation, payload) =>
      var ref := control.AllocateNumber(instance, epoch, operation, payload);
      drawn' := drawn + [ref];
    case HandsIn(kind, which) =>
      if which < |drawn| { FilesDrawn(control, kind, drawn[which], drawn); }
    case Attempts(ref) => Marks(control, ref, false, drawn);
    case Suspects(ref) => Marks(control, ref, true, drawn);
    case Starts(operation) => control.busyTasks := control.busyTasks + {operation};
    case Ends(operation) => control.busyTasks := control.busyTasks - {operation};
    case Retires(operation) =>
      RetiringTracks(control.refs, control.attempted, control.displaced, control.issued, operation);
      var _ := control.RetireOperation(operation);
  }

  /**
   After any run of such a program a cleanup misses no candidate. An attempted
   ref of the operation is visited exactly when it is still filed or was
   dispatched, hence always unless another ref took its place.
   */
  method EveryCandidateIsVisited(activeCap: nat, retiredCap: nat, topology: string, owner: string,
                                 workerEpochs: map<string, string>, calls: seq<Call>, operation: string,
                                 dispatched: Option<nat>)
    returns (control: NetworkControl, plan: Plan, sent: Option<Candidate>)
    ensures Kept(control, []) && PlanOf(plan, control.Candidates(operation, sent))
    ensures forall c :: c in control.Candidates(operation, sent) ==> Visits(plan, c)
    ensures forall r :: r in control.attempted && r.operation == operation ==>
              (Visits(plan, Candidate(r.target, r)) <==>
               Holds(control.refs, r) || sent == Some(Candidate(r.target, r)))
    ensures forall r :: r in control.attempted && r.operation == operation && r !in control.displaced ==>
              Visits(plan, Candidate(r.target, r))
  {
    control := new NetworkControl(activeCap, retiredCap, topology, owner, workerEpochs);
    var drawn := [];
    for i := 0 to |calls|
      invariant Kept(control, drawn)
    {
      drawn := Perform(control, calls[i], drawn);
    }
    sent := None;
    if dispatched.Some? && dispatched.value < |drawn| {
      sent := Some(Candidate(drawn[dispatched.value].target, drawn[dispatched.value]));
    }
    plan := control.CleanupCandidates(operation, sent);
    forall r | r in control.attempted && r.operation == operation
      ensures Visits(plan, Candidate(r.target, r)) <==>
              Holds(control.refs, r) || sent == Some(Candidate(r.target, r))
    {
      AttemptedIsCandidate(control, r, sent);
    }
  }

  lemma AttemptedIsCandidate(control: NetworkControl, r: Ref, sent: Option<Candidate>)
    requires control.Valid() && control.foreign == {} && r in control.attempted
    ensures Candidate(r.target, r) in control.Candidates(r.operation, sent)
            <==> Holds(control.refs, r) || sent == Some(Candidate(r.target, r))
  {
    if Holds(control.refs, r) {
      var k :| k in control.refs && control.refs[k] == r;
      assert Own(k, r, control.issued);
      assert k in control.refs.Keys;
    }
  }

  /** The bare interface: of two refs handed in with the same number, the plan visits only one. */
  method ForeignRefIsLost() returns (plan: Plan, lost: Candidate)
    ensures lost.Slot() in plan && !Visits(plan, lost)
  {
    var first := Ref("topology", "owner", 1, "worker", "epoch", "operation", "first");
    var second := first.(payload := "second");
    var control := new NetworkControl(1, 1, "topology", "owner", map[]);
    var _ := control.RememberExternalRef("prepare", "worker", "operation", first);
    assert RefKey("prepare", "worker", "operation") in control.refs;
    var _ := control.RememberExternalRef("suffix", "worker", "operation", second);
    assert control.refs[RefKey("prepare", "worker", "operation")] == first;
    assert control.refs[RefKey("suffix", "worker", "operation")] == second;
    var _ := control.MarkExternalRefAttempted(first);
    var _ := control.MarkExternalRefAttempted(second);
    plan := control.CleanupCandidates("operation", None);
    var a, b := Candidate("worker", first), Candidate("worker", second);
    assert a in control.Candidates("operation", None) && b in control.Candidates("operation", None);
    lost := if plan[a.Slot()] == first then b else a;
  }

  lemma DropOneMore(s: seq<string>, d: nat)
    requires d < |s|
    ensures s[d..][1..] == s[d + 1..]
  {
  }

  /** Drops entries from the front until the rest fits. */
  method EvictOldest(s: seq<string>, cap: nat) returns (kept: seq<string>)
    ensures kept == Tail(s, cap)
  {
    kept := s;
    ghost var dropped := 0;
    while |kept| > cap
      invariant 0 <= dropped <= |s| && kept == s[dropped..] && (dropped == 0 || |kept| >= cap)
    {
      DropOneMore(s, dropped);
      kept, dropped := kept[1..], dropped + 1;
    }
  }

  /** The operations remembered as over stay distinct and bounded, with the newest last. */
  lemma RetiredNext(retired: seq<string>, operation: string, cap: nat)
    requires Distinct(retired)
    ensures var kept := Tail(Without(retired, operation) + [operation], cap);
            && Distinct(kept) && |kept| <= cap && (cap > 0 ==> operation in kept)
            && forall op :: op in kept ==> op in retired || op == operation
  {
    WithoutKeeps(retired, operation);
    var all := Without(retired, operation) + [operation];
    assert Distinct(all);
    var kept := Tail(all, cap);
    assert forall op :: op in kept ==> op in all;
    if cap > 0 { assert kept[|kept| - 1] == operation; }
  }

  function Tail(s: seq<string>, n: nat): seq<string> { if |s| <= n then s else s[|s| - n..] }

  /** Retiring leaves no ref of the operation and keeps every bound. */
  lemma RetireKeepsBounds(refs: Refs, retired: seq<string>, operation: string, activeCap: nat, retiredCap: nat)
    requires Bounded(refs, retired, activeCap, retiredCap)
    ensures operation !in Active(Except(refs, operation))
    ensures Bounded(Except(refs, operation), Tail(Without(retired, operation) + [operation], retiredCap),
                    activeCap, retiredCap)
    ensures retiredCap > 0 ==> operation in Tail(Without(retired, operation) + [operation], retiredCap)
  {
    var refs' := Except(refs, operation);
    assert Active(refs') == Active(refs) - {operation} by {
      forall op | op in Active(refs) - {operation} ensures op in Active(refs') {
        var k :| k in refs && k.operation == op;
        assert k in refs';
      }
    }
    Smaller(Active(refs), operation);
    RetiredNext(retired, operation, retiredCap);
  }

  lemma FewerAreFiled(refs: Refs, issued: set<Ref>, foreign: set<RefKey>, operation: string)
    requires Filed(refs, issued, foreign)
    ensures Filed(Except(refs, operation), issued, foreign)
  {
  }

  lemma RememberKeepsBounds(refs: Refs, retired: seq<string>, k: RefKey, r: Ref, activeCap: nat, retiredCap: nat)
    requires Bounded(refs, retired, activeCap, retiredCap) && k.operation !in retired
    requires k.operation in Active(refs) || |Active(refs)| < activeCap
    ensures Bounded(refs[k := r], retired, activeCap, retiredCap)
  {
    ActiveOfUpdate(refs, k, r);
    assert k.operation in Active(refs) ==> Active(refs) + {k.operation} == Active(refs);
  }

  lemma Smaller(s: set<string>, x: string)
    ensures |s - {x}| <= |s|
  {
    if x in s { assert s == (s - {x}) + {x}; } else { assert s - {x} == s; }
  }
}
