/**
 The Gateway's acceptance of a replacement world and its admission gate, over
 the durable store of release decisions. Background tasks run at every wait.
 A restart of the Gateway is a new object over the same disk.
 */
module Gateway {
  import opened ReplacementStore
  import opened SlotLease
  import opened StoreHistory
  import opened StoreModel
  import opened Wrappers

  /** The body of an accept call; `text` is its canonical form, which the decision digest covers. */
  datatype Body = Body(text: string, run: string, oldGeneration: string, newGeneration: string, excluded: set<string>)

  function DecisionOf(b: Body): string { "sha256:" + b.text }

  /** Mentioned where a proof needs the definitions behind `CollisionFree` and `Remembered`. */
  predicate Ledgers(n: nat) { true }

  /** Among these bodies, equal digests mean equal bodies. */
  ghost predicate CollisionFree(bodies: set<Body>) {
    forall n: nat {:trigger Ledgers(n)} :: Ledgers(n) ==>
      forall b, c :: b in bodies && c in bodies && DecisionOf(b) == DecisionOf(c) ==> b == c
  }

  /** A worker world; two worlds of one generation differ in `serial`. */
  datatype Registry = Registry(generation: string, serial: nat)

  datatype RunRecord = RunRecord(run: string, oldGeneration: string, newGeneration: string, decision: string)

  function RecordOf(b: Body): RunRecord { RunRecord(b.run, b.oldGeneration, b.newGeneration, DecisionOf(b)) }

  /** Accepted runs known to this process, oldest first, and the world they led to. */
  datatype Ledger = Ledger(registry: Registry, records: seq<RunRecord>, cap: nat)

  function Find(records: seq<RunRecord>, run: string): (r: Option<RunRecord>)
    ensures r.Some? ==> r.value in records && r.value.run == run
    ensures r.None? ==> forall i :: 0 <= i < |records| ==> records[i].run != run
  {
    if records == [] then None else if records[0].run == run then Some(records[0]) else Find(records[1..], run)
  }

  function Without(records: seq<RunRecord>, run: string): seq<RunRecord> {
    if records == [] then []
    else if records[0].run == run then Without(records[1..], run)
    else [records[0]] + Without(records[1..], run)
  }

  /** The record becomes the newest; the oldest go when the ledger is full. */
  function Remember(records: seq<RunRecord>, rec: RunRecord, cap: nat): seq<RunRecord> {
    Latest(Without(records, rec.run) + [rec], cap)
  }

  /** This record is the one found for its run. */
  ghost predicate Knows(records: seq<RunRecord>, rec: RunRecord) {
    forall n: nat {:trigger Ledgers(n)} :: Ledgers(n) ==> Find(records, rec.run) == Some(rec)
  }

  lemma {:induction false} RememberFinds(records: seq<RunRecord>, rec: RunRecord, cap: nat)
    requires cap > 0
    ensures Knows(Remember(records, rec, cap), rec) && |Remember(records, rec, cap)| <= cap
  {
    var rest := Without(records, rec.run);
    WithoutHasNone(records, rec.run);
    var kept := Remember(records, rec, cap);
    assert kept[|kept| - 1] == rec;
    assert forall i :: 0 <= i < |kept| - 1 ==> kept[i] in rest;
    FindLast(kept);
  }

  lemma {:induction false} WithoutHasNone(records: seq<RunRecord>, run: string)
    ensures forall r :: r in Without(records, run) ==> r.run != run
  {
    if records != [] { WithoutHasNone(records[1..], run); }
  }

  lemma {:induction false} FindLast(records: seq<RunRecord>)
    requires records != [] && forall i :: 0 <= i < |records| - 1 ==> records[i].run != records[|records| - 1].run
    ensures Find(records, records[|records| - 1].run) == Some(records[|records| - 1])
  {
    if |records| > 1 {
      assert records[1..][|records| - 2] == records[|records| - 1];
      FindLast(records[1..]);
    }
  }

  datatype AcceptError =
    | BadBody | StoreRefused(error: StoreError) | RetiredRun | PendingConflict | RunReused | UnknownReplacement
    | WorldMismatch | LiveLeases | WaitFailed | NotFinal

  /** What replacing a world does. */
  datatype Effect = DecisionsDurable | LedgerMoved | SlotsReturned | WorldInstalled | RunSealed | AdmissionOpened

  /** The order in which it must happen. */
  function Position(e: Effect): nat {
    match e
    case DecisionsDurable => 1
    case LedgerMoved => 2
    case SlotsReturned => 3
    case WorldInstalled => 4
    case RunSealed => 5
    case AdmissionOpened => 6
  }

  /** A request the Gateway makes of its store for this body, and with no empty field that matters. */
  ghost predicate RequestOf(b: Body, op: Op) {
    match op
    case PersistBatch(batch, run, oldGeneration, decision, _) =>
      && run == b.run && oldGeneration == b.oldGeneration && decision == DecisionOf(b) && run != ""
      && forall r :: r in batch ==> r.operationId != "" && r == RecordFor(r.operationId, b)
    case SealRun(run, oldGeneration, newGeneration, decision, _, _) =>
      && run == b.run && oldGeneration == b.oldGeneration && decision == DecisionOf(b)
      && newGeneration == b.newGeneration && newGeneration != ""
    case _ => false
  }

  ghost predicate RequestsOf(b: Body, ops: seq<Op>) { forall op :: op in ops ==> RequestOf(b, op) }

  /** Every remembered run was accepted from a body, with a fresh generation. */
  ghost predicate Remembered(records: seq<RunRecord>, bodies: set<Body>) {
    forall n: nat {:trigger Ledgers(n)} :: Ledgers(n) ==>
      forall r :: r in records ==> r.oldGeneration != r.newGeneration && exists b :: b in bodies && r == RecordOf(b)
  }

  lemma {:induction false} RememberKeeps(records: seq<RunRecord>, b: Body, cap: nat, bodies: set<Body>)
    requires Remembered(records, bodies) && b in bodies && b.oldGeneration != b.newGeneration
    ensures Remembered(Remember(records, RecordOf(b), cap), bodies)
  {
    assert Ledgers(0);
    WithoutIsPart(records, b.run);
    forall r | r in Remember(records, RecordOf(b), cap)
      ensures r.oldGeneration != r.newGeneration && exists c :: c in bodies && r == RecordOf(c)
    {
      if r != RecordOf(b) { assert r in records; }
    }
  }

  lemma {:induction false} WithoutIsPart(records: seq<RunRecord>, run: string)
    ensures forall r :: r in Without(records, run) ==> r in records
  {
    if records != [] { WithoutIsPart(records[1..], run); }
  }

  class App {
    const store: ReplacementDecisionStore
    /** The bodies anyone may send. */
    ghost const bodies: set<Body>
    var accepting: bool
    /** A generation is being accepted, or has been since the last failure. */
    var required: bool
    var pending: Option<string>
    var failed: bool
    var ledger: Ledger
    var registry: Registry
    var serial: nat
    var leases: map<string, Lease>
    /** Slots given back by replacement in this process. */
    var slotsReturned: nat
    var worldFresh: bool
    var prefixReady: bool
    var loopAlive: bool
    var refreshAlive: bool
    var reconcilerAlive: bool

    /** Accepting only with no generation pending, no unsealed run and no failed task. */
    ghost predicate Valid()
      reads this, store, store.disk
    {
      && store.Valid() && ledger.cap > 0 && (!required ==> pending.None?) && "" !in leases
      && CollisionFree(bodies) && Remembered(ledger.records, bodies)
      && (accepting ==> !required && !failed && store.TransitionClosed() && store.Ready())
    }

    constructor (
      store: ReplacementDecisionStore, registry: Registry, cap: nat, mustAccept: bool, ghost bodies: set<Body>)
      requires store.Valid() && cap > 0 && CollisionFree(bodies)
      ensures this.store == store && this.bodies == bodies && Valid()
      ensures !accepting && !failed && leases == map[] && slotsReturned == 0
      ensures ledger == Ledger(registry, [], cap) && required == mustAccept
    {
      this.store, this.bodies := store, bodies;
      accepting, required, failed := false, mustAccept, false;
      pending := if mustAccept then Some(registry.generation) else None;
      ledger, this.registry, serial := Ledger(registry, [], cap), registry, registry.serial;
      leases, slotsReturned := map[], 0;
      worldFresh, prefixReady, loopAlive, refreshAlive, reconcilerAlive := *, *, true, true, true;
    }

    predicate StoreAllows()
      reads this, store
    {
      store.Ready() && store.TransitionClosed()
    }

    predicate Healthy()
      reads this
    {
      !failed && refreshAlive && reconcilerAlive
    }

    /** One sweep over the workers republishes readiness. */
    method RefreshOnce()
      requires Valid()
      modifies this`accepting
      ensures Valid()
      ensures accepting ==> worldFresh && prefixReady && !required && StoreAllows() && Healthy()
    {
      var drift: bool := *;
      if drift { accepting := false; }
      accepting := !drift && worldFresh && StoreAllows() && !required && prefixReady && Healthy();
    }

    /** A control task ended by itself: never accept again. */
    method OnTaskDone(reconciler: bool)
      requires Valid()
      modifies this`accepting, this`failed, this`prefixReady, this`reconcilerAlive
      ensures Valid() && failed && !accepting
    {
      accepting, failed := false, true;
      if reconciler { prefixReady, reconcilerAlive := false, false; }
    }

    /** Everything that may happen while an acceptance waits. */
    method Interleave()
      requires Valid()
      modifies this`accepting, this`failed, this`worldFresh, this`prefixReady, this`loopAlive
      modifies this`refreshAlive, this`reconcilerAlive
      ensures Valid() && (old(failed) ==> failed) && (required ==> !accepting)
    {
      var steps: int := *;
      for i := 0 to if steps < 0 then 0 else steps
        invariant Valid() && (old(failed) ==> failed)
      {
        var choice: int, reconciler: bool := *, *;
        if choice == 0 {
          RefreshOnce();
        } else if choice == 1 {
          OnTaskDone(reconciler);
        } else {
          worldFresh, prefixReady, loopAlive, refreshAlive, reconcilerAlive := *, *, *, *, *;
        }
      }
    }

    /** Until the tasks of the old world have ended they still take, quarantine and give back slots. */
    method StopOldWorld()
      requires Valid() && required
      modifies this`accepting, this`failed, this`worldFresh, this`prefixReady, this`loopAlive
      modifies this`refreshAlive, this`reconcilerAlive, this`leases
      ensures Valid() && (old(failed) ==> failed) && !accepting
      ensures forall op :: op in old(leases) ==> op in leases && (old(leases)[op].Released? ==> leases[op].Released?)
    {
      Interleave();
      var steps: int := *;
      for i := 0 to if steps < 0 then 0 else steps
        invariant "" !in leases
        invariant forall op :: op in old(leases) ==>
                    op in leases && (old(leases)[op].Released? ==> leases[op].Released?)
        modifies this`leases
      {
        var op: string, state: Lease := *, *;
        if op != "" && !(op in leases && leases[op].Released?) { leases := leases[op := state]; }
      }
    }

    /** The first readiness after start. */
    method Startup()
      requires Valid()
      modifies this`accepting
      ensures Valid()
    {
      accepting := Healthy() && worldFresh && StoreAllows() && !required && prefixReady;
    }

    /** Closes admission for a generation; another pending generation refuses. */
    method Begin(generation: string) returns (ok: bool)
      requires Valid()
      modifies this`accepting, this`required, this`pending
      ensures Valid() && ok == (generation != "" && !(old(required) && old(pending) != Some(generation)))
      ensures ok ==> required && pending == Some(generation) && !accepting
      ensures !ok ==> accepting == old(accepting) && required == old(required) && pending == old(pending)
    {
      if generation == "" || (required && pending != Some(generation)) { return false; }
      required, pending, accepting := true, Some(generation), false;
      return true;
    }

    /** Opens admission only when every gate is closed behind the accepted generation. */
    method Finalize(generation: string) returns (ok: bool)
      requires Valid()
      modifies this`accepting, this`required, this`pending
      ensures Valid()
      ensures ok == (old(required) && old(pending) == Some(generation) && registry.generation == generation
                     && ledger.registry == registry && worldFresh && StoreAllows() && prefixReady && loopAlive
                     && Healthy())
      ensures ok ==> accepting && !required && pending == None
      ensures !ok ==> accepting == old(accepting) && required == old(required) && pending == old(pending)
    {
      if !required || pending != Some(generation) || registry.generation != generation { return false; }
      if ledger.registry != registry || !worldFresh || !StoreAllows() || !prefixReady { return false; }
      if failed || !loopAlive || !Healthy() { return false; }
      required, pending := false, None;
      accepting := true;
      return true;
    }

    /** The acceptance call: the branch depends on the store, the ledger and the installed world. */
    method Accept(b: Body) returns (r: Result<RunRecord, AcceptError>, ops: seq<Op>)
      requires Valid() && b in bodies
      modifies this, store, store.disk
      ensures Valid() && (old(failed) ==> failed)
      ensures Leads(old(store.View()), ops, store.View(), store.limits) && RequestsOf(b, ops)
      ensures Frozen(old(store.Live()), b.run) ==>
                store.View() == old(store.View()) && slotsReturned == old(slotsReturned)
      ensures r.Ok? ==> Accepted(b, r.value) && SealFor(store.seals, b.run).Some?
    {
      if store.TransitionClosed() {
        var completed := store.ExactCompletedRun(b.run, b.oldGeneration, b.newGeneration, DecisionOf(b));
        if completed.Err? { return Err(StoreRefused(completed.error)), []; }
        if completed.value.Some? {
          if ledger.registry.generation != b.newGeneration { return Err(RetiredRun), []; }
          r := RecoverSealed(b);
          return r, [];
        }
        if ledger.records == [] && registry == ledger.registry && registry.generation == b.newGeneration {
          r, ops := RecoverCold(b);
          return;
        }
      } else if registry == ledger.registry && registry.generation == b.newGeneration {
        r, ops := RecoverUnsealed(b);
        return;
      }
      r, ops := AcceptFresh(b);
    }

    /** What a normal return means: this run is in the ledger and admission was open on a sealed store. */
    ghost predicate Accepted(b: Body, rec: RunRecord)
      reads this, store, store.disk
    {
      && rec == RecordOf(b) && Knows(ledger.records, rec)
      && accepting && !required && !failed && registry == ledger.registry && registry.generation == rec.newGeneration
    }

    /** Replays a retained completion: checks the world and rebuilds the ledger, nothing else. */
    method RecoverSealed(b: Body) returns (r: Result<RunRecord, AcceptError>)
      requires Valid() && b in bodies
      modifies this
      ensures Valid() && (old(failed) ==> failed) && slotsReturned == old(slotsReturned)
      ensures r.Ok? ==> Accepted(b, r.value)
    {
      var ok := Begin(b.newGeneration);
      if !ok { return Err(PendingConflict); }
      if registry != ledger.registry || registry.generation != b.newGeneration { return Err(WorldMismatch); }
      var matches := CheckWorld();
      if !matches { return Err(WorldMismatch); }
      r := RecoverLedger(b);
    }

    /** Compares the body with the live world and pulls fresh reports; other tasks run meanwhile. */
    method CheckWorld() returns (ok: bool)
      requires Valid()
      modifies this`accepting, this`failed, this`worldFresh, this`prefixReady, this`loopAlive
      modifies this`refreshAlive, this`reconcilerAlive
      ensures Valid() && (old(failed) ==> failed) && (required ==> !accepting)
    {
      Interleave();
      ok := *;
    }

    /** Puts the run into the process-local ledger and opens admission. */
    method RecoverLedger(b: Body) returns (r: Result<RunRecord, AcceptError>)
      requires Valid() && b in bodies
      modifies this`ledger, this`accepting, this`required, this`pending
      ensures Valid() && (r.Ok? ==> Accepted(b, r.value))
      ensures r.Err? ==> accepting == old(accepting)
    {
      var rec := RecordOf(b);
      var existing := Find(ledger.records, b.run);
      if existing.Some? && existing.value != rec { return Err(RunReused); }
      if existing.None? && (ledger.registry.generation != b.newGeneration || b.oldGeneration == b.newGeneration) {
        return Err(WorldMismatch);
      }
      assert Ledgers(0);
      RememberFinds(ledger.records, rec, ledger.cap);
      RememberKeeps(ledger.records, b, ledger.cap, bodies);
      ledger := ledger.(records := Remember(ledger.records, rec, ledger.cap));
      var ok := Finalize(b.newGeneration);
      return if ok then Ok(rec) else Err(NotFinal);
    }

    predicate NoLiveLease()
      reads this
    {
      forall op :: op in leases ==> leases[op].Released?
    }

    /** A crash came before anything local was written: an empty segment is persisted and sealed. */
    method RecoverCold(b: Body) returns (r: Result<RunRecord, AcceptError>, ops: seq<Op>)
      requires Valid() && store.TransitionClosed() && b in bodies
      modifies this, store, store.disk
      ensures Valid() && (old(failed) ==> failed) && slotsReturned == old(slotsReturned)
      ensures Leads(old(store.View()), ops, store.View(), store.limits) && RequestsOf(b, ops)
      ensures forall op :: op in ops && op.PersistBatch? ==> op.batch == []
      ensures Frozen(old(store.Live()), b.run) ==> store.View() == old(store.View())
      ensures r.Ok? ==> Accepted(b, r.value) && SealFor(store.seals, b.run).Some?
    {
      ops := [];
      var ok := Begin(b.newGeneration);
      if !ok { return Err(PendingConflict), []; }
      if b.run == "" || b.oldGeneration == "" || b.oldGeneration == b.newGeneration { return Err(BadBody), []; }
      if |store.seals| > 0 && store.seals[|store.seals| - 1].newGeneration != b.oldGeneration {
        return Err(BadBody), [];
      }
      if !NoLiveLease() { return Err(LiveLeases), []; }
      var matches := CheckWorld();
      if !matches { return Err(WorldMismatch), []; }
      var refused;
      refused, ops := PersistBatchOf([], b);
      if refused.Some? { return Err(refused.value), ops; }
      ghost var mid := store.View();
      var more;
      r, more := SealAndRecover(b);
      LeadsOn(old(store.View()), ops, mid, more, store.View(), store.limits);
      ops := ops + more;
    }

    /** A crash came between the durable records and the seal: only the seal is missing. */
    method RecoverUnsealed(b: Body) returns (r: Result<RunRecord, AcceptError>, ops: seq<Op>)
      requires Valid() && !store.TransitionClosed() && b in bodies
      modifies this, store, store.disk
      ensures Valid() && (old(failed) ==> failed) && slotsReturned == old(slotsReturned)
      ensures Leads(old(store.View()), ops, store.View(), store.limits) && RequestsOf(b, ops) && OnlyASeal(ops)
      ensures Frozen(old(store.Live()), b.run) ==> store.View() == old(store.View())
      ensures r.Ok? ==> Accepted(b, r.value) && SealFor(store.seals, b.run).Some?
    {
      var ok := Begin(b.newGeneration);
      if !ok { return Err(PendingConflict), []; }
      if store.fatal { return Err(StoreRefused(Unavailable)), []; }
      var img := Image(store.active, store.records, store.seals, store.next);
      var refusal := CheckRun(img, b.run, b.oldGeneration, DecisionOf(b));
      if refusal.Some? { return Err(StoreRefused(refusal.value)), []; }
      var matches := CheckWorld();
      if !matches { return Err(WorldMismatch), []; }
      r, ops := SealAndRecover(b);
    }

    method SealAndRecover(b: Body) returns (r: Result<RunRecord, AcceptError>, ops: seq<Op>)
      requires Valid() && required && b in bodies && b.newGeneration != ""
      modifies this, store, store.disk
      ensures Valid() && (old(failed) ==> failed) && slotsReturned == old(slotsReturned)
      ensures Leads(old(store.View()), ops, store.View(), store.limits) && RequestsOf(b, ops) && OnlyASeal(ops)
      ensures Frozen(old(store.Live()), b.run) ==> store.View() == old(store.View())
      ensures r.Ok? ==> Accepted(b, r.value) && SealFor(store.seals, b.run).Some?
    {
      var refused;
      refused, ops := SealReplacement(b);
      if refused.Some? { return Err(refused.value), ops; }
      r := RecoverLedger(b);
    }

    /** Seals the run, only with no live lease left. */
    method SealReplacement(b: Body) returns (refused: Option<AcceptError>, ops: seq<Op>)
      requires Valid() && required && b.newGeneration != ""
      modifies store, store.disk
      ensures Valid()
      ensures Leads(old(store.View()), ops, store.View(), store.limits) && RequestsOf(b, ops) && OnlyASeal(ops)
      ensures Frozen(old(store.Live()), b.run) ==> store.View() == old(store.View())
      ensures !NoLiveLease() ==> ops == [] && refused == Some(LiveLeases)
      ensures refused.None? ==> NoLiveLease() && !store.fatal && SealFor(store.seals, b.run).Some?
    {
      if !NoLiveLease() { return Some(LiveLeases), []; }
      var end: WriteEnd, secondEnd: WriteEnd := *, *;
      var op := SealRun(b.run, b.oldGeneration, b.newGeneration, DecisionOf(b), end, secondEnd);
      FrozenStays(store.View(), op, b.run, store.limits);
      var sealed := store.SealRun(b.run, b.oldGeneration, b.newGeneration, DecisionOf(b), end, secondEnd);
      LeadsOne(old(store.View()), op, store.View(), store.limits);
      return if sealed.Ok? then None else Some(StoreRefused(sealed.error)), [op];
    }

    /**
     Not a recovery: a run this process remembers and a run that does not start
     from the active world are refused with nothing done; otherwise the whole
     world is replaced now.
     */
    method AcceptFresh(b: Body) returns (r: Result<RunRecord, AcceptError>, ops: seq<Op>)
      requires Valid() && b in bodies
      modifies this, store, store.disk
      ensures Valid() && (old(failed) ==> failed)
      ensures Leads(old(store.View()), ops, store.View(), store.limits) && RequestsOf(b, ops)
      ensures Frozen(old(store.Live()), b.run) ==>
                store.View() == old(store.View()) && slotsReturned == old(slotsReturned)
      ensures var refusal := FreshRefusal(old(ledger), b);
              refusal.Some? ==>
                && r == Err(refusal.value) && ops == [] && slotsReturned == old(slotsReturned)
                && ledger == old(ledger) && accepting == old(accepting) && required == old(required)
      ensures r.Ok? ==> Accepted(b, r.value) && SealFor(store.seals, b.run).Some?
    {
      var refused := CheckFresh(b);
      if refused.Some? {
        LeadsNowhere(store.View(), store.limits);
        return Err(refused.value), [];
      }
      r, ops := StartFresh(b);
    }

    /** The checks in their order; the replay of a remembered run at the end of them is never reached. */
    method CheckFresh(b: Body) returns (refused: Option<AcceptError>)
      requires Valid() && b in bodies
      ensures refused == FreshRefusal(ledger, b)
    {
      var existing := Find(ledger.records, b.run);
      if existing.Some? { KnownRunIsNotCurrent(ledger.records, existing.value, b, bodies); }
      if b.oldGeneration != ledger.registry.generation
         || (existing.Some? && existing.value.newGeneration != ledger.registry.generation) {
        var reused := existing.Some? && existing.value.decision != DecisionOf(b);
        return Some(if reused then RunReused else UnknownReplacement);
      }
      if existing.Some? {
        if existing.value.decision != DecisionOf(b) { return Some(RunReused); }
        assert false;
      }
      return None;
    }

    method StartFresh(b: Body) returns (r: Result<RunRecord, AcceptError>, ops: seq<Op>)
      requires Valid() && b in bodies
      modifies this, store, store.disk
      ensures Valid() && (old(failed) ==> failed)
      ensures Leads(old(store.View()), ops, store.View(), store.limits) && RequestsOf(b, ops)
      ensures Frozen(old(store.Live()), b.run) ==>
                store.View() == old(store.View()) && slotsReturned == old(slotsReturned)
      ensures r.Ok? ==> Accepted(b, r.value) && SealFor(store.seals, b.run).Some?
    {
      LeadsNowhere(store.View(), store.limits);
      var bodyValid: bool := *;
      if b.newGeneration == b.oldGeneration || !bodyValid { return Err(BadBody), []; }
      var ok := Begin(b.newGeneration);
      if !ok { return Err(PendingConflict), []; }
      serial := serial + 1;
      var done, frozen;
      r, ops, done, frozen := ReplaceWorld(b, Registry(b.newGeneration, serial));
    }

    /**
     Decisions durable, then the ledger, then the slots, then the new world, then
     the seal, then admission: the first `done` of these have happened and no
     other, and all of them exactly on a normal return.
     */
    method ReplaceWorld(b: Body, candidate: Registry)
      returns (r: Result<RunRecord, AcceptError>, ops: seq<Op>, done: nat, frozen: set<string>)
      requires Valid() && required && !accepting && b in bodies && b.newGeneration != ""
      requires b.oldGeneration != b.newGeneration
      modifies this`accepting, this`failed, this`worldFresh, this`prefixReady, this`loopAlive
      modifies this`refreshAlive, this`reconcilerAlive, this`leases, this`ledger, this`slotsReturned
      modifies this`registry, this`required, this`pending, store, store.disk
      ensures Valid() && (old(failed) ==> failed)
      ensures Leads(old(store.View()), ops, store.View(), store.limits) && RequestsOf(b, ops)
      ensures done <= 6 && (r.Ok? <==> done == 6)
      ensures Frozen(old(store.Live()), b.run) ==> done == 0 && store.View() == old(store.View())
      ensures done < Position(LedgerMoved) ==> ledger == old(ledger)
      ensures done >= Position(LedgerMoved) ==>
                ledger.registry == candidate && Knows(ledger.records, RecordOf(b))
      ensures slotsReturned == old(slotsReturned) + if done >= Position(SlotsReturned) then |frozen| else 0
      ensures done > 0 ==> frozen <= b.excluded
      ensures NotGivenBack(frozen, old(leases))
      ensures done >= Position(SlotsReturned) ==> NoLiveLease()
      ensures registry == if done >= Position(WorldInstalled) then candidate else old(registry)
      ensures done >= Position(RunSealed) ==> SealFor(store.seals, b.run).Some?
      ensures done < Position(AdmissionOpened) ==> !accepting
      ensures r.Ok? ==> Accepted(b, r.value)
    {
      var refused;
      refused, ops, done, frozen := MoveWorld(b, candidate);
      if refused.Some? { return Err(refused.value), ops, done, frozen; }
      ghost var mid, view := old(store.View()), store.View();
      var more, published;
      r, more, published := Publish(b, candidate);
      LeadsOn(mid, ops, view, more, store.View(), store.limits);
      ops, done := ops + more, 3 + published;
    }

    /** Stops the old world: every live lease must be named by the body, and is quarantined. */
    method FreezeLeases(b: Body) returns (refused: Option<AcceptError>, frozen: set<string>)
      requires Valid() && required
      modifies this`accepting, this`failed, this`worldFresh, this`prefixReady, this`loopAlive
      modifies this`refreshAlive, this`reconcilerAlive, this`leases
      ensures Valid() && (old(failed) ==> failed) && !accepting && "" !in frozen
      ensures NotGivenBack(frozen, old(leases))
      ensures refused.None? ==> frozen == HeldLeases()
      ensures refused.None? ==> frozen <= b.excluded
      ensures refused.None? ==> forall op :: op in frozen ==> op in leases && leases[op].Quarantined?
    {
      StopOldWorld();
      frozen := HeldLeases();
      if !(frozen <= b.excluded) { return Some(BadBody), frozen; }
      var taken := CheckWorld();
      if !taken { return Some(WaitFailed), frozen; }
      leases := map op | op in leases :: if op in frozen then Quarantined else leases[op];
      return None, frozen;
    }

    /** The first three effects: `done` counts how many happened. */
    method MoveWorld(b: Body, candidate: Registry)
      returns (refused: Option<AcceptError>, ops: seq<Op>, done: nat, frozen: set<string>)
      requires Valid() && required && !accepting && b in bodies && b.oldGeneration != b.newGeneration
      modifies this`accepting, this`failed, this`worldFresh, this`prefixReady, this`loopAlive
      modifies this`refreshAlive, this`reconcilerAlive, this`leases, this`ledger, this`slotsReturned, store, store.disk
      ensures Valid() && (old(failed) ==> failed) && !accepting
      ensures Leads(old(store.View()), ops, store.View(), store.limits) && RequestsOf(b, ops)
      ensures done <= 3 && (refused.None? <==> done == 3)
      ensures Frozen(old(store.Live()), b.run) ==> done == 0 && store.View() == old(store.View())
      ensures done < 2 ==> ledger == old(ledger)
      ensures done >= 2 ==> ledger.registry == candidate && Knows(ledger.records, RecordOf(b))
      ensures slotsReturned == old(slotsReturned) + if done == 3 then |frozen| else 0
      ensures done > 0 ==> frozen <= b.excluded
      ensures NotGivenBack(frozen, old(leases))
      ensures done == 3 ==> NoLiveLease()
    {
      var records;
      refused, frozen := FreezeLeases(b);
      if refused.Some? { return refused, [], 0, frozen; }
      records, refused, ops := PersistDecisions(frozen, b);
      if refused.Some? { return refused, ops, 0, frozen; }
      var committed := Commit(b, candidate);
      if !committed { return Some(WorldMismatch), ops, 1, frozen; }
      ReleaseSlots(records, frozen);
      done := 3;
    }

    function HeldLeases(): set<string>
      reads this
    {
      set op | op in leases && !leases[op].Released?
    }

    /** Persists a batch for this body; a run with an empty id is refused before anything is written. */
    method PersistBatchOf(records: seq<Record>, b: Body) returns (refused: Option<AcceptError>, ops: seq<Op>)
      requires Valid() && required && b in bodies
      requires forall rec :: rec in records ==> rec.operationId != "" && rec == RecordFor(rec.operationId, b)
      modifies store, store.disk
      ensures Valid()
      ensures Leads(old(store.View()), ops, store.View(), store.limits) && RequestsOf(b, ops)
      ensures forall op :: op in ops ==> op.PersistBatch? && op.batch == records
      ensures Frozen(old(store.Live()), b.run) ==> refused.Some? && store.View() == old(store.View())
      ensures refused.None? ==> !store.fatal && forall i :: 0 <= i < |records| ==>
                records[i].Key() in store.records && store.records[records[i].Key()] == records[i]
    {
      var end: WriteEnd := *;
      var op := PersistBatch(records, b.run, b.oldGeneration, DecisionOf(b), end);
      FrozenStays(store.View(), op, b.run, store.limits);
      EmptyRunStays(store.View(), op, store.limits);
      var stored := store.PersistRecords(records, b.run, b.oldGeneration, DecisionOf(b), end);
      LeadsOne(old(store.View()), op, store.View(), store.limits);
      refused := if stored.Ok? then None else Some(StoreRefused(stored.error));
      ops := if b.run != "" then [op] else [];
    }

    /** Every decision of the old world in one durable batch; a frozen run is refused here. */
    method PersistDecisions(ids: set<string>, b: Body)
      returns (records: seq<Record>, refused: Option<AcceptError>, ops: seq<Op>)
      requires Valid() && required && b in bodies && "" !in ids
      modifies store, store.disk
      ensures Valid()
      ensures Leads(old(store.View()), ops, store.View(), store.limits) && RequestsOf(b, ops)
      ensures Frozen(old(store.Live()), b.run) ==> refused.Some? && store.View() == old(store.View())
      ensures refused.None? ==> !store.fatal && (forall op :: op in ids ==> HasRecord(records, op))
      ensures refused.None? ==> forall i :: 0 <= i < |records| ==>
                records[i].Key() in store.records && store.records[records[i].Key()] == records[i]
    {
      records := RecordsFor(ids, b);
      refused, ops := PersistBatchOf(records, b);
    }

    /** Installs the new world, seals the run and opens admission; `done` counts how many of the three happened. */
    method Publish(b: Body, candidate: Registry) returns (r: Result<RunRecord, AcceptError>, ops: seq<Op>, done: nat)
      requires Valid() && required && Knows(ledger.records, RecordOf(b)) && ledger.registry == candidate
      requires b.newGeneration != "" && !accepting
      modifies this`accepting, this`failed, this`worldFresh, this`prefixReady, this`loopAlive
      modifies this`refreshAlive, this`reconcilerAlive, this`registry, this`required, this`pending, store, store.disk
      ensures Valid() && (old(failed) ==> failed)
      ensures Leads(old(store.View()), ops, store.View(), store.limits) && RequestsOf(b, ops)
      ensures done <= 3 && (r.Ok? <==> done == 3) && (done < 3 ==> !accepting)
      ensures registry == if done >= 1 then candidate else old(registry)
      ensures done >= 2 ==> SealFor(store.seals, b.run).Some?
      ensures r.Ok? ==> Accepted(b, r.value)
    {
      var rebuilt := CheckWorld();
      if !rebuilt { return Err(WaitFailed), [], 0; }
      registry := candidate;
      var pulled := CheckWorld();
      if !pulled { return Err(WaitFailed), [], 1; }
      r, ops, done := SealAndOpen(b);
      done := done + 1;
    }

    /** Seals the run and opens admission on the installed world. */
    method SealAndOpen(b: Body) returns (r: Result<RunRecord, AcceptError>, ops: seq<Op>, done: nat)
      requires Valid() && required && Knows(ledger.records, RecordOf(b)) && ledger.registry == registry
      requires b.newGeneration != "" && !accepting
      modifies this`accepting, this`failed, this`worldFresh, this`prefixReady, this`loopAlive
      modifies this`refreshAlive, this`reconcilerAlive, this`required, this`pending, store, store.disk
      ensures Valid() && (old(failed) ==> failed)
      ensures Leads(old(store.View()), ops, store.View(), store.limits) && RequestsOf(b, ops)
      ensures done <= 2 && (r.Ok? <==> done == 2) && (done < 2 ==> !accepting)
      ensures done >= 1 ==> SealFor(store.seals, b.run).Some? && NoLiveLease()
      ensures r.Ok? ==> Accepted(b, r.value)
    {
      var refused;
      refused, ops := SealReplacement(b);
      if refused.Some? { return Err(refused.value), ops, 0; }
      var pulled := CheckWorld();
      if !pulled { return Err(WaitFailed), ops, 1; }
      var ok := Finalize(b.newGeneration);
      if !ok { return Err(NotFinal), ops, 1; }
      return Ok(RecordOf(b)), ops, 2;
    }

    /** The ledger moves to the candidate world, unless another run moved it meanwhile. */
    method Commit(b: Body, candidate: Registry) returns (ok: bool)
      requires Valid() && b in bodies && b.oldGeneration != b.newGeneration
      modifies this`ledger
      ensures Valid() && (ok ==> Knows(ledger.records, RecordOf(b)) && ledger.registry == candidate)
      ensures !ok ==> ledger == old(ledger)
    {
      var rec := RecordOf(b);
      var existing := Find(ledger.records, b.run);
      if existing.Some? { return existing.value == rec && ledger.registry == candidate; }
      if ledger.registry.generation != b.oldGeneration || candidate.generation != b.newGeneration { return false; }
      RememberFinds(ledger.records, rec, ledger.cap);
      RememberKeeps(ledger.records, b, ledger.cap, bodies);
      ledger := Ledger(candidate, Remember(ledger.records, rec, ledger.cap), ledger.cap);
      return true;
    }

    /** Slots go back once each: for quarantined leases only, and only where the decision is already durable. */
    method ReleaseSlots(records: seq<Record>, ids: set<string>)
      requires Valid() && !store.fatal
      requires forall i :: 0 <= i < |records| ==>
                 records[i].Key() in store.records && store.records[records[i].Key()] == records[i]
      requires forall op :: op in ids ==> HasRecord(records, op) && op in leases && leases[op].Quarantined?
      modifies this`leases, this`slotsReturned
      ensures Valid() && slotsReturned == old(slotsReturned) + |ids|
      ensures leases.Keys == old(leases).Keys
      ensures forall op :: op in leases ==> leases[op] == if op in ids then Released else old(leases)[op]
    {
      leases := map op | op in leases :: if op in ids then Released else leases[op];
      slotsReturned := slotsReturned + |ids|;
    }
  }

  ghost predicate NotGivenBack(ids: set<string>, leases: map<string, Lease>) {
    forall op :: op in ids && op in leases ==> !leases[op].Released?
  }

  /** A remembered run is reused with other evidence or unknown; any other must start from the active world. */
  function FreshRefusal(ledger: Ledger, b: Body): Option<AcceptError> {
    var existing := Find(ledger.records, b.run);
    if existing.Some? then Some(if existing.value.decision != DecisionOf(b) then RunReused else UnknownReplacement)
    else if b.oldGeneration != ledger.registry.generation then Some(UnknownReplacement)
    else None
  }

  predicate OnlyASeal(ops: seq<Op>) { |ops| <= 1 && forall i :: 0 <= i < |ops| ==> ops[i].SealRun? }

  /**
   A remembered run with the same evidence does not start from the world it led
   to, so it never reaches the code that would replay it from the ledger.
   */
  lemma KnownRunIsNotCurrent(records: seq<RunRecord>, rec: RunRecord, b: Body, bodies: set<Body>)
    requires CollisionFree(bodies) && Remembered(records, bodies) && b in bodies && rec in records
    ensures rec.decision == DecisionOf(b) ==> rec == RecordOf(b) && b.oldGeneration != rec.newGeneration
  {
    assert Ledgers(0);
    if rec.decision == DecisionOf(b) {
      var c :| c in bodies && rec == RecordOf(c);
      assert c == b;
    }
  }

  /** The store refuses a batch of a run without an id. */
  lemma EmptyRunStays(w: World, op: Op, limits: Limits)
    requires op.PersistBatch?
    ensures op.run == "" ==> Step(w, op, limits) == w
  {
  }

  /** A process serving accept calls between which anything else runs; a failed one never accepts again. */
  method Serve(app: App, bodies: seq<Body>)
    requires app.Valid() && forall b :: b in bodies ==> b in app.bodies
    modifies app, app.store, app.store.disk
    ensures app.Valid() && (old(app.failed) ==> app.failed && !app.accepting)
  {
    app.Startup();
    for n := 0 to |bodies|
      invariant app.Valid() && (old(app.failed) ==> app.failed)
    {
      app.Interleave();
      var _, _ := app.Accept(bodies[n]);
    }
  }

  // ---------------------------------------------------------------------
  // Gateway lives
  // ---------------------------------------------------------------------

  /** One accept call in a history of store operations: it made those from `from` up to `to`. */
  datatype Call = Call(body: Body, from: nat, to: nat, slots: nat, accepted: bool)

  function BodiesOf(calls: seq<Call>): (r: seq<Body>)
    ensures |r| == |calls| && forall i :: 0 <= i < |r| ==> r[i] == calls[i].body
  {
    seq(|calls|, i requires 0 <= i < |calls| => calls[i].body)
  }

  ghost function StoredAt(ops: seq<Op>, n: nat, limits: Limits): Durable
    requires n <= |ops|
  {
    Run(ops[..n], limits).durable
  }

  /**
   A call about a run whose seal is on disk writes nothing and gives back no
   slot; an accepted call leaves the seal of its run on disk.
   */
  ghost predicate CallIsSound(c: Call, ops: seq<Op>, limits: Limits) {
    && c.from <= c.to <= |ops|
    && (SealFor(StoredAt(ops, c.from, limits).image.seals, c.body.run).Some? ==>
          StoredAt(ops, c.to, limits) == StoredAt(ops, c.from, limits) && c.slots == 0)
    && (c.accepted ==> SealFor(StoredAt(ops, c.to, limits).image.seals, c.body.run).Some?)
  }

  lemma CallStaysSound(c: Call, ops: seq<Op>, more: seq<Op>, limits: Limits)
    requires CallIsSound(c, ops, limits)
    ensures CallIsSound(c, ops + more, limits)
  {
    assert (ops + more)[..c.from] == ops[..c.from] && (ops + more)[..c.to] == ops[..c.to];
  }

  /** Every operation is a crash, a reopening or a request some body asked for. */
  ghost predicate AllAsked(ops: seq<Op>, bodies: set<Body>) {
    forall op :: op in ops ==> op.Crash? || op.Reopen? || exists b :: b in bodies && RequestOf(b, op)
  }

  lemma AskedAreWellFormed(ops: seq<Op>, bodies: set<Body>)
    requires AllAsked(ops, bodies)
    ensures forall i :: 0 <= i < |ops| ==> WellFormedOp(ops[i])
  {
    forall i | 0 <= i < |ops| ensures WellFormedOp(ops[i]) {
      assert ops[i] in ops;
      if ops[i].PersistBatch? {
        var b :| b in bodies && RequestOf(b, ops[i]);
        forall r | r in ops[i].batch ensures WellFormedRecord(r) { assert r == RecordFor(r.operationId, b); }
      }
    }
  }

  ghost predicate SoundSoFar(ops: seq<Op>, calls: seq<Call>, bodies: set<Body>, limits: Limits) {
    AllAsked(ops, bodies) && forall c :: c in calls ==> CallIsSound(c, ops, limits)
  }

  lemma SoundOn(ops: seq<Op>, calls: seq<Call>, more: seq<Op>, bodies: set<Body>, limits: Limits)
    requires SoundSoFar(ops, calls, bodies, limits) && AllAsked(more, bodies)
    ensures SoundSoFar(ops + more, calls, bodies, limits)
  {
    forall c | c in calls ensures CallIsSound(c, ops + more, limits) { CallStaysSound(c, ops, more, limits); }
  }

  /**
   Any number of Gateway lives over one disk, each serving any calls. The file is
   always what the history of their store requests, crashes and reopenings says,
   so every result about such histories holds of it, and every call is sound.
   */
  method Lives(limits: Limits, worlds: seq<Registry>, lives: seq<seq<Body>>, ghost bodies: set<Body>)
    returns (disk: Disk, ops: seq<Op>, calls: seq<Call>)
    requires limits.Valid() && |worlds| == |lives| && CollisionFree(bodies)
    requires forall n, b :: 0 <= n < |lives| && b in lives[n] ==> b in bodies
    ensures fresh(disk) && disk.Valid() && disk.State() == Run(ops, limits).durable
    ensures SoundSoFar(ops, calls, bodies, limits) && BodiesOf(calls) == Flat(lives)
    ensures Inv(Run(ops, limits), limits)
  {
    disk := new Disk();
    ops, calls := [], [];
    for n := 0 to |lives|
      invariant fresh(disk) && disk.Valid() && disk.State() == Run(ops, limits).durable
      invariant SoundSoFar(ops, calls, bodies, limits) && BodiesOf(calls) == Flat(lives[..n])
    {
      assert lives[..n + 1][..n] == lives[..n];
      ops, calls := OneLife(disk, limits, worlds[n], lives[n], bodies, ops, calls);
    }
    assert lives[..|lives|] == lives;
    AskedAreWellFormed(ops, bodies);
    EveryRunKeepsInv(ops, limits);
  }

  ghost function Flat(lives: seq<seq<Body>>): seq<Body> {
    if lives == [] then [] else Flat(lives[..|lives| - 1]) + lives[|lives| - 1]
  }

  /** One process: opens the store, serves calls between which anything runs, and dies. */
  method OneLife(
    disk: Disk, limits: Limits, world: Registry, served: seq<Body>, ghost bodies: set<Body>,
    ops0: seq<Op>, calls0: seq<Call>)
    returns (ops: seq<Op>, calls: seq<Call>)
    requires limits.Valid() && disk.Valid() && CollisionFree(bodies) && forall b :: b in served ==> b in bodies
    requires disk.State() == Run(ops0, limits).durable && SoundSoFar(ops0, calls0, bodies, limits)
    modifies disk
    ensures disk.Valid() && disk.State() == Run(ops, limits).durable && SoundSoFar(ops, calls, bodies, limits)
    ensures BodiesOf(calls) == BodiesOf(calls0) + served
  {
    var end: WriteEnd, mustAccept: bool := *, *;
    ops, calls := ops0 + [Reopen(end)], calls0;
    SoundOn(ops0, calls0, [Reopen(end)], bodies, limits);
    RunNext(ops0, Reopen(end), limits);
    var store := new ReplacementDecisionStore(disk, limits, end);
    StepIgnoresBookkeeping(Run(ops0, limits), Reopen(end), limits);
    var app := new App(store, world, 4096, mustAccept, bodies);
    app.Startup();
    ops, calls := ServeCalls(app, served, ops, calls);
    RunNext(ops, Crash, limits);
    SoundOn(ops, calls, [Crash], bodies, limits);
    ops := ops + [Crash];
  }

  method ServeCalls(app: App, served: seq<Body>, ops0: seq<Op>, calls0: seq<Call>)
    returns (ops: seq<Op>, calls: seq<Call>)
    requires app.Valid() && Mirrors(app.store.View(), ops0, app.store.limits)
    requires forall b :: b in served ==> b in app.bodies
    requires SoundSoFar(ops0, calls0, app.bodies, app.store.limits)
    modifies app, app.store, app.store.disk
    ensures app.Valid() && Mirrors(app.store.View(), ops, app.store.limits)
    ensures SoundSoFar(ops, calls, app.bodies, app.store.limits)
    ensures BodiesOf(calls) == BodiesOf(calls0) + served
  {
    ops, calls := ops0, calls0;
    for i := 0 to |served|
      invariant app.Valid() && Mirrors(app.store.View(), ops, app.store.limits)
      invariant SoundSoFar(ops, calls, app.bodies, app.store.limits)
      invariant BodiesOf(calls) == BodiesOf(calls0) + served[..i]
    {
      var held: map<string, Lease> := *;
      if "" !in held { app.leases := held; }
      app.Interleave();
      assert served[..i + 1] == served[..i] + [served[i]];
      ops, calls := OneCall(app, served[i], ops, calls);
    }
    assert served[..|served|] == served;
  }

  /** The running store is where this history of operations leads. */
  ghost predicate Mirrors(view: World, ops: seq<Op>, limits: Limits) {
    view.durable == Run(ops, limits).durable && view.live == Run(ops, limits).live
  }

  lemma RunNext(ops: seq<Op>, op: Op, limits: Limits)
    ensures Run(ops + [op], limits) == Step(Run(ops, limits), op, limits)
  {
    assert (ops + [op])[..|ops|] == ops;
  }

  /** What a stretch of operations does to the running store it does to the history. */
  lemma MirrorsOn(view: World, ops: seq<Op>, more: seq<Op>, view': World, limits: Limits)
    requires Mirrors(view, ops, limits) && Leads(view, more, view', limits)
    ensures Mirrors(view', ops + more, limits)
  {
    assert Unfolding(0);
    RunIsSteps(ops, limits);
    RunIsSteps(ops + more, limits);
    StepsConcat(INITIAL, ops, more, limits);
    LeadsAlike(Run(ops, limits), view, more, limits);
  }

  method OneCall(app: App, b: Body, ops0: seq<Op>, calls0: seq<Call>) returns (ops: seq<Op>, calls: seq<Call>)
    requires app.Valid() && b in app.bodies && Mirrors(app.store.View(), ops0, app.store.limits)
    requires SoundSoFar(ops0, calls0, app.bodies, app.store.limits)
    modifies app, app.store, app.store.disk
    ensures app.Valid() && Mirrors(app.store.View(), ops, app.store.limits)
    ensures SoundSoFar(ops, calls, app.bodies, app.store.limits)
    ensures BodiesOf(calls) == BodiesOf(calls0) + [b]
  {
    ghost var limits := app.store.limits;
    ghost var view := app.store.View();
    var before := app.slotsReturned;
    var r, more := app.Accept(b);
    ops := ops0 + more;
    var slots := if app.slotsReturned >= before then app.slotsReturned - before else 0;
    var c := Call(b, |ops0|, |ops|, slots, r.Ok?);
    calls := calls0 + [c];
    MirrorsOn(view, ops0, more, app.store.View(), limits);
    AskedByOne(b, more, app.bodies);
    SoundOn(ops0, calls0, more, app.bodies, limits);
    AskedAreWellFormed(ops, app.bodies);
    assert CallIsSound(c, ops, limits) by {
      assert ops[..|ops0|] == ops0 && ops[..|ops|] == ops;
      LiveIsStored(ops0, app.bodies, limits);
      LiveIsStored(ops, app.bodies, limits);
    }
  }

  /** What repeated accept calls of a sealed run may leave on disk: the same seals, and no record added. */
  ghost predicate SameSeals(before: Durable, after: Durable) {
    && after.image.seals == before.image.seals && after.image.next == before.image.next
    && (after.image.records == before.image.records || after.image.records == map[])
    && (!HalfSealed(before.image) ==> after.image == before.image)
  }

  lemma ReopenKeepsSeals(w: World, end: WriteEnd, limits: Limits)
    ensures SameSeals(w.durable, StepReopen(w, end, limits).durable)
  {
  }

  /**
   Gateway crashes and accept replies are lost any number of times. While the
   run's seal is on disk, no life of the Gateway that serves repeats of its body
   persists a record or seals again; at most a reopening finishes the seal that
   was there.
   */
  lemma {:induction false} RepeatAfterSeal(ops: seq<Op>, more: seq<Op>, b: Body, bodies: set<Body>, limits: Limits)
    requires limits.Valid() && b in bodies && AllAsked(ops, bodies) && AllAsked(more, {b})
    requires SealFor(Run(ops, limits).durable.image.seals, b.run).Some?
    ensures SameSeals(Run(ops, limits).durable, Run(ops + more, limits).durable)
    decreases |more|
  {
    if more == [] {
      assert ops + more == ops;
    } else {
      var n := |more| - 1;
      var before, op := ops + more[..n], more[n];
      assert ops + more == before + [op];
      RepeatAfterSeal(ops, more[..n], b, bodies, limits);
      LiveIsStored(before, bodies, limits);
      RunNext(before, op, limits);
      var w := Run(before, limits);
      if op.Reopen? {
        ReopenKeepsSeals(w, op.end, limits);
      } else if !op.Crash? {
        assert op in more && RequestOf(b, op);
        FrozenStays(w, op, b.run, limits);
      }
    }
  }

  lemma AskedByOne(b: Body, ops: seq<Op>, bodies: set<Body>)
    requires b in bodies && RequestsOf(b, ops)
    ensures AllAsked(ops, bodies)
  {
  }

  lemma LiveIsStored(ops: seq<Op>, bodies: set<Body>, limits: Limits)
    requires limits.Valid() && AllAsked(ops, bodies)
    ensures var w := Run(ops, limits); w.live.Some? ==> w.live.value == w.durable.image
  {
    AskedAreWellFormed(ops, bodies);
    EveryRunKeepsInv(ops, limits);
  }

  /** The running store refuses everything, or retains the seal of this run. */
  ghost predicate Frozen(live: Option<Image>, run: string) {
    live.None? || SealFor(live.value.seals, run).Some?
  }

  /** No request about a frozen run changes memory or disk. */
  lemma FrozenStays(w: World, op: Op, run: string, limits: Limits)
    requires match op
             case Persist(rec, _, _) => rec.runId == run
             case PersistBatch(_, r, _, _, _) => r == run
             case SealRun(r, _, _, _, _, _) => r == run
             case Crash => false
             case Reopen(_) => false
    ensures Frozen(w.live, run) ==> Step(w, op, limits) == w
  {
  }

  ghost predicate HasRecord(records: seq<Record>, op: string) {
    exists i :: 0 <= i < |records| && records[i].operationId == op
  }

  function RecordFor(op: string, b: Body): Record {
    Record("replacement:" + b.run + ":" + op, b.run, "sha256:" + op, op, "lease:" + op, ["DECODE_SLOT"], DecisionOf(b))
  }

  /** One decision per lease of the old world. */
  method RecordsFor(ops: set<string>, b: Body) returns (records: seq<Record>)
    ensures forall op :: op in ops ==> HasRecord(records, op)
    ensures forall i :: 0 <= i < |records| ==>
              records[i].operationId in ops && records[i] == RecordFor(records[i].operationId, b)
  {
    records := [];
    var left := ops;
    while left != {}
      invariant left <= ops
      invariant forall op :: op in ops && op !in left ==> HasRecord(records, op)
      invariant forall i :: 0 <= i < |records| ==>
                  records[i].operationId in ops && records[i] == RecordFor(records[i].operationId, b)
      decreases left
    {
      var op :| op in left;
      HasRecordNext(records, RecordFor(op, b));
      records := records + [RecordFor(op, b)];
      left := left - {op};
    }
  }

  lemma HasRecordNext(records: seq<Record>, rec: Record)
    ensures forall op :: HasRecord(records, op) || op == rec.operationId ==> HasRecord(records + [rec], op)
  {
    var longer := records + [rec];
    forall op | HasRecord(records, op) || op == rec.operationId ensures HasRecord(longer, op) {
      if op == rec.operationId {
        assert longer[|records|].operationId == op;
      } else {
        var i :| 0 <= i < |records| && records[i].operationId == op;
        assert longer[i].operationId == op;
      }
    }
  }
}
