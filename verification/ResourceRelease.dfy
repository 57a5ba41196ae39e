/**
 The cleanup of a request over the network: abort every endpoint ref that may
 have reached a worker, read each back, have the workers give up what they still
 hold, and only then return the decode slot. The plan of the first reading is
 kept for later calls.
 */
module ResourceRelease {
  import opened OperationRegistry
  import opened SlotLease
  import opened Wrappers

  datatype Status = Prepared | Running | Unknown | Completed | Fenced {
    predicate Terminal() { Completed? || Fenced? }
  }

  /** What an exact query of a ref brings. */
  datatype Reading = Lost | Reading(status: Status, held: bool) {
    predicate Ended() { Reading? && status.Terminal() }
    predicate Holds() { Reading? && held }
  }

  /** What other tasks do while a call waits. */
  datatype Happening = Uses(call: Call) | ReleasesElsewhere

  /**
   What the workers answer to one cleanup call, and what other tasks do meanwhile.
   `room` says whether the evaluator may take on another cleanup.
   */
  datatype Script = Script(aborting: Candidate -> seq<Happening>,
                           asking: Candidate -> (seq<Happening>, Reading),
                           finalizing: string -> (seq<Happening>, bool), room: bool)

  /** All refs are over, all workers acknowledge and nobody else touches the slot. */
  ghost predicate Cooperative(s: Script) {
    && s.room
    && (forall c :: Undisturbed(s.aborting(c)))
    && (forall c :: s.asking(c).1.Ended() && Undisturbed(s.asking(c).0))
    && (forall i :: s.finalizing(i).1 && Undisturbed(s.finalizing(i).0))
  }

  predicate Undisturbed(hs: seq<Happening>) { forall i :: 0 <= i < |hs| ==> hs[i].Uses? }

  ghost predicate Acknowledge(workers: set<string>, s: Script) { forall i :: i in workers ==> s.finalizing(i).1 }

  datatype Planned = Planned(candidate: Candidate, held: bool)

  /** The workers that must acknowledge. */
  function Holders(plan: set<Planned>): set<string> { set p | p in plan && p.held :: p.candidate.instance }

  ghost function HeldOn(plan: set<Planned>, workers: set<string>): set<Candidate> {
    set p | p in plan && p.held && p.candidate.instance in workers :: p.candidate
  }

  ghost function Readings(cs: set<Candidate>, s: Script): set<Planned> {
    set c | c in cs :: Planned(c, s.asking(c).1.Holds())
  }

  ghost function HeldAfter(cs: set<Candidate>, s: Script, before: set<Candidate>): set<Candidate> {
    (before - cs) + set c | c in cs && s.asking(c).1.Holds()
  }

  ghost predicate AllEnded(plan: set<Planned>, ended: set<Candidate>) {
    forall p :: p in plan ==> p.candidate in ended
  }

  datatype Outcome = Done | NotYet | Raised

  class RequestCleanup {
    const operation: string
    const control: NetworkControl
    /** Refs drawn for this request and others, filed or not. */
    var drawn: seq<Ref>
    var lease: Lease
    var releasedHere: bool
    var plan: Option<set<Planned>>
    var acked: set<string>
    var active: bool
    /** Refs some query found over, those whose last reading showed resources, those given up on request. */
    ghost var ended: set<Candidate>
    ghost var holding: set<Candidate>
    ghost var finalized: set<Candidate>
    /** The plan on which the slot was returned. */
    ghost var agreed: set<Planned>

    /** The slot is returned last: every planned ref was read back ended and every holder acknowledged. */
    ghost predicate Valid()
      reads this, control
    {
      && Kept(control, drawn)
      && (plan.Some? ==> plan.value != {} && AllEnded(plan.value, ended))
      && (releasedHere ==> lease.Released? && SlotLast())
      && (!releasedHere && plan.None? ==> acked == {})
      && (!releasedHere ==> finalized == HeldOn(Plan(), acked))
    }

    ghost function Plan(): set<Planned>
      reads this
    {
      if plan.Some? then plan.value else {}
    }

    ghost predicate SlotLast()
      reads this
    {
      agreed != {} && AllEnded(agreed, ended) && finalized == HeldOn(agreed, Holders(agreed))
    }

    /** Nothing of this ref is left on its worker. */
    ghost predicate Settled(c: Candidate)
      reads this
    {
      c in ended && (c in holding ==> c in finalized)
    }

    constructor (operation: string, control: NetworkControl, drawn: seq<Ref>, lease: Lease)
      requires Kept(control, drawn)
      ensures Valid() && this.operation == operation && this.control == control && this.lease == lease
      ensures !releasedHere && plan.None? && ended == {}
    {
      this.operation, this.control, this.drawn, this.lease := operation, control, drawn, lease;
      releasedHere, plan, acked, active := false, None, {}, false;
      ended, holding, finalized, agreed := {}, {}, {}, {};
    }

    /** The ref dispatched to the prefill worker, if there is one. */
    function Sent(dispatched: Option<nat>): Option<Candidate>
      reads this
    {
      if dispatched.Some? && dispatched.value < |drawn|
      then Some(Candidate(drawn[dispatched.value].target, drawn[dispatched.value])) else None
    }

    ghost function Candidates(dispatched: Option<nat>): set<Candidate>
      reads this, control
    {
      control.Candidates(operation, Sent(dispatched))
    }

    /** Other tasks use the registry, and may return the slot; only after that is the operation retired. */
    method Await(hs: seq<Happening>)
      requires Valid()
      modifies this`drawn, this`lease, control
      ensures Valid()
      ensures lease == if Undisturbed(hs) then old(lease) else Released
    {
      for i := 0 to |hs|
        invariant Valid()
        invariant lease == if forall j :: 0 <= j < i ==> hs[j].Uses? then old(lease) else Released
      {
        match hs[i]
        case Uses(call) =>
          if call != Retires(operation) || lease.Released? { drawn := Perform(control, call, drawn); }
        case ReleasesElsewhere => lease := Released;
      }
    }

    /** The endpoints to visit; no two share a worker and a number, so all candidates are among them. */
    method Visited(dispatched: Option<nat>) returns (cs: set<Candidate>)
      requires Valid()
      ensures cs == Candidates(dispatched)
    {
      var visits := control.CleanupCandidates(operation, Sent(dispatched));
      assert control.AllOwn(operation, Sent(dispatched));
      cs := set p | p in visits :: Candidate(p.0, visits[p]);
      forall c | c in Candidates(dispatched) ensures c in cs {
        assert Visits(visits, c);
        assert c == Candidate(c.Slot().0, visits[c.Slot()]);
      }
    }

    /** The replies do not matter: only the query afterwards decides. */
    method AbortAll(cs: set<Candidate>, s: Script)
      requires Valid()
      modifies this`drawn, this`lease, control
      ensures Valid()
      ensures Cooperative(s) ==> lease == old(lease)
    {
      var left := cs;
      while left != {}
        invariant Valid()
        invariant Cooperative(s) ==> lease == old(lease)
        decreases left
      {
        var c :| c in left;
        Await(s.aborting(c));
        left := left - {c};
      }
    }

    method AskOne(c: Candidate, s: Script) returns (ok: bool)
      requires Valid()
      modifies this`drawn, this`lease, this`ended, this`holding, control
      ensures Valid() && ok == s.asking(c).1.Ended()
      ensures ended == if ok then old(ended) + {c} else old(ended)
      ensures holding == if ok then HeldAfter({c}, s, old(holding)) else old(holding)
      ensures Cooperative(s) ==> lease == old(lease)
    {
      var (meanwhile, reading) := s.asking(c);
      Await(meanwhile);
      ok := reading.Ended();
      if ok {
        ended := ended + {c};
        holding := if reading.Holds() then holding + {c} else holding - {c};
      }
    }

    /** Queries every candidate until one is not over. */
    method ReadAll(cs: set<Candidate>, s: Script) returns (ok: bool)
      requires Valid()
      modifies this`drawn, this`lease, this`ended, this`holding, control
      ensures Valid() && ended <= old(ended) + cs
      ensures ok <==> forall c :: c in cs ==> s.asking(c).1.Ended()
      ensures ok ==> ended == old(ended) + cs && holding == HeldAfter(cs, s, old(holding))
      ensures Cooperative(s) ==> lease == old(lease)
    {
      var left, read := cs, {};
      while left != {}
        invariant Valid() && left + read == cs
        invariant forall c :: c in read ==> s.asking(c).1.Ended()
        invariant ended == old(ended) + read && holding == HeldAfter(read, s, old(holding))
        invariant Cooperative(s) ==> lease == old(lease)
        decreases left
      {
        var c :| c in left;
        var over := AskOne(c, s);
        if !over { return false; }
        HeldAfterNext(read, c, s, old(holding));
        left, read := left - {c}, read + {c};
      }
      return true;
    }

    method FinalizeOne(i: string, s: Script) returns (ok: bool)
      requires Valid() && !releasedHere && plan.Some?
      modifies this`drawn, this`lease, this`acked, this`finalized, control
      ensures Valid() && ok == s.finalizing(i).1
      ensures acked == if ok then old(acked) + {i} else old(acked)
      ensures Cooperative(s) ==> lease == old(lease)
    {
      var (meanwhile, acknowledged) := s.finalizing(i);
      Await(meanwhile);
      ok := acknowledged;
      if ok { acked, finalized := acked + {i}, finalized + HeldOn(plan.value, {i}); }
    }

    /** Asks each holder that has not acknowledged yet. */
    method FinalizeAll(s: Script) returns (ok: bool)
      requires Valid() && !releasedHere && plan.Some?
      modifies this`drawn, this`lease, this`acked, this`finalized, control
      ensures Valid() && old(acked) <= acked
      ensures ok ==> Holders(plan.value) <= acked
      ensures Acknowledge(Holders(plan.value) - old(acked), s) == ok
      ensures Cooperative(s) ==> lease == old(lease)
    {
      var holders := Holders(plan.value);
      var left := holders - acked;
      while left != {}
        invariant Valid() && old(acked) <= acked
        invariant left == holders - acked
        invariant Acknowledge(left, s) == Acknowledge(holders - old(acked), s)
        invariant Cooperative(s) ==> lease == old(lease)
        decreases left
      {
        var i :| i in left;
        var acknowledged := FinalizeOne(i, s);
        if !acknowledged { return false; }
        left := left - {i};
      }
      return true;
    }

    /** The evaluator: nothing planned releases nothing; the slot goes back after the last acknowledgement. */
    method ReleaseEndpointTerminal(s: Script) returns (ok: bool)
      requires Valid() && !releasedHere && plan.Some?
      modifies this`drawn, this`lease, this`acked, this`finalized, this`active, this`releasedHere, this`agreed, control
      ensures Valid() && ok == releasedHere && plan == old(plan)
      ensures ok ==> agreed == plan.value && lease.Released?
      ensures old(lease).Quarantined? && plan.value != {} && Cooperative(s) ==> ok
    {
      if plan.value == {} { return false; }
      if !active && !s.room { return false; }
      active := true;
      var all := FinalizeAll(s);
      if !all || !lease.Quarantined? { return false; }
      EveryHolder(plan.value, acked);
      lease, releasedHere, agreed := Released, true, plan.value;
      acked, active := {}, false;
      return true;
    }

    /** Reads all candidates back as ended, and makes the plan unless an earlier call has made one. */
    method ReadBack(cs: set<Candidate>, abort: bool, s: Script) returns (ok: bool)
      requires Valid() && !releasedHere && cs != {}
      modifies this`drawn, this`lease, this`ended, this`holding, this`plan, control
      ensures Valid()
      ensures ok <==> forall c :: c in cs ==> s.asking(c).1.Ended()
      ensures ended <= old(ended) + cs && (ok ==> ended == old(ended) + cs)
      ensures ok ==> plan == Some(if old(plan).Some? then old(plan).value else Readings(cs, s))
      ensures ok ==> holding == HeldAfter(cs, s, old(holding))
      ensures Cooperative(s) ==> lease == old(lease)
    {
      if abort { AbortAll(cs, s); }
      ok := ReadAll(cs, s);
      if ok && plan.None? {
        var c :| c in cs;
        plan := Some(set c | c in cs :: Planned(c, s.asking(c).1.Holds()));
        assert Planned(c, s.asking(c).1.Holds()) in plan.value;
      }
    }

    /** Reads back the given refs and releases on the plan. */
    method TryRelease(cs: set<Candidate>, abort: bool, s: Script) returns (ok: bool)
      requires Valid() && !releasedHere && cs != {} && lease.Quarantined?
      modifies this, control
      ensures Valid() && ok == releasedHere && ended <= old(ended) + cs
      ensures ok ==> forall c :: c in cs ==> s.asking(c).1.Ended()
      ensures ok ==> agreed == if old(plan).Some? then old(plan).value else Readings(cs, s)
      ensures ok ==> forall c ::
                Settled(c) <==> (c in cs || c in old(ended)) && (c in holding ==> Planned(c, true) in agreed)
      ensures ok && old(plan).None? ==> forall c :: c in cs ==> Settled(c)
      ensures Cooperative(s) ==> ok
    {
      ok := ReadBack(cs, abort, s);
      if !ok { return; }
      ok := ReleaseEndpointTerminal(s);
      if ok { HeldIsPlanned(agreed); }
    }

    /**
     One cleanup call up to the point where the slot is back. A ref is settled
     then exactly when a query of this or an earlier call found it over and, should
     the last reading show it holding resources, the plan had it so; thus all that
     was sent when the call began, if the call made the plan.
     */
    method ReleaseSlot(dispatched: Option<nat>, abort: bool, s: Script)
      returns (ok: bool, ghost started: set<Candidate>)
      requires Valid()
      modifies this, control
      ensures started == old(Candidates(dispatched))
      ensures Valid() && ended <= old(ended) + started && ok == (releasedHere && !old(releasedHere))
      ensures old(lease).Released? ==> !ok && ended == old(ended) && finalized == old(finalized)
      ensures ok ==> forall c :: c in started ==> s.asking(c).1.Ended()
      ensures ok ==> agreed == if old(plan).Some? then old(plan).value else Readings(started, s)
      ensures ok ==> forall c ::
                Settled(c) <==> (c in started || c in old(ended)) && (c in holding ==> Planned(c, true) in agreed)
      ensures ok && old(plan).None? ==> forall c :: c in started ==> Settled(c)
      ensures Cooperative(s) && !old(lease).Released? && operation !in old(control.busyTasks) ==> ok == (started != {})
    {
      started := Candidates(dispatched);
      if lease.Released? { return false, started; }
      lease := Quarantined;
      if operation in control.busyTasks { return false, started; }
      var cs := Visited(dispatched);
      if cs == {} { return false, started; }
      ok := TryRelease(cs, abort, s);
    }

    /** Forgets the operation and its plan, unless a task of it runs. */
    method Retire() returns (ok: bool)
      requires Valid() && releasedHere
      modifies this`drawn, this`plan, control
      ensures Valid() && ok == (operation !in old(control.busyTasks))
    {
      if operation in control.busyTasks { return false; }
      drawn := Perform(control, Retires(operation), drawn);
      plan := None;
      return true;
    }

    /** The whole call: after the slot the operation is retired, which a task started meanwhile prevents. */
    method CleanupRequest(dispatched: Option<nat>, abort: bool, s: Script) returns (r: Outcome)
      requires Valid()
      modifies this, control
      ensures Valid() && (old(releasedHere) ==> releasedHere && agreed == old(agreed))
      ensures old(lease).Released? ==> r.Done? && ended == old(ended) && finalized == old(finalized)
      ensures r.Done? ==> lease.Released?
      ensures r.NotYet? ==> releasedHere == old(releasedHere)
      ensures !r.NotYet? && !old(lease).Released? ==> releasedHere && !old(releasedHere)
    {
      if lease.Released? { return Done; }
      var ok;
      ghost var started;
      ok, started := ReleaseSlot(dispatched, abort, s);
      if !ok { return NotYet; }
      var retired := Retire();
      return if retired then Done else Raised;
    }
  }

  /** A cleanup call and what other tasks did before it. */
  datatype Attempt = Attempt(before: seq<Happening>, dispatched: Option<nat>, abort: bool, script: Script)

  /** However often the cleanup is tried, the slot it returns is returned last, and once. */
  method CleanupUntilDone(op: RequestCleanup, attempts: seq<Attempt>) returns (returned: nat)
    requires op.Valid() && !op.releasedHere
    modifies op, op.control
    ensures op.Valid() && returned == (if op.releasedHere then 1 else 0)
    ensures op.releasedHere ==> op.SlotLast()
  {
    returned := 0;
    for n := 0 to |attempts|
      invariant op.Valid() && returned == (if op.releasedHere then 1 else 0)
    {
      var a := attempts[n];
      op.Await(a.before);
      var was := op.releasedHere;
      var _ := op.CleanupRequest(a.dispatched, a.abort, a.script);
      if op.releasedHere && !was { returned := returned + 1; }
    }
  }

  lemma HeldIsPlanned(plan: set<Planned>)
    ensures forall c :: c in HeldOn(plan, Holders(plan)) <==> Planned(c, true) in plan
  {
    forall p | p in plan && p.held ensures p.candidate.instance in Holders(plan) {
    }
  }

  lemma HeldAfterNext(cs: set<Candidate>, c: Candidate, s: Script, before: set<Candidate>)
    ensures HeldAfter({c}, s, HeldAfter(cs, s, before)) == HeldAfter(cs + {c}, s, before)
  {
  }

  lemma EveryHolder(plan: set<Planned>, acked: set<string>)
    requires Holders(plan) <= acked
    ensures HeldOn(plan, acked) == HeldOn(plan, Holders(plan))
  {
    forall p | p in plan && p.held ensures p.candidate.instance in Holders(plan) {
    }
  }
}
