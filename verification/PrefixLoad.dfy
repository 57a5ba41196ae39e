/**
 Loading a cached prefix onto a decode worker, and undoing it. One object holds
 a load operation: the context kept by the coordinator, the decode slot lease
 kept by the scheduler, and what the two workers really hold. Every remote call
 may be answered, take effect without an answer, or be given up and take effect
 at any later time or never. A call's precondition is the safety obligation of
 whoever makes it, so each path that makes the call proves it.
 */
module PrefixLoad {
  import opened SlotLease
  import opened Wrappers

  datatype Stage = Started | Resolving | Resolved | Preparing | Prepared | Transferring | Committing | Committed

  /** The operation on the decode worker; `Aborted` means its blocks were freed. */
  datatype Target = Absent | Pending | Kept | Aborted

  datatype Transfer = Idle | Running | Completed | Fenced

  /** What the decode worker answers about the operation. */
  datatype TargetReply = SaysPrepared | SaysCommitted | SaysAborted | SaysUnknown

  datatype TransferReply = SaysWaiting | SaysRunning | SaysCompleted | SaysFenced | SaysUndecided

  datatype Outcome = OutcomeAborted | OutcomeCommitted | OutcomeQuarantined

  /** How a call of the load ends; a `Delayed` one was given up and may still be executed. */
  datatype CallEnd = Replied | ReplyLost | Delayed

  /** What may happen while a call waits: the workers go on, or another cleanup of the operation makes a step. */
  datatype Meanwhile =
    | CallArrives | CopyEnds | SuffixAborts
    | OtherUnpins | OtherAborts | OtherFences | OtherQuarantines | OtherCommits | OtherReleases

  predicate ByWorkers(m: Meanwhile) { m.CallArrives? || m.CopyEnds? || m.SuffixAborts? }

  /** No other cleanup of the operation acts. */
  predicate Undisturbed(ms: seq<Meanwhile>) { forall m :: m in ms ==> ByWorkers(m) }

  /** What happens before a call takes effect, whether it does, and whether its answer arrives. */
  datatype Answer = Answer(before: seq<Meanwhile>, done: bool, arrived: bool)

  /** What the calls of one cleanup attempt meet; a missing or untrue reply is a call that raises. */
  datatype Attempt = Attempt(
    stopping: seq<Meanwhile>, fenced: bool, stopped: Option<TransferReply>,
    asking: seq<Meanwhile>, status: Option<TargetReply>, aborting: Answer, unpinning: Answer,
    pause: seq<Meanwhile>)
  {
    predicate Alone() {
      && Undisturbed(stopping) && Undisturbed(asking) && Undisturbed(pause)
      && Undisturbed(aborting.before) && Undisturbed(unpinning.before)
    }

    /** Nothing happens beside the attempt. */
    predicate Quiet() {
      stopping == asking == pause == aborting.before == unpinning.before == []
    }

    predicate Unpins() { unpinning.done && unpinning.arrived }
  }

  predicate AllAlone(attempts: seq<Attempt>) { forall a :: a in attempts ==> a.Alone() }

  predicate AllQuiet(attempts: seq<Attempt>) { forall a :: a in attempts ==> a.Quiet() }

  class Operation {
    const remote: bool
    var stage: Stage
    var sourcePinned: bool
    var targetPending: bool
    var lease: Lease
    /** Times this operation's slot went back to the free pool. */
    var slotsReturned: nat
    /** What the workers hold. */
    var pinned: bool
    var target: Target
    var transfer: Transfer
    /** The load stopped at a call that was given up, and whether that call has still to be executed. */
    var delayed: bool
    var late: bool

    predicate Settled()
      reads this
    {
      target.Absent? || target.Aborted?
    }

    /** A pin or a target prepared after the load was given up escapes its cleanup. */
    predicate PinEscapes()
      reads this
    {
      delayed && stage.Resolving?
    }

    predicate PrepareEscapes()
      reads this
    {
      delayed && stage.Preparing?
    }

    /** No copy is running, and none that was given up can start any more. */
    predicate CannotRun()
      reads this
    {
      !transfer.Running? && (transfer.Idle? && late && stage.Transferring? ==> target.Kept? || target.Aborted?)
    }

    ghost predicate Safe()
      reads this
    {
      && slotsReturned == (if lease.Released? then 1 else 0)
      && (lease.Released? ==> !pinned || PinEscapes())
      && (lease.Released? ==> Settled() || PrepareEscapes())
      && (transfer.Running? ==> target.Pending? && stage.Transferring?)
      && (stage.Transferring? ==> remote)
      && (stage in {Started, Resolving, Resolved} ==> target.Absent?)
      && (stage in {Transferring, Committing, Committed} ==> !target.Absent?)
      && (target.Kept? ==> stage in {Committing, Committed})
      && (sourcePinned ==> stage !in {Started, Resolving})
      && (late ==> delayed)
    }

    /** What may change while a cleanup waits: the workers go on, and other cleanups act. */
    twostate predicate Advanced()
      reads this
    {
      && stage == old(stage) && delayed == old(delayed) && (late ==> old(late))
      && (pinned ==> old(pinned) || PinEscapes()) && (sourcePinned ==> old(sourcePinned))
      && (old(sourcePinned) && !sourcePinned ==> !pinned)
      && (old(target).Aborted? ==> target.Aborted?)
      && (old(target).Absent? ==> target.Absent? || ((target.Pending? || target.Aborted?) && PrepareEscapes()))
      && (old(target).Pending? ==> target.Pending? || target.Aborted? || (target.Kept? && delayed && stage.Committing?))
      && (old(target).Kept? ==> target.Kept? || target.Aborted?)
      && (old(CannotRun()) ==> CannotRun())
      && (old(lease).Released? ==> lease.Released?)
      && (old(lease).Quarantined? ==> lease.Quarantined? || lease.Released?)
      && (!old(lease).Reserved? ==> !lease.Reserved?)
      && slotsReturned >= old(slotsReturned)
    }

    /** Nothing a cleanup depends on has changed. */
    twostate predicate Same()
      reads this
    {
      && stage == old(stage) && delayed == old(delayed) && late == old(late) && lease == old(lease)
      && pinned == old(pinned) && target == old(target) && transfer == old(transfer)
    }

    constructor (remote: bool)
      ensures this.remote == remote && Safe() && Fresh()
    {
      this.remote := remote;
      stage, sourcePinned, targetPending := Started, false, false;
      lease, slotsReturned := Reserved, 0;
      pinned, target, transfer := false, Absent, Idle;
      delayed, late := false, false;
    }

    predicate Fresh()
      reads this
    {
      && stage.Started? && lease.Reserved? && slotsReturned == 0
      && !pinned && !sourcePinned && target.Absent? && transfer.Idle? && !delayed && !late
    }

    /** A call that was given up is executed after all, if the worker still can. */
    method LateCall()
      requires Safe() && late
      modifies this`late, this`pinned, this`target, this`transfer
      ensures Safe() && Advanced() && !late
      ensures stage.Resolving? ==> pinned
      ensures stage.Preparing? && old(target).Absent? ==> target.Pending?
    {
      late := false;
      if stage.Resolving? {
        pinned := true;
      } else if stage.Preparing? && target.Absent? {
        target := Pending;
      } else if stage.Transferring? && transfer.Idle? && target.Pending? {
        transfer := Running;
      } else if stage.Committing? && target.Pending? {
        target := Kept;
        if !remote { pinned := false; }
      }
    }

    /** One thing that happens meanwhile, if it can. */
    method Happens(m: Meanwhile)
      requires Safe()
      modifies this
      ensures Safe() && Advanced() && (ByWorkers(m) ==> lease == old(lease))
      ensures m.CallArrives? && old(late) ==> (stage.Resolving? ==> pinned)
      ensures m.CallArrives? && old(late) ==> (stage.Preparing? && old(target).Absent? ==> target.Pending?)
    {
      match m {
        case CallArrives => if late { LateCall(); }
        case CopyEnds => if transfer.Running? { transfer := Completed; }
        case SuffixAborts => if target.Kept? { target := Aborted; }
        case OtherUnpins => if CannotRun() { pinned := false; }
        case OtherAborts => if CannotRun() && target.Pending? { target := Aborted; }
        case OtherFences => if remote { transfer := if transfer.Completed? then Completed else Fenced; }
        case OtherQuarantines => var _ := QuarantineSlot();
        case OtherCommits => if target.Kept? { CommitSlot(); }
        case OtherReleases => if !pinned && (Settled() || PrepareEscapes()) { var _ := ReleaseSlot(); }
      }
    }

    method Await(ms: seq<Meanwhile>)
      requires Safe()
      modifies this
      ensures Safe() && Advanced() && (Undisturbed(ms) ==> lease == old(lease)) && (ms == [] ==> Same())
    {
      for i := 0 to |ms|
        invariant Safe() && Advanced() && (Undisturbed(ms) ==> lease == old(lease)) && (i == 0 ==> Same())
      {
        Happens(ms[i]);
      }
    }

    // The scheduler's lease operations.

    method CommitSlot()
      requires Safe() && target.Kept?
      modifies this`lease
      ensures Safe() && lease == AfterCommit(old(lease))
    {
      if lease.Reserved? { lease := Active; }
    }

    method QuarantineSlot() returns (ok: bool)
      requires Safe()
      modifies this`lease
      ensures Safe() && ok == !old(lease).Released?
      ensures lease == if ok then Quarantined else old(lease)
    {
      if lease.Released? { return false; }
      lease := Quarantined;
      return true;
    }

    /** Gives the slot back; only once nothing known on either worker depends on it. */
    method ReleaseSlot() returns (ok: bool)
      requires Safe() && !pinned && (Settled() || PrepareEscapes())
      modifies this`lease, this`slotsReturned
      ensures Safe() && ok == !old(lease).Active?
      ensures lease == if ok then Released else old(lease)
    {
      if lease.Quarantined? || lease.Reserved? {
        lease, slotsReturned := Released, slotsReturned + 1;
      }
      return !lease.Active?;
    }

    // Remote calls of a cleanup. A false or `None` result is a call that raised, with or without its effect.

    /** The pin is dropped only when no transfer may still read the source. */
    method UnpinPrefix(a: Answer) returns (ok: bool)
      requires Safe() && CannotRun()
      modifies this
      ensures Safe() && Advanced() && (ok ==> !pinned) && (Undisturbed(a.before) ==> lease == old(lease))
      ensures ok == (a.done && a.arrived)
      ensures a.before == [] ==> target == old(target) && lease == old(lease) && late == old(late)
    {
      Await(a.before);
      if a.done { pinned := false; }
      ok := a.done && a.arrived;
    }

    /** Target blocks are freed only when no transfer may still write them. */
    method AbortCachedPrefix(a: Answer) returns (ok: bool)
      requires Safe() && CannotRun() && (target.Pending? || target.Aborted?)
      modifies this
      ensures Safe() && Advanced() && (ok ==> target.Aborted?) && (Undisturbed(a.before) ==> lease == old(lease))
    {
      Await(a.before);
      if a.done && target.Pending? { target := Aborted; }
      ok := a.done && a.arrived && target.Aborted?;
    }

    /** Tries to stop the transfer; only a proof that it stopped says so. */
    method AbortMappedPrefix(a: Attempt) returns (r: Option<TransferReply>)
      requires Safe() && remote
      modifies this
      ensures Safe() && Advanced() && (a.Alone() ==> lease == old(lease))
      ensures r == Some(SaysCompleted) || r == Some(SaysFenced) ==> CannotRun()
    {
      Await(a.stopping);
      if a.fenced && !transfer.Completed? { transfer := Fenced; }
      if a.stopped == Some(SaysCompleted) && !transfer.Completed? { return None; }
      if a.stopped == Some(SaysFenced) && !transfer.Fenced? { return None; }
      return a.stopped;
    }

    /** The decode worker's own record of the operation, or that it cannot tell. */
    method GetPrefixOperation(a: Attempt) returns (r: Option<TargetReply>)
      requires Safe()
      modifies this
      ensures Safe() && Advanced() && (a.Alone() ==> lease == old(lease)) && (a.asking == [] ==> Same())
      ensures r == Some(SaysPrepared) ==> target.Pending?
      ensures r == Some(SaysCommitted) ==> target.Kept?
      ensures r == Some(SaysAborted) ==> Settled()
      ensures a.status.None? ==> r.None?
      ensures a.status == Some(SaysCommitted) && target.Kept? ==> r == a.status
      ensures a.status == Some(SaysAborted) && Settled() ==> r == a.status
    {
      Await(a.asking);
      if a.status == Some(SaysPrepared) && !target.Pending? { return None; }
      if a.status == Some(SaysCommitted) && !target.Kept? { return None; }
      if a.status == Some(SaysAborted) && !Settled() { return None; }
      return a.status;
    }

    // The load and its calls.

    /** Resolve, prepare, copy or reuse, commit. Stops wherever a call raises. */
    method LoadCachedPrefix(
      deferSourceRelease: bool, resolve: CallEnd, prepare: CallEnd, copy: CallEnd, copied: bool, commit: CallEnd,
      unpin: CallEnd)
      returns (ok: bool)
      requires Safe() && Fresh()
      modifies this
      ensures Safe() && lease.Reserved? && slotsReturned == 0
      ensures ok ==> stage.Committed? && target.Kept? && !delayed && (!remote || !deferSourceRelease ==> !pinned)
      ensures PinEscapes() <==> resolve.Delayed?
      ensures PrepareEscapes() <==> resolve.Replied? && prepare.Delayed?
      ensures !remote && resolve.Replied? && prepare.Replied? && commit.ReplyLost? ==>
                stage.Committing? && target.Kept? && !delayed
      ensures resolve.Delayed? ==> stage.Resolving? && late && !pinned
      ensures resolve.Replied? && prepare.Delayed? ==> stage.Preparing? && late && target.Absent?
    {
      stage := Resolving;
      ok := ResolvePrefix(resolve);
      if !ok { return; }
      sourcePinned, stage := true, Resolved;
      stage, targetPending := Preparing, true;
      ok := PreparePrefix(prepare);
      if !ok { return; }
      stage := Prepared;
      if remote {
        stage := Transferring;
        ok := TransferCachedPrefix(copy, copied);
        if !ok { return; }
      }
      stage := Committing;
      ok := CommitCachedPrefix(commit);
      if !ok { return; }
      stage, targetPending := Committed, false;
      if !remote {
        sourcePinned := false;
      } else if !deferSourceRelease {
        ok := UnpinAfterCommit(unpin);
        if !ok { return; }
        sourcePinned := false;
      }
    }

    method ResolvePrefix(end: CallEnd) returns (ok: bool)
      requires Safe() && stage.Resolving? && !lease.Released? && !delayed && !pinned
      modifies this`pinned, this`delayed, this`late
      ensures Safe() && ok == end.Replied? && pinned == !end.Delayed? && delayed == late == end.Delayed?
    {
      if end.Delayed? { delayed, late := true, true; } else { pinned := true; }
      ok := end.Replied?;
    }

    method PreparePrefix(end: CallEnd) returns (ok: bool)
      requires Safe() && stage.Preparing? && target.Absent? && !lease.Released? && !delayed
      modifies this`target, this`delayed, this`late
      ensures Safe() && ok == end.Replied? && delayed == late == end.Delayed?
      ensures target == if end.Delayed? then Absent else Pending
    {
      if end.Delayed? { delayed, late := true, true; } else { target := Pending; }
      ok := end.Replied?;
    }

    method TransferCachedPrefix(end: CallEnd, copied: bool) returns (completed: bool)
      requires Safe() && stage.Transferring? && target.Pending? && transfer.Idle? && !delayed && !lease.Released?
      modifies this`transfer, this`delayed, this`late
      ensures Safe() && (completed ==> transfer.Completed? && !delayed)
      ensures completed == (end.Replied? && copied) && (!completed ==> delayed == end.Delayed?)
    {
      if end.Delayed? {
        delayed, late := true, true;
        return false;
      }
      transfer := if copied then Completed else Running;
      completed := end.Replied? && copied;
    }

    /** Commits the target; local reuse turns the pin into the sequence's own reference. */
    method CommitCachedPrefix(end: CallEnd) returns (ok: bool)
      requires Safe() && stage.Committing? && target.Pending? && !lease.Released? && !delayed
      modifies this`target, this`pinned, this`delayed, this`late
      ensures Safe() && ok == end.Replied? && delayed == late == end.Delayed?
      ensures target == if end.Delayed? then Pending else Kept
      ensures !remote && !end.Delayed? ==> !pinned
    {
      if end.Delayed? {
        delayed, late := true, true;
      } else {
        target := Kept;
        if !remote { pinned := false; }
      }
      ok := end.Replied?;
    }

    method UnpinAfterCommit(end: CallEnd) returns (ok: bool)
      requires Safe() && CannotRun()
      modifies this`pinned
      ensures Safe() && ok == end.Replied? && (pinned ==> end.Delayed? && old(pinned))
    {
      if !end.Delayed? { pinned := false; }
      ok := end.Replied?;
    }

    /** One cleanup attempt from whatever stage the load reached; `None` is an attempt that raised. */
    method CleanupLoadContext(a: Attempt) returns (r: Option<Outcome>)
      requires Safe()
      modifies this
      ensures Safe() && Advanced() && Meant(r)
      ensures r == Some(OutcomeCommitted) ==> !old(lease).Released? && !lease.Reserved?
      ensures a.Alone() && r == Some(OutcomeCommitted) ==> lease == AfterCommit(old(lease))
      ensures a.Alone() && r.None? ==> lease == old(lease) || lease == AfterCommit(old(lease))
      ensures a.Quiet() && old(Clears(a)) ==>
                r == Some(OutcomeAborted) && late == old(late) && (stage.Preparing? ==> target == old(target))
      ensures a.Quiet() && !remote && stage.Committing? && a.status.None? ==> r.None? && target == old(target)
      ensures a.Quiet() && !remote && stage.Committing? && a.status == Some(SaysCommitted) && old(target).Kept?
              && a.Unpins() ==>
                r == Some(OutcomeCommitted) && target.Kept?
    {
      if stage in {Started, Resolving, Resolved} {
        r := UnpinAndRelease(a.unpinning);
        return;
      }
      if stage.Preparing? || stage.Prepared? {
        r := CleanupPrepared(a);
      } else {
        r := CleanupMappedOperation(a);
      }
      if r.Some? && !r.value.OutcomeQuarantined? {
        sourcePinned, targetPending := false, false;
      }
    }

    /** What an outcome tells of the slot, the pin and the target. */
    ghost predicate Meant(r: Option<Outcome>)
      reads this
    {
      && (r == Some(OutcomeAborted) ==> lease.Released? && !pinned && (Settled() || PrepareEscapes()))
      && (r == Some(OutcomeCommitted) ==> !pinned)
      && (r == Some(OutcomeQuarantined) ==> lease.Quarantined?)
    }

    method UnpinAndRelease(a: Answer) returns (r: Option<Outcome>)
      requires Safe() && CannotRun() && Settled()
      modifies this
      ensures Safe() && Advanced() && Meant(r) && (r.Some? ==> r.value.OutcomeAborted?)
      ensures Undisturbed(a.before) && r.None? ==> lease == old(lease)
      ensures a.before == [] ==> target == old(target) && late == old(late)
      ensures a == Answer([], true, true) && !old(lease).Active? ==> r.Some?
    {
      var ok := UnpinPrefix(a);
      if !ok { return None; }
      ok := ReleaseSlot();
      return if ok then Some(OutcomeAborted) else None;
    }

    method CommitAndUnpin(a: Answer) returns (r: Option<Outcome>)
      requires Safe() && CannotRun() && target.Kept?
      modifies this
      ensures Safe() && Advanced() && Meant(r) && (r.Some? ==> r.value.OutcomeCommitted?)
      ensures !old(lease).Released? && !lease.Reserved?
      ensures Undisturbed(a.before) ==> lease == AfterCommit(old(lease))
      ensures a == Answer([], true, true) ==> r.Some? && target == old(target)
    {
      CommitSlot();
      var ok := UnpinPrefix(a);
      return if ok then Some(OutcomeCommitted) else None;
    }

    method Quarantine() returns (r: Option<Outcome>)
      requires Safe()
      modifies this`lease
      ensures Safe() && Advanced() && Meant(r) && (r.Some? ==> r.value.OutcomeQuarantined?)
      ensures r.None? ==> lease == old(lease)
    {
      var ok := QuarantineSlot();
      return if ok then Some(OutcomeQuarantined) else None;
    }

    /** Cleanup of an operation that never started a transfer, or reuses blocks in place. */
    method CleanupPrepared(a: Attempt) returns (r: Option<Outcome>)
      requires Safe() && (stage.Preparing? || stage.Prepared? || !remote)
      modifies this
      ensures Safe() && Advanced() && Meant(r)
      ensures r == Some(OutcomeCommitted) ==> !old(lease).Released? && !lease.Reserved?
      ensures a.Alone() && r == Some(OutcomeCommitted) ==> lease == AfterCommit(old(lease))
      ensures a.Alone() && r.None? ==> lease == old(lease) || lease == AfterCommit(old(lease))
      ensures a.Quiet() && a.status == Some(SaysAborted) && old(Settled()) && a.Unpins() && !old(lease).Active? ==>
                r == Some(OutcomeAborted) && late == old(late) && target == old(target)
      ensures a.Quiet() && a.status.None? ==> r.None? && target == old(target)
      ensures a.Quiet() && a.status == Some(SaysCommitted) && old(target).Kept? && a.Unpins() ==>
                r == Some(OutcomeCommitted) && target.Kept?
    {
      var reply := GetPrefixOperation(a);
      match reply
      case None => return None;
      case Some(SaysCommitted) => r := CommitAndUnpin(a.unpinning);
      case Some(SaysUnknown) => r := Quarantine();
      case Some(SaysAborted) => r := UnpinAndRelease(a.unpinning);
      case Some(SaysPrepared) => r := AbortAndRelease(a);
    }

    /** Frees the prepared blocks, then drops the pin and gives the slot back. */
    method AbortAndRelease(a: Attempt) returns (r: Option<Outcome>)
      requires Safe() && CannotRun() && target.Pending?
      modifies this
      ensures Safe() && Advanced() && Meant(r) && (r.Some? ==> r.value.OutcomeAborted?)
      ensures a.Alone() && r.None? ==> lease == old(lease)
    {
      var ok := AbortCachedPrefix(a.aborting);
      if !ok { return None; }
      r := UnpinAndRelease(a.unpinning);
    }

    /** Cleanup after a transfer may have started: stop it first, and only then free the blocks. */
    method CleanupMappedOperation(a: Attempt) returns (r: Option<Outcome>)
      requires Safe() && stage in {Transferring, Committing, Committed}
      modifies this
      ensures Safe() && Advanced() && Meant(r) && (r == Some(OutcomeAborted) ==> Settled())
      ensures r == Some(OutcomeCommitted) ==> !old(lease).Released? && !lease.Reserved?
      ensures a.Alone() && r == Some(OutcomeCommitted) ==> lease == AfterCommit(old(lease))
      ensures a.Alone() && r.None? ==> lease == old(lease) || lease == AfterCommit(old(lease))
      ensures a.Quiet() && !remote && a.status.None? ==> r.None? && target == old(target)
      ensures a.Quiet() && !remote && a.status == Some(SaysCommitted) && old(target).Kept? && a.Unpins() ==>
                r == Some(OutcomeCommitted) && target.Kept?
    {
      if !remote {
        r := CleanupPrepared(a);
        return;
      }
      var stopped := AbortMappedPrefix(a);
      if stopped.None? { return None; }
      if stopped.value.SaysUndecided? {
        r := Quarantine();
        return;
      }
      r := SettleStopped(a, stopped.value);
    }

    /** The transfer answered; what the decode worker says decides the rest. */
    method SettleStopped(a: Attempt, stopped: TransferReply) returns (r: Option<Outcome>)
      requires Safe() && stage in {Transferring, Committing, Committed}
      requires stopped.SaysFenced? || stopped.SaysCompleted? ==> CannotRun()
      modifies this
      ensures Safe() && Advanced() && Meant(r)
      ensures r == Some(OutcomeCommitted) ==> !old(lease).Released? && !lease.Reserved?
      ensures a.Alone() && r == Some(OutcomeCommitted) ==> lease == AfterCommit(old(lease))
      ensures a.Alone() && r.None? ==> lease == old(lease) || lease == AfterCommit(old(lease))
    {
      var reply := GetPrefixOperation(a);
      match reply
      case None => return None;
      case Some(SaysCommitted) => r := CommitAndUnpin(a.unpinning);
      case Some(SaysUnknown) => r := Quarantine();
      case Some(SaysAborted) => r := UnpinAndRelease(a.unpinning);
      case Some(SaysPrepared) =>
        if !stopped.SaysFenced? && !stopped.SaysCompleted? {
          r := Quarantine();
        } else {
          r := AbortAndRelease(a);
        }
    }

    /**
     Attempts until one does not raise or the watchdog expires; a raise
     quarantines the slot. With no other cleanup beside it, a committed operation
     ends with an active slot exactly when no attempt raised before and the slot
     was not quarantined to begin with.
     */
    method Cleanup(attempts: seq<Attempt>) returns (r: Option<Outcome>, failures: nat)
      requires Safe()
      modifies this
      ensures Safe() && Advanced() && Meant(r)
      ensures r == Some(OutcomeCommitted) ==> !lease.Reserved?
      ensures r.None? ==> failures == |attempts|
      ensures r.None? && attempts != [] ==> lease.Quarantined? || lease.Released?
      ensures AllAlone(attempts) && r == Some(OutcomeCommitted) ==>
                lease == if failures == 0 && !old(lease).Quarantined? then Active else Quarantined
      ensures forall k :: LocalCommitFound(attempts, k) && AllQuiet(attempts) && !remote && stage.Committing?
                          && old(target).Kept? ==>
                            r == Some(OutcomeCommitted) && failures == k && target.Kept?
      ensures |attempts| == 1 && AllQuiet(attempts) && old(Clears(attempts[0])) ==>
                r == Some(OutcomeAborted) && late == old(late) && (stage.Preparing? ==> target == old(target))
    {
      failures := 0;
      ghost var local := AllQuiet(attempts) && !remote && stage.Committing? && target.Kept?;
      ghost var one := |attempts| == 1 && AllQuiet(attempts) && Clears(attempts[0]);
      for n := 0 to |attempts|
        invariant Safe() && Advanced() && failures == n
        invariant n > 0 ==> lease.Quarantined? || lease.Released?
        invariant (n == 0 ==> Same()) && (one ==> n == 0)
        invariant local && (forall i :: 0 <= i < n ==> attempts[i].status.None?) ==> target.Kept?
        invariant local ==> forall k :: LocalCommitFound(attempts, k) ==> n <= k
      {
        assert attempts[n] in attempts;
        r := TryOnce(attempts[n]);
        if r.Some? { return; }
        failures := failures + 1;
      }
      r := None;
    }

    /** One attempt of the loop; after a raise the slot is quarantined and the loop pauses. */
    method TryOnce(a: Attempt) returns (r: Option<Outcome>)
      requires Safe()
      modifies this
      ensures Safe() && Advanced() && Meant(r)
      ensures r == Some(OutcomeCommitted) ==> !old(lease).Released? && !lease.Reserved?
      ensures a.Alone() && r == Some(OutcomeCommitted) ==> lease == AfterCommit(old(lease))
      ensures r.None? ==> lease.Quarantined? || lease.Released?
      ensures a.Quiet() && old(Clears(a)) ==>
                r == Some(OutcomeAborted) && late == old(late) && (stage.Preparing? ==> target == old(target))
      ensures a.Quiet() && !remote && stage.Committing? && a.status.None? ==> r.None? && target == old(target)
      ensures a.Quiet() && !remote && stage.Committing? && a.status == Some(SaysCommitted) && old(target).Kept?
              && a.Unpins() ==>
                r == Some(OutcomeCommitted) && target.Kept?
    {
      r := CleanupLoadContext(a);
      if r.Some? { return; }
      if !lease.Released? && !lease.Quarantined? { var _ := QuarantineSlot(); }
      Await(a.pause);
    }

    /** This attempt can give the slot back: nothing was prepared yet, or the worker says so, and the unpin succeeds. */
    predicate Clears(a: Attempt)
      reads this
    {
      && a.Unpins() && !lease.Active?
      && (stage in {Started, Resolving, Resolved}
          || (stage.Preparing? && a.status == Some(SaysAborted) && Settled()))
    }

    /** Keeps cleaning until the outcome is proven, for as many rounds as it is left to run. */
    method RecoverUntilProven(rounds: seq<seq<Attempt>>, pauses: seq<seq<Meanwhile>>) returns (r: Option<Outcome>)
      requires Safe() && |pauses| == |rounds|
      modifies this
      ensures Safe() && Advanced() && Meant(r)
      ensures r.Some? ==> !r.value.OutcomeQuarantined?
    {
      for n := 0 to |rounds|
        invariant Safe() && Advanced()
      {
        var failures;
        r, failures := Cleanup(rounds[n]);
        if r.Some? && !r.value.OutcomeQuarantined? { return; }
        Await(pauses[n]);
      }
      r := None;
    }

    /** Retries dropping the source pin of a committed load. */
    method ReleaseSourceUntilProven(answers: seq<Answer>)
      requires Safe() && stage.Committed?
      modifies this
      ensures Safe() && Advanced()
      ensures (forall a :: a in answers ==> Undisturbed(a.before)) ==> lease == old(lease)
    {
      for n := 0 to |answers|
        invariant Safe() && Advanced()
        invariant (forall a :: a in answers ==> Undisturbed(a.before)) ==> lease == old(lease)
      {
        if !sourcePinned { return; }
        assert answers[n] in answers;
        var ok := UnpinPrefix(answers[n]);
        if ok {
          sourcePinned := false;
          return;
        }
      }
    }

    /**
     The whole life of one operation: load, then promote or clean up and recover.
     A slot given back has no pin behind it unless the resolve call was given up,
     and no target blocks unless the prepare call was sent and given up.
     */
    method Run(
      stillWanted: bool, resolve: CallEnd, prepare: CallEnd, copy: CallEnd, copied: bool, commit: CallEnd,
      unpins: seq<Answer>, attempts: seq<Attempt>, rounds: seq<seq<Attempt>>, pauses: seq<seq<Meanwhile>>)
      returns (promoted: bool)
      requires Safe() && Fresh() && |pauses| == |rounds|
      modifies this
      ensures Safe()
      ensures promoted ==> stage.Committed?
      ensures promoted && (forall a :: a in unpins ==> Undisturbed(a.before)) ==> lease.Active?
      ensures lease.Released? && !resolve.Delayed? ==> !pinned
      ensures lease.Released? && !(resolve.Replied? && prepare.Delayed?) ==> Settled()
    {
      var loaded := LoadCachedPrefix(true, resolve, prepare, copy, copied, commit, Replied);
      if loaded && stillWanted {
        CommitSlot();
        ReleaseSourceUntilProven(unpins);
        return true;
      }
      var outcome, failures := Cleanup(attempts);
      if outcome.None? { var _ := RecoverUntilProven(rounds, pauses); }
      return false;
    }
  }

  /** Attempt `k` is the first whose status query is answered; it says committed, and the unpin succeeds. */
  predicate LocalCommitFound(attempts: seq<Attempt>, k: int) {
    && 0 <= k < |attempts| && attempts[k].status == Some(SaysCommitted) && attempts[k].Unpins()
    && forall i :: 0 <= i < k ==> attempts[i].status.None?
  }

  /** An attempt beside which nothing happens, with this status reply and a successful unpin. */
  function QuietAttempt(status: Option<TargetReply>): Attempt {
    Attempt([], false, None, [], status, Answer([], true, true), Answer([], true, true), [])
  }

  /**
   One run that ends committed with a quarantined slot: the reply to the commit is
   lost, a first cleanup attempt raises, and a second one learns that the operation
   is committed.
   */
  method CommittedButQuarantined() returns (op: Operation, r: Option<Outcome>)
    ensures fresh(op) && op.Safe() && r == Some(OutcomeCommitted)
    ensures op.target.Kept? && !op.pinned && op.lease.Quarantined?
  {
    op := new Operation(false);
    var _ := op.LoadCachedPrefix(true, Replied, Replied, Replied, true, ReplyLost, Replied);
    var attempts := [QuietAttempt(None), QuietAttempt(Some(SaysCommitted))];
    assert LocalCommitFound(attempts, 1);
    var failures;
    r, failures := op.Cleanup(attempts);
  }

  /** One run in which a pin escapes: the resolve call is given up and executed after the cleanup released the slot. */
  method LatePinEscapes() returns (op: Operation, r: Option<Outcome>)
    ensures fresh(op) && op.Safe() && r == Some(OutcomeAborted) && op.lease.Released? && op.pinned
  {
    op := new Operation(true);
    var _ := op.LoadCachedPrefix(true, Delayed, Replied, Replied, true, Replied, Replied);
    var failures;
    r, failures := op.Cleanup([QuietAttempt(None)]);
    op.Happens(CallArrives);
  }

  /**
   The same with the prepare call, given a worker that answers "aborted" about an
   operation it has not seen and still executes its prepare call later.
   */
  method LatePrepareEscapes() returns (op: Operation, r: Option<Outcome>)
    ensures fresh(op) && op.Safe() && r == Some(OutcomeAborted) && op.lease.Released? && op.target.Pending?
  {
    op := new Operation(true);
    var _ := op.LoadCachedPrefix(true, Replied, Delayed, Replied, true, Replied, Replied);
    var failures;
    r, failures := op.Cleanup([QuietAttempt(Some(SaysAborted))]);
    op.Happens(CallArrives);
  }
}
