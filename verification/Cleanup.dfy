/**
 Cleanup of one request of the legacy control path: proofs about the prefill
 side, the decode side and the transfer are collected across calls during which
 workers may restart and be reconciled, and capacity is released, quarantined or
 left alone on their strength.
 */
module Cleanup {
  import opened Wrappers

  datatype SeqState =
    | Waiting | Prefilling | KvPending | Recomputing | AffinityLoading | PrefixPrefilling | Decoding | Finished
    | Aborted

  /** The table of request phases; abort is always allowed. */
  predicate MayMove(current: SeqState, next: SeqState) {
    || next.Aborted?
    || (match current
        case Waiting => next.Prefilling? || next.AffinityLoading?
        case Prefilling => next.KvPending?
        case AffinityLoading => next.PrefixPrefilling? || next.Waiting?
        case PrefixPrefilling => next.Decoding? || next.Waiting?
        case KvPending => next.Decoding? || next.Recomputing?
        case Recomputing => next.Decoding?
        case Decoding => next.Finished?
        case Finished => false
        case Aborted => false)
  }

  ghost predicate Lawful(states: seq<SeqState>) {
    forall i, j :: 0 <= i && j == i + 1 && j < |states| ==> MayMove(states[i], states[j])
  }

  predicate PastTransfer(s: SeqState) { s.Recomputing? || s.Decoding? || s.Finished? || s.Aborted? }

  /** The request may be known to its decode worker. */
  predicate Handed(s: SeqState) { s.KvPending? || PastTransfer(s) }

  lemma {:induction false} PastTransferStays(states: seq<SeqState>, i: nat, j: nat)
    requires Lawful(states) && i <= j < |states| && PastTransfer(states[i])
    ensures PastTransfer(states[j])
    decreases j - i
  {
    if i < j {
      assert MayMove(states[i], states[i + 1]);
      PastTransferStays(states, i + 1, j);
    }
  }

  /** Whatever happens to a request, it enters the transfer phase at most once. */
  lemma KvPendingIsLeftForGood(states: seq<SeqState>, i: nat, k: nat)
    requires Lawful(states) && i < k < |states| && states[i].KvPending?
    ensures !states[k].KvPending? && PastTransfer(states[k])
  {
    assert MayMove(states[i], states[i + 1]);
    PastTransferStays(states, i + 1, k);
  }

  // The decode worker as the scheduler counts it. `others` and `mine` say who
  // really uses the slots that are not free.

  datatype Decode = Decode(epoch: string, quarantined: bool, free: nat, max: nat, others: nat, mine: bool)

  predicate Conserved(d: Decode) { !d.quarantined ==> d.free + d.others + (if d.mine then 1 else 0) == d.max }

  /** Gives one slot back if the epoch is current and the count allows it. */
  function FinishDecode(d: Decode, epoch: string): (Decode, bool) {
    if epoch == "" || d.epoch != epoch || d.quarantined || d.free >= d.max then (d, false)
    else (d.(free := d.free + 1, mine := false), true)
  }

  function Quarantine(d: Decode): Decode { d.(quarantined := true, free := 0, others := 0, mine := false) }

  function Fresh(epoch: string, max: nat): Decode { Decode(epoch, false, max, max, 0, false) }

  datatype RemoteState = NotOwned | NeverDispatched | AbortAck | Uncertain | AlreadyCompleted

  datatype TransferState = NoTransfer | DeferredCancelled | FencedAck | TransferUncertain

  datatype TaskState = Deferred | Inflight | NoTask

  datatype Publish = NotStarted | Acked | Unknown

  datatype CleanupProof = CleanupProof(
    state: SeqState, p: RemoteState, d: RemoteState, transfer: TransferState, mode: Option<TaskState>,
    publish: Publish, ownsP: bool, ownsD: bool, dEpochChanged: bool)

  predicate PLoadReleasable(proof: CleanupProof) {
    || !proof.ownsP
    || proof.p.NotOwned? || proof.p.AlreadyCompleted?
    || (proof.publish.NotStarted? && proof.p.NeverDispatched?)
    || (proof.publish.Acked? && proof.p.AbortAck?)
  }

  predicate DSlotReleasable(proof: CleanupProof) {
    && proof.ownsD && !proof.dEpochChanged
    && match proof.state {
         case Prefilling => proof.d.NeverDispatched? && proof.transfer.NoTransfer?
         case KvPending => proof.d.AbortAck? && (proof.transfer.DeferredCancelled? || proof.transfer.FencedAck?)
         case Decoding => proof.d.AbortAck? && proof.transfer.NoTransfer?
         case Recomputing => proof.d.AbortAck? && proof.transfer.FencedAck?
         case _ => false
       }
  }

  predicate PrefillEvidence(proof: CleanupProof) {
    match proof.publish
    case NotStarted => proof.p.NeverDispatched?
    case Acked => proof.p.AbortAck? || proof.p.Uncertain?
    case Unknown => proof.p.NeverDispatched? || proof.p.AbortAck? || proof.p.Uncertain?
  }

  predicate ValidProof(proof: CleanupProof) {
    var dAsked := proof.d.AbortAck? || proof.d.Uncertain?;
    match proof.state
    case Waiting => !proof.ownsP && !proof.ownsD && proof.p.NotOwned? && proof.d.NeverDispatched?
                    && proof.transfer.NoTransfer? && proof.mode.None?
    case Prefilling => proof.ownsP && proof.ownsD && PrefillEvidence(proof) && proof.d.NeverDispatched?
                       && proof.transfer.NoTransfer? && proof.mode.None?
    case KvPending => !proof.ownsP && proof.ownsD && proof.p.AlreadyCompleted? && dAsked
                      && ((proof.mode == Some(Deferred) && proof.transfer.DeferredCancelled?)
                          || (proof.mode == Some(Inflight)
                              && (proof.transfer.FencedAck? || proof.transfer.TransferUncertain?)))
    case Decoding => !proof.ownsP && proof.ownsD && proof.p.AlreadyCompleted? && dAsked
                     && proof.transfer.NoTransfer? && proof.mode.None?
    case Recomputing => !proof.ownsP && proof.ownsD && proof.p.AlreadyCompleted? && dAsked
                        && proof.transfer.FencedAck? && proof.mode.None?
    case _ => false
  }

  /** A valid proof of an owned slot in a current epoch either releases it or names what is uncertain. */
  lemma ReleaseOrUncertain(proof: CleanupProof)
    requires ValidProof(proof) && proof.ownsD && !proof.dEpochChanged
    ensures DSlotReleasable(proof) <==> !proof.d.Uncertain? && !proof.transfer.TransferUncertain?
  {
  }

  datatype SlotEnd = SlotReleased | SlotQuarantined | LeftToNewEpoch | NothingOwned | CountFull

  class Request {
    /** Assigned when the request was dispatched. */
    const decodeEpoch: string
    const prefillEpoch: string
    const publish: Publish
    const ownsInstances: bool
    var operation: string
    var state: SeqState
    /** Every phase so far, the current one last. */
    ghost var phases: seq<SeqState>
    /** The scheduler's view of the two workers; `None` once deregistered. */
    var decode: Option<Decode>
    var prefill: Option<string>
    var task: TaskState
    /** The decode worker's capacity was rebuilt under the request's own epoch. */
    var rebuilt: bool
    /** Requests counted on the prefill worker, and whether it was taken out of service. */
    var prefillLoad: nat
    var prefillQuarantined: bool
    /** This request already gave its slot back. */
    var slotGone: bool
    /** It gave one back after the capacity it was counted in had been rebuilt. */
    ghost var overReleased: bool

    /** The slot count is right unless a slot was given back twice; a rebuilt worker counts none for this request. */
    ghost predicate Valid()
      reads this
    {
      && phases != [] && phases[|phases| - 1] == state && Lawful(phases)
      && (overReleased ==> slotGone && rebuilt)
      && (decode.Some? && !overReleased ==> Conserved(decode.value))
      && (rebuilt && DecodeCurrent() ==> !decode.value.mine)
    }

    /** The slot is still counted as this request's, unless its capacity was taken away or rebuilt. */
    ghost predicate Held()
      reads this
    {
      Serving() && !rebuilt && !slotGone ==> decode.value.mine
    }

    predicate DecodeCurrent()
      reads this
    {
      decodeEpoch != "" && decode.Some? && decode.value.epoch == decodeEpoch
    }

    predicate PrefillCurrent()
      reads this
    {
      prefillEpoch != "" && prefill == Some(prefillEpoch)
    }

    /** The worker the request was assigned to is in service with the epoch it was assigned in. */
    predicate Serving()
      reads this
    {
      DecodeCurrent() && !decode.value.quarantined
    }

    /** What other code leaves alone while a cleanup waits. */
    twostate predicate Waited()
      reads this
    {
      && (old(rebuilt) ==> rebuilt)
      && (Handed(old(state)) ==> Handed(state))
      && slotGone == old(slotGone) && overReleased == old(overReleased)
      && (!old(DecodeCurrent()) && !rebuilt ==> !DecodeCurrent())
      && (!old(Serving()) && !rebuilt ==> !Serving())
    }

    constructor (
      decodeEpoch: string, prefillEpoch: string, publish: Publish, state: SeqState, decode: Decode, task: TaskState)
      requires Conserved(decode) && decode.mine && !decode.quarantined && decode.epoch == decodeEpoch
      ensures Valid() && Held() && !rebuilt && !slotGone && this.state == state && this.decode == Some(decode)
      ensures this.decodeEpoch == decodeEpoch
    {
      this.decodeEpoch, this.prefillEpoch, this.publish := decodeEpoch, prefillEpoch, publish;
      ownsInstances := !state.Waiting?;
      operation, this.state, phases := "", state, [state];
      this.decode, prefill, this.task := Some(decode), Some(prefillEpoch), task;
      rebuilt, slotGone, overReleased := false, false, false;
      prefillLoad, prefillQuarantined := 1, false;
    }

    method Transition(next: SeqState) returns (ok: bool)
      requires Valid()
      modifies this`state, this`phases
      ensures Valid() && ok == MayMove(old(state), next) && state == (if ok then next else old(state))
    {
      if !MayMove(state, next) { return false; }
      state, phases := next, phases + [next];
      return true;
    }

    /** A completion callback counts only for the current operation of a request still waiting for it. */
    method OnKvDone(operationId: string)
      requires Valid()
      modifies this`state, this`phases
      ensures Valid()
      ensures !(old(state).KvPending? && operation == operationId && DecodeCurrent()) ==>
                state == old(state) && phases == old(phases)
      ensures state != old(state) ==> old(state).KvPending? && (state.Decoding? || state.Finished?)
    {
      if !state.KvPending? || operation != operationId || !DecodeCurrent() { return; }
      var ok := Transition(Decoding);
      var ended: bool := *;
      if ended { ok := Transition(Finished); }
    }

    /** Takes the decode worker out of service together with the slot. */
    method QuarantineDecode()
      requires Valid()
      modifies this`decode
      ensures Valid() && Held() && !Serving()
      ensures decode == if old(decode).Some? then Some(Quarantine(old(decode).value)) else None
    {
      if decode.Some? { decode := Some(Quarantine(decode.value)); }
    }

    /** Reconciles a worker that is out of service, or registers it again: all its slots count as free. */
    method RebuildDecode(epoch: string, max: nat)
      requires Valid() && (decode.None? || decode.value.quarantined)
      modifies this`decode, this`rebuilt
      ensures Valid() && Held() && decode == Some(Fresh(epoch, max))
      ensures rebuilt == (old(rebuilt) || epoch == decodeEpoch)
    {
      decode := Some(Fresh(epoch, max));
      if epoch == decodeEpoch { rebuilt := true; }
    }

    /** Another request takes a free slot. */
    method OtherTakes()
      requires Valid() && Held() && decode.Some? && !decode.value.quarantined && decode.value.free > 0
      modifies this`decode
      ensures Valid() && Held()
      ensures var d := old(decode.value); decode == Some(d.(free := d.free - 1, others := d.others + 1))
    {
      decode := Some(decode.value.(free := decode.value.free - 1, others := decode.value.others + 1));
    }

    /** Another request gives its slot back; a full count refuses it. */
    method OtherGives()
      requires Valid() && Held() && decode.Some? && !decode.value.quarantined && decode.value.others > 0
      modifies this`decode
      ensures Valid() && Held() && decode.Some? && decode.value.quarantined == old(decode.value.quarantined)
      ensures decode.value.epoch == old(decode.value.epoch)
    {
      var d := decode.value;
      decode := Some(d.(free := if d.free < d.max then d.free + 1 else d.free, others := d.others - 1));
    }

    /** One thing that may happen while a cleanup waits. */
    method Happens()
      requires Valid() && Held()
      modifies this
      ensures Valid() && Held() && Waited()
    {
      var choice: int, epoch: string, max: int, op: string, next: SeqState := *, *, *, *, *;
      if choice == 0 {
        OnKvDone(op);
      } else if choice == 1 {
        var _ := Transition(next);
      } else if choice == 2 {
        prefill, prefillLoad, prefillQuarantined := *, *, *;
      } else if choice == 3 {
        task := NoTask;
      } else if choice == 4 {
        QuarantineDecode();
      } else if choice == 5 {
        decode := None;
      } else if choice == 6 && max > 0 && (decode.None? || decode.value.quarantined) {
        RebuildDecode(epoch, max);
      } else if choice == 7 && decode.Some? && !decode.value.quarantined && decode.value.free > 0 {
        OtherTakes();
      } else if choice == 8 && decode.Some? && !decode.value.quarantined && decode.value.others > 0 {
        OtherGives();
      }
    }

    method Await()
      requires Valid() && Held()
      modifies this
      ensures Valid() && Held() && Waited()
    {
      var steps: int := *;
      for i := 0 to if steps < 0 then 0 else steps
        invariant Valid() && Held() && Waited()
      {
        Happens();
      }
    }

    /** What the remote calls really answered. */
    method AbortRemote() returns (acknowledged: bool)
      requires Valid() && Held()
      modifies this
      ensures Valid() && Held() && Waited()
    {
      Await();
      acknowledged := *;
    }

    /**
     Hands the slot back through the scheduler and says where it ended. The count
     stays right exactly when no slot comes back from a rebuilt worker.
     */
    method FinishSlot() returns (end: SlotEnd)
      requires Valid() && Held() && !slotGone
      modifies this`decode, this`slotGone, this`overReleased
      ensures Valid() && Held() && slotGone == end.SlotReleased?
      ensures end.LeftToNewEpoch? <==> !old(DecodeCurrent())
      ensures end.SlotQuarantined? <==> old(DecodeCurrent() && decode.value.quarantined)
      ensures end.CountFull? <==> old(Serving() && decode.value.free >= decode.value.max)
      ensures end.SlotReleased? <==> old(Serving() && decode.value.free < decode.value.max)
      ensures end.SlotReleased? ==>
                decode == Some(old(decode.value).(free := old(decode.value).free + 1, mine := false))
      ensures !end.SlotReleased? ==> decode == old(decode)
      ensures end.CountFull? ==> rebuilt
      ensures decode.Some? ==> (Conserved(decode.value) <==> !(rebuilt && end.SlotReleased?))
    {
      if !DecodeCurrent() { return LeftToNewEpoch; }
      if decode.value.quarantined { return SlotQuarantined; }
      var next := FinishDecode(decode.value, decodeEpoch);
      if !next.1 { return CountFull; }
      decode, slotGone, overReleased := Some(next.0), true, rebuilt;
      return SlotReleased;
    }

    /** How the transfer of a request in its transfer phase stands; `fenced` is an answer with both epochs current. */
    method FenceTransfer()
      returns (transfer: TransferState, targetChanged: bool, sourceChanged: bool, mode: TaskState, fenced: bool)
      requires Valid() && Held()
      modifies this
      ensures Valid() && Held() && Waited()
      ensures fenced ==> old(state).KvPending? && old(task).Inflight? && DecodeCurrent() && PrefillCurrent()
      ensures transfer.FencedAck? ==> fenced || targetChanged || old(state).Recomputing?
      ensures transfer.DeferredCancelled? ==> old(task).Deferred?
      ensures targetChanged ==> !DecodeCurrent()
      ensures sourceChanged ==> old(state).KvPending? && transfer.TransferUncertain? && !targetChanged
      ensures sourceChanged ==> decode.Some? && decode.value.quarantined && DecodeCurrent()
    {
      targetChanged, sourceChanged, fenced, mode := !DecodeCurrent(), false, false, task;
      transfer := NoTransfer;
      if state.KvPending? {
        if targetChanged {
          transfer := FencedAck;
        } else if task.Deferred? {
          task := NoTask;
          transfer := DeferredCancelled;
        } else if task.Inflight? {
          var answer := false;
          if PrefillCurrent() {
            answer := AbortRemote();
          }
          if !DecodeCurrent() {
            targetChanged, task := true, NoTask;
          } else if PrefillCurrent() {
            fenced := answer;
            transfer := if fenced then FencedAck else TransferUncertain;
          } else {
            sourceChanged, transfer, task := true, TransferUncertain, NoTask;
            QuarantineDecode();
          }
        } else {
          mode, transfer := Inflight, TransferUncertain;
        }
      } else if state.Recomputing? {
        transfer := FencedAck;
      }
    }

    /** The abort of the decode side; an answer counts only while its epoch is current. */
    method AbortDecode() returns (d: RemoteState, changed: bool, acknowledged: bool)
      requires Valid() && Held()
      modifies this
      ensures Valid() && Held() && Waited()
      ensures changed == !DecodeCurrent()
      ensures acknowledged ==> DecodeCurrent()
      ensures d == if changed then NeverDispatched else if acknowledged then AbortAck else Uncertain
    {
      acknowledged := AbortRemote();
      changed := !DecodeCurrent();
      if changed {
        task := NoTask;
        return NeverDispatched, true, false;
      }
      d := if acknowledged then AbortAck else Uncertain;
    }

    /** The abort of the prefill side; an answer counts only while its epoch is current. */
    method AbortPrefill() returns (p: RemoteState, changed: bool, acknowledged: bool)
      requires Valid() && Held()
      modifies this
      ensures Valid() && Held() && Waited()
      ensures changed == !PrefillCurrent()
      ensures acknowledged ==> PrefillCurrent()
      ensures p == if changed then NeverDispatched else if acknowledged then AbortAck else Uncertain
    {
      acknowledged := AbortRemote();
      changed := !PrefillCurrent();
      acknowledged := acknowledged && !changed;
      p := if changed then NeverDispatched else if acknowledged then AbortAck else Uncertain;
    }

    /** Counts the request off its prefill worker if that still has the epoch the request was assigned in. */
    method OnPrefillDone()
      requires Valid() && Held()
      modifies this`prefillLoad
      ensures Valid() && Held()
      ensures prefillLoad == old(prefillLoad)
                             - (if PrefillCurrent() && !prefillQuarantined && old(prefillLoad) > 0 then 1 else 0)
    {
      if PrefillCurrent() && !prefillQuarantined && prefillLoad > 0 { prefillLoad := prefillLoad - 1; }
    }

    /** Takes the prefill worker out of service; its load is no longer counted. */
    method QuarantinePrefill()
      requires Valid() && Held()
      modifies this`prefillLoad, this`prefillQuarantined
      ensures Valid() && Held() && prefillQuarantined && prefillLoad == 0
    {
      prefillLoad, prefillQuarantined := 0, true;
    }

    method SettleLoad(proof: CleanupProof) returns (released: bool)
      requires Valid() && Held()
      modifies this`prefillLoad, this`prefillQuarantined
      ensures Valid() && Held() && released == PLoadReleasable(proof)
      ensures !released ==> prefillQuarantined
    {
      released := PLoadReleasable(proof);
      if released {
        OnPrefillDone();
      } else {
        QuarantinePrefill();
      }
    }

    /** Where an owned slot goes, given the finished proof. */
    method SettleSlot(proof: CleanupProof, sourceChanged: bool) returns (end: SlotEnd)
      requires Valid() && Held() && !slotGone
      requires sourceChanged && !rebuilt ==> !Serving()
      requires proof.dEpochChanged && !rebuilt ==> !DecodeCurrent()
      modifies this`decode, this`slotGone, this`overReleased
      ensures Valid() && Held() && slotGone == end.SlotReleased?
      ensures end.SlotReleased? <==>
                DSlotReleasable(proof) && !sourceChanged && old(Serving() && decode.value.free < decode.value.max)
      ensures end.SlotReleased? ==>
                decode == Some(old(decode.value).(free := old(decode.value).free + 1, mine := false))
      ensures proof.ownsD && !proof.dEpochChanged && !sourceChanged && !DSlotReleasable(proof) ==>
                end.SlotQuarantined? && !Serving()
      ensures proof.ownsD && proof.dEpochChanged ==> end.LeftToNewEpoch? && decode == old(decode)
      ensures end.SlotQuarantined? && !rebuilt ==> !Serving()
      ensures end.LeftToNewEpoch? && !rebuilt ==> !DecodeCurrent()
      ensures end.NothingOwned? <==> !proof.ownsD
      ensures end.CountFull? ==> rebuilt
      ensures decode.Some? ==> (Conserved(decode.value) <==> !(rebuilt && end.SlotReleased?))
    {
      if !proof.ownsD { return NothingOwned; }
      if proof.dEpochChanged { return LeftToNewEpoch; }
      if sourceChanged { return SlotQuarantined; }
      if DSlotReleasable(proof) {
        end := FinishSlot();
      } else {
        QuarantineDecode();
        end := SlotQuarantined;
      }
    }

    /** Asks every side that may still be asked and records what is known; nothing is released here. */
    method GatherProof()
      returns (
        proof: CleanupProof, pChanged: bool, sourceChanged: bool, dAcknowledged: bool, fenced: bool,
        pAcknowledged: bool)
      requires Valid() && Held()
      modifies this
      ensures Valid() && Held() && Waited()
      ensures Handed(old(state)) ==> Handed(proof.state)
      ensures proof.publish == publish && proof.ownsP == old(state).Prefilling?
      ensures sourceChanged && !rebuilt ==> !Serving()
      ensures proof.dEpochChanged && !rebuilt ==> !DecodeCurrent()
      ensures proof.d.AbortAck? ==> dAcknowledged && DecodeCurrent()
      ensures proof.transfer.FencedAck? ==> fenced || proof.dEpochChanged || !proof.ownsD || old(state).Recomputing?
      ensures proof.ownsP && !pChanged ==> proof.p == if pAcknowledged then AbortAck else Uncertain
    {
      var ownsP, ownsD := state.Prefilling?, ownsInstances && !state.Waiting?;
      pChanged := ownsP && !PrefillCurrent();
      var p := if ownsP then NeverDispatched else if state.Waiting? then NotOwned else AlreadyCompleted;
      var d, dChanged := NeverDispatched, false;
      dAcknowledged, pAcknowledged := false, false;
      var transfer, targetChanged, mode;
      transfer, targetChanged, sourceChanged, mode, fenced := FenceTransfer();
      targetChanged := targetChanged && ownsD;
      if ownsP && !pChanged {
        p, pChanged, pAcknowledged := AbortPrefill();
      }
      if !targetChanged && !sourceChanged && (state.KvPending? || state.Recomputing? || state.Decoding?) {
        d, dChanged, dAcknowledged := AbortDecode();
        targetChanged := dChanged;
      }
      proof := CleanupProof(state, p, d, transfer, if state.KvPending? then Some(mode) else None,
                            publish, ownsP, ownsD, targetChanged);
    }

    /**
     Builds the proof and acts on it. `None` is a proof refused as inconsistent.
     An owned slot ends released, quarantined or left to a new epoch; the count of
     slots stays right exactly when the slot was not given back to a worker whose
     capacity was rebuilt under the same epoch meanwhile. It is released only on an
     acknowledged abort of the decode side, or for a request the decode side never
     saw, and never with an uncertain transfer.
     */
    method FenceAndAbort()
      returns (
        r: Option<(SlotEnd, CleanupProof)>, dAcknowledged: bool, fenced: bool, pReleased: bool, pAcknowledged: bool)
      requires Valid() && Held() && !slotGone
      modifies this
      ensures Valid() && Held() && (old(rebuilt) ==> rebuilt)
      ensures slotGone == (r.Some? && r.value.0.SlotReleased?)
      ensures decode.Some? ==> (Conserved(decode.value) <==> !(rebuilt && slotGone))
      ensures r.Some? && r.value.0.CountFull? ==> rebuilt
      ensures r.Some? ==> (r.value.0.NothingOwned? <==> !r.value.1.ownsD)
      ensures slotGone ==>
                && DecodeCurrent() && DSlotReleasable(r.value.1)
                && (dAcknowledged || (r.value.1.state.Prefilling? && !Handed(old(state))))
                && !r.value.1.transfer.TransferUncertain? && !r.value.1.d.Uncertain?
                && (r.value.1.transfer.FencedAck? ==> fenced || old(state).Recomputing?)
      ensures r.Some? && r.value.0.SlotQuarantined? && !rebuilt ==> !Serving()
      ensures r.Some? && r.value.0.LeftToNewEpoch? && !rebuilt ==> !DecodeCurrent()
      ensures pReleased ==> old(state).Prefilling? && publish.Acked? && pAcknowledged
    {
      var proof, pChanged, sourceChanged;
      proof, pChanged, sourceChanged, dAcknowledged, fenced, pAcknowledged := GatherProof();
      pReleased := false;
      if !pChanged && !proof.dEpochChanged && !sourceChanged && !ValidProof(proof) {
        return None, dAcknowledged, fenced, pReleased, pAcknowledged;
      }
      if proof.ownsP && !pChanged { pReleased := SettleLoad(proof); }
      var end := SettleSlot(proof, sourceChanged);
      task := NoTask;
      r := Some((end, proof));
    }

    /**
     A dispatch whose outcome is unknown: the prefill worker, if it is still the
     one that was asked, leaves service before the slot goes back.
     */
    method WithdrawUnknown() returns (end: SlotEnd, ask: bool)
      requires Valid() && Held() && !slotGone
      modifies this`decode, this`slotGone, this`overReleased, this`prefillLoad, this`prefillQuarantined
      ensures Valid() && Held() && slotGone == end.SlotReleased? && ask == old(PrefillCurrent())
      ensures ask ==> prefillQuarantined && prefillLoad == 0
      ensures !ask ==> prefillLoad == old(prefillLoad) && prefillQuarantined == old(prefillQuarantined)
      ensures end.SlotQuarantined? ==> !Serving()
      ensures end.LeftToNewEpoch? ==> !DecodeCurrent()
      ensures end.CountFull? ==> rebuilt
      ensures decode.Some? ==> (Conserved(decode.value) <==> !(rebuilt && slotGone))
    {
      ask := PrefillCurrent();
      if ask { QuarantinePrefill(); }
      end := FinishSlot();
    }

    /** A dispatch that never started: the request is counted off the prefill worker and the slot goes back. */
    method WithdrawUnstarted() returns (end: SlotEnd)
      requires Valid() && Held() && !slotGone
      modifies this`decode, this`slotGone, this`overReleased, this`prefillLoad
      ensures Valid() && Held() && slotGone == end.SlotReleased?
      ensures prefillLoad == old(prefillLoad)
                             - (if PrefillCurrent() && !prefillQuarantined && old(prefillLoad) > 0 then 1 else 0)
      ensures end.SlotQuarantined? ==> !Serving()
      ensures end.LeftToNewEpoch? ==> !DecodeCurrent()
      ensures end.CountFull? ==> rebuilt
      ensures decode.Some? ==> (Conserved(decode.value) <==> !(rebuilt && slotGone))
    {
      OnPrefillDone();
      end := FinishSlot();
    }

    /**
     The one cleanup of a request. A normal end leaves the request terminal and
     its slot released, quarantined or left to a new epoch, at most once; unless
     the worker was rebuilt under the same epoch, a quarantined slot is out of
     service and one left to a new epoch is no longer counted for this one.
     */
    method CanonicalCleanup() returns (end: Option<SlotEnd>, dAcknowledged: bool)
      requires Valid() && Held() && !slotGone
      modifies this
      ensures Valid() && Held() && (old(rebuilt) ==> rebuilt)
      ensures end.Some? ==> state.Aborted? || state.Finished?
      ensures slotGone == (end.Some? && end.value.SlotReleased?)
      ensures slotGone ==> dAcknowledged || !Handed(old(state))
      ensures end.Some? && end.value.CountFull? ==> rebuilt
      ensures end.Some? && end.value.SlotQuarantined? && !rebuilt ==> !Serving()
      ensures end.Some? && end.value.LeftToNewEpoch? && !rebuilt ==> !DecodeCurrent()
      ensures decode.Some? && !(rebuilt && slotGone) ==> Conserved(decode.value)
    {
      dAcknowledged := false;
      if state.Prefilling? && publish.Unknown? {
        var ended, ask := WithdrawUnknown();
        if ask { var _ := AbortRemote(); }
        end := Some(ended);
      } else if state.Prefilling? && publish.NotStarted? {
        var ended := WithdrawUnstarted();
        end := Some(ended);
      } else {
        var r, fenced, pReleased, pAcknowledged;
        r, dAcknowledged, fenced, pReleased, pAcknowledged := FenceAndAbort();
        if r.None? { return None, dAcknowledged; }
        end := Some(r.value.0);
      }
      if !state.Finished? && !state.Aborted? { var _ := Transition(Aborted); }
    }
  }

  /**
   One run of the failure: while the cleanup of a decoding request waits for its
   abort, the worker is quarantined and reconciled into the SAME epoch, which
   forgets who held slots, and another request takes the one slot. The
   acknowledged abort then gives that slot back, so that every slot counts as free
   while one is in use.
   */
  method SameEpochReconcileOverReleases(epoch: string) returns (end: SlotEnd, d: Decode)
    requires epoch != ""
    ensures end.SlotReleased? && d.free == d.max == d.others == 1 && !Conserved(d)
  {
    var req := new Request(epoch, "prefill", Acked, Decoding, Decode(epoch, false, 0, 1, 0, true), NoTask);
    req.QuarantineDecode();
    req.RebuildDecode(epoch, 1);
    req.OtherTakes();
    var proof := CleanupProof(Decoding, AlreadyCompleted, AbortAck, NoTransfer, None, Acked, false, true, false);
    assert ValidProof(proof) && DSlotReleasable(proof);
    end := req.SettleSlot(proof, false);
    d := req.decode.value;
  }
}
