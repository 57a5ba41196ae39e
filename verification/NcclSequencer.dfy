/**
 The global gate in front of paired transfers. Tasks interleave at every call;
 the gate admits one pair at a time and is poisoned for good by the first pair
 whose end is not proven. `Step` is one event of one task.
 */
module NcclSequencer {
  import opened Wrappers

  type Task = nat

  datatype State = Prepared | Running | Completed | Fenced | Unknown | Other

  /** The result part of an endpoint's status; a field is absent or of its proper type. */
  datatype Facts = Facts(
    pair: Option<string>, bytes: Option<int>, workTerminal: Option<bool>, cudaTerminal: Option<bool>)

  datatype Status = Status(state: State, facts: Option<Facts>)

  /** Both endpoints completed, moved the same positive number of bytes, and their work and device are done. */
  predicate Proven(source: Status, target: Status) {
    && source.state.Completed? && target.state.Completed?
    && source.facts.Some? && target.facts.Some?
    && source.facts.value.bytes.Some? && source.facts.value.bytes.value > 0
    && source.facts.value.bytes == target.facts.value.bytes
    && source.facts.value.workTerminal == Some(true) && target.facts.value.workTerminal == Some(true)
    && source.facts.value.cudaTerminal == Some(true) && target.facts.value.cudaTerminal == Some(true)
  }

  datatype FactsError = NotCompleted | ResultMissing | BytesDisagree | ProofIncomplete

  /** The bytes moved, or why the two reports do not prove a finished transfer. */
  function TerminalTransferFacts(source: Status, target: Status): (r: Result<int, FactsError>)
    ensures r.Ok? <==> Proven(source, target)
    ensures r.Ok? ==> r.value > 0
  {
    if !source.state.Completed? || !target.state.Completed? then Err(NotCompleted)
    else if source.facts.None? || target.facts.None? then Err(ResultMissing)
    else
      var s, t := source.facts.value, target.facts.value;
      if s.bytes.None? || s.bytes.value <= 0 || s.bytes != t.bytes then Err(BytesDisagree)
      else if s.workTerminal != Some(true) || t.workTerminal != Some(true) then Err(ProofIncomplete)
      else if s.cudaTerminal != Some(true) || t.cudaTerminal != Some(true) then Err(ProofIncomplete)
      else Ok(s.bytes.value)
  }

  /** A lost reply is made good only by a status of the same ref that carries launch authority. */
  predicate Reconciles(sameRefLost: bool, sameRefRead: bool, status: Status) {
    && sameRefLost && sameRefRead
    && !status.state.Fenced? && !status.state.Other?
    && status.facts.Some?
    && status.facts.value.pair.Some? && status.facts.value.pair.value != ""
    && status.facts.value.bytes.Some? && status.facts.value.bytes.value > 0
    && status.facts.value.workTerminal.Some? && status.facts.value.cudaTerminal.Some?
  }

  datatype Pc =
    | Waiting
    | PreparingTarget
    | ReconcilingTarget(sameRefLost: bool)
    | StartingSource
    | ReconcilingSource(sameRefLost: bool)
    | AwaitingTerminals(source: Option<Status>, target: Option<Status>)
    | Returned
    | Raised

  /** What was really asked of the workers, in order. */
  datatype Entry = Launched(t: Task) | Ended(t: Task, source: Status, target: Status) | Broken(t: Task)

  datatype World = World(pc: map<Task, Pc>, lock: Option<Task>, poisoned: bool, log: seq<Entry>)

  const EMPTY := World(map[], None, false, [])

  datatype Step =
    | Arrive(t: Task)
    | Acquire(t: Task)
    | Accepted(t: Task)
    | ReplyLost(t: Task, sameRef: bool)
    | StatusRead(t: Task, sameRef: bool, status: Status)
    | Polled(t: Task, atSource: bool, status: Status, timedOut: bool)
    | CallFailed(t: Task)
    | Cancelled(t: Task)

  /** The holder stops without proof: the gate is poisoned and the lock given back. */
  function Break(w: World, t: Task): World {
    World(w.pc[t := Raised], None, true, w.log + [Broken(t)])
  }

  function Goto(w: World, t: Task, pc: Pc): World { w.(pc := w.pc[t := pc]) }

  /** Both endpoints have answered: the pair ends with proof, or breaks the gate. */
  function Finish(w: World, t: Task, source: Status, target: Status): World {
    if TerminalTransferFacts(source, target).Ok?
    then World(w.pc[t := Returned], None, w.poisoned, w.log + [Ended(t, source, target)])
    else Break(w, t)
  }

  function Poll(w: World, t: Task, pc: Pc, atSource: bool, status: Status, timedOut: bool): World
    requires pc.AwaitingTerminals?
  {
    if status.state.Completed? then
      var source := if atSource then Some(status) else pc.source;
      var target := if atSource then pc.target else Some(status);
      if source.Some? && target.Some? then Finish(w, t, source.value, target.value)
      else Goto(w, t, AwaitingTerminals(source, target))
    else if status.state.Fenced? || timedOut then Break(w, t)
    else w
  }

  predicate Holding(pc: Pc) { !pc.Waiting? && !pc.Returned? && !pc.Raised? }

  /** One event; an event that its task is not waiting for changes nothing. */
  function Apply(w: World, s: Step): World {
    if s.Arrive? then (if s.t in w.pc then w else Goto(w, s.t, Waiting))
    else if s.t !in w.pc then w
    else ApplyAt(w, s, w.pc[s.t])
  }

  function ApplyAt(w: World, s: Step, pc: Pc): World {
    match s
    case Arrive(_) => w
    case Acquire(t) =>
      if !pc.Waiting? || w.lock.Some? then w
      else if w.poisoned then Goto(w, t, Raised)
      else World(w.pc[t := PreparingTarget], Some(t), false, w.log + [Launched(t)])
    case Accepted(t) =>
      if pc.PreparingTarget? then Goto(w, t, StartingSource)
      else if pc.StartingSource? then Goto(w, t, AwaitingTerminals(None, None))
      else w
    case ReplyLost(t, same) =>
      if pc.PreparingTarget? then Goto(w, t, ReconcilingTarget(same))
      else if pc.StartingSource? then Goto(w, t, ReconcilingSource(same))
      else w
    case StatusRead(t, same, status) =>
      if pc.ReconcilingTarget? then
        if Reconciles(pc.sameRefLost, same, status) then Goto(w, t, StartingSource) else Break(w, t)
      else if pc.ReconcilingSource? then
        (if Reconciles(pc.sameRefLost, same, status) then Goto(w, t, AwaitingTerminals(None, None)) else Break(w, t))
      else w
    case Polled(t, atSource, status, timedOut) =>
      if pc.AwaitingTerminals? then Poll(w, t, pc, atSource, status, timedOut) else w
    case CallFailed(t) => if Holding(pc) then Break(w, t) else w
    case Cancelled(t) =>
      if Holding(pc) then Break(w, t) else if pc.Waiting? then Goto(w, t, Raised) else w
  }

  function Run(steps: seq<Step>): World {
    if steps == [] then EMPTY else Apply(Run(steps[..|steps| - 1]), steps[|steps| - 1])
  }

  /** What a log says about the gate. */
  datatype Gate = Open | Busy(t: Task) | Shut(t: Task) | Wrong

  function After(g: Gate, e: Entry): Gate {
    match e
    case Launched(t) => if g.Open? then Busy(t) else Wrong
    case Ended(t, source, target) => if g == Busy(t) && Proven(source, target) then Open else Wrong
    case Broken(t) => if g == Busy(t) then Shut(t) else Wrong
  }

  function GateOf(log: seq<Entry>): Gate {
    if log == [] then Open else After(GateOf(log[..|log| - 1]), log[|log| - 1])
  }

  lemma GateAppend(log: seq<Entry>, e: Entry)
    ensures GateOf(log + [e]) == After(GateOf(log), e)
  {
    assert (log + [e])[..|log|] == log;
  }

  /** The lock holder is the one task inside the protocol, and the gate is what the log says. */
  ghost predicate Inv(w: World) {
    && (forall t :: t in w.pc ==> (Holding(w.pc[t]) <==> w.lock == Some(t)))
    && (w.lock.Some? ==> w.lock.value in w.pc && !w.poisoned)
    && match GateOf(w.log) {
         case Open => !w.poisoned && w.lock.None?
         case Busy(t) => !w.poisoned && w.lock == Some(t)
         case Shut(_) => w.poisoned && w.lock.None?
         case Wrong => false
       }
  }

  lemma BreakKeeps(w: World, t: Task)
    requires Inv(w) && t in w.pc && Holding(w.pc[t])
    ensures Inv(Break(w, t))
  {
    GateAppend(w.log, Broken(t));
  }

  lemma FinishKeeps(w: World, t: Task, source: Status, target: Status)
    requires Inv(w) && t in w.pc && Holding(w.pc[t])
    ensures Inv(Finish(w, t, source, target))
  {
    if TerminalTransferFacts(source, target).Ok? {
      GateAppend(w.log, Ended(t, source, target));
    } else {
      BreakKeeps(w, t);
    }
  }

  /** Moving a task without taking or giving the lock. */
  lemma GotoKeeps(w: World, t: Task, pc: Pc)
    requires Inv(w) && Holding(pc) == (w.lock == Some(t))
    ensures Inv(Goto(w, t, pc))
  {
  }

  lemma PollKeeps(w: World, t: Task, atSource: bool, status: Status, timedOut: bool)
    requires Inv(w) && t in w.pc && w.pc[t].AwaitingTerminals?
    ensures Inv(Poll(w, t, w.pc[t], atSource, status, timedOut))
  {
    var pc := w.pc[t];
    if status.state.Completed? {
      var source := if atSource then Some(status) else pc.source;
      var target := if atSource then pc.target else Some(status);
      if source.Some? && target.Some? {
        FinishKeeps(w, t, source.value, target.value);
      } else {
        GotoKeeps(w, t, AwaitingTerminals(source, target));
      }
    } else {
      BreakKeeps(w, t);
    }
  }

  lemma HolderStepKeeps(w: World, s: Step)
    requires Inv(w) && s.t in w.pc && Holding(w.pc[s.t])
    ensures Inv(ApplyAt(w, s, w.pc[s.t]))
  {
    var t, pc := s.t, w.pc[s.t];
    var next := ApplyAt(w, s, pc);
    if s.Polled? && pc.AwaitingTerminals? {
      PollKeeps(w, t, s.atSource, s.status, s.timedOut);
    } else if next == Break(w, t) {
      BreakKeeps(w, t);
    } else if next != w {
      GotoKeeps(w, t, next.pc[t]);
    }
  }

  lemma StepKeeps(w: World, s: Step)
    requires Inv(w)
    ensures Inv(Apply(w, s))
  {
    if s.Arrive? {
      if s.t !in w.pc { GotoKeeps(w, s.t, Waiting); }
    } else if s.t in w.pc && Holding(w.pc[s.t]) {
      HolderStepKeeps(w, s);
    } else if s.t in w.pc && w.pc[s.t].Waiting? && s.Acquire? && w.lock.None? && !w.poisoned {
      GateAppend(w.log, Launched(s.t));
    } else if s.t in w.pc && w.pc[s.t].Waiting? {
      GotoKeeps(w, s.t, Raised);
    }
  }

  lemma {:induction false} EveryRunKeepsInv(steps: seq<Step>)
    ensures Inv(Run(steps))
  {
    if steps != [] {
      EveryRunKeepsInv(steps[..|steps| - 1]);
      StepKeeps(Run(steps[..|steps| - 1]), steps[|steps| - 1]);
    }
  }

  /** Pairs launched so far whose end is not proven. */
  function Unresolved(log: seq<Entry>): set<Task> {
    if log == [] then {}
    else
      var before := Unresolved(log[..|log| - 1]);
      match log[|log| - 1]
      case Launched(t) => before + {t}
      case Ended(t, _, _) => before - {t}
      case Broken(_) => before
  }

  lemma {:induction false} UnresolvedIsTheGate(log: seq<Entry>)
    requires !GateOf(log).Wrong?
    ensures Unresolved(log) == match GateOf(log) { case Busy(t) => {t} case Shut(t) => {t} case _ => {} }
  {
    if log != [] { UnresolvedIsTheGate(log[..|log| - 1]); }
  }

  lemma {:induction false} PrefixIsNotWrong(log: seq<Entry>, n: nat)
    requires !GateOf(log).Wrong? && n <= |log|
    ensures !GateOf(log[..n]).Wrong?
    decreases |log| - n
  {
    if n == |log| {
      assert log[..n] == log;
    } else {
      PrefixIsNotWrong(log, n + 1);
      assert log[..n + 1][..n] == log[..n];
    }
  }

  /** While the gate is not open after a launch of `t`, nothing is launched until `t` ends with proof. */
  lemma {:induction false} OnlyProofReopens(log: seq<Entry>, i: nat, j: nat)
    requires !GateOf(log).Wrong? && i < j < |log| && log[i].Launched? && log[j].Launched?
    ensures exists k :: i < k < j && log[k].Ended? && log[k].t == log[i].t && Proven(log[k].source, log[k].target)
  {
    var t := log[i].t;
    PrefixIsNotWrong(log, i + 1);
    assert log[..i + 1][..i] == log[..i];
    var n := i + 1;
    while n < j && GateOf(log[..n]) == Busy(t)
      invariant i < n <= j && GateOf(log[..n]) in {Busy(t), Shut(t), Open}
      invariant GateOf(log[..n]) == Open ==>
                  exists k :: i < k < n && log[k].Ended? && log[k].t == t && Proven(log[k].source, log[k].target)
    {
      PrefixIsNotWrong(log, n + 1);
      assert log[..n + 1][..n] == log[..n];
      n := n + 1;
    }
    PrefixIsNotWrong(log, n + 1);
    assert log[..n + 1][..n] == log[..n];
  }

  /**
   In every interleaving: at most one pair is launched and unresolved, and
   between two launches the first one's end was proven.
   */
  lemma OnePairAtATime(steps: seq<Step>)
    ensures var log := Run(steps).log;
            && |Unresolved(log)| <= 1
            && forall i, j :: 0 <= i < j < |log| && log[i].Launched? && log[j].Launched? ==>
                 exists k :: i < k < j && log[k].Ended? && log[k].t == log[i].t && Proven(log[k].source, log[k].target)
  {
    EveryRunKeepsInv(steps);
    var log := Run(steps).log;
    UnresolvedIsTheGate(log);
    forall i, j | 0 <= i < j < |log| && log[i].Launched? && log[j].Launched?
      ensures exists k :: i < k < j && log[k].Ended? && log[k].t == log[i].t && Proven(log[k].source, log[k].target)
    {
      OnlyProofReopens(log, i, j);
    }
  }

  /** Once a pair broke, nothing is ever asked of the workers again, whatever follows. */
  lemma {:induction false} PoisonIsForever(steps: seq<Step>, more: seq<Step>)
    requires Run(steps).poisoned
    ensures Run(steps + more).poisoned && Run(steps + more).log == Run(steps).log
    decreases |more|
  {
    if more == [] {
      assert steps + more == steps;
    } else {
      var n := |more| - 1;
      PoisonIsForever(steps, more[..n]);
      assert (steps + more)[..|steps + more| - 1] == steps + more[..n];
      EveryRunKeepsInv(steps + more[..n]);
    }
  }
}
