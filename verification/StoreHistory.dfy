/**
 Whole histories of the replacement store: any sequence of requests, failed
 writes, crashes and reopenings, with ghost bookkeeping of what ever became
 durable.
 */
module StoreHistory {
  import opened Wrappers
  import opened StoreModel

  /** A seal that reached the disk, with the records made durable for its segment. */
  datatype Sealed = Sealed(seal: Seal, records: set<Record>)

  /**
   `live` is the memory of the running store; it is `None` when no process is
   running or when a failed write made the running one refuse everything.
   `segment` collects the records made durable since the last sealed segment was
   dropped; it is computed from the requests, not from the stored image.
   */
  datatype World = World(durable: Durable, live: Option<Image>, history: seq<Sealed>, segment: set<Record>)

  datatype Op =
    | Persist(rec: Record, oldGeneration: string, end: WriteEnd)
    | PersistBatch(batch: seq<Record>, run: string, oldGeneration: string, decision: string, end: WriteEnd)
    | SealRun(run: string, oldGeneration: string, newGeneration: string, decision: string,
              end: WriteEnd, secondEnd: WriteEnd)
    | Crash
    | Reopen(end: WriteEnd)

  predicate Reached(end: WriteEnd) { end.Written? || end.RenamedUnconfirmed? }

  /** Memory after a commit attempt: the target, or nothing usable. */
  function After(target: Image, end: WriteEnd): Option<Image> {
    if end.Written? then Some(target) else None
  }

  ghost function StepPersist(w: World, target: Image, added: set<Record>, end: WriteEnd): World {
    World(AfterWrite(w.durable, target, end), After(target, end), w.history,
          if Reached(end) then w.segment + added else w.segment)
  }

  ghost function StepPlan(w: World, p: Result<Option<Image>, StoreError>, added: set<Record>, end: WriteEnd): World {
    if p.Ok? && p.value.Some? then StepPersist(w, p.value.value, added, end) else w
  }

  /** The second write of a seal, also the one garbage collection repeats after a crash. */
  ghost function StepDrop(w: World, img: Image, end: WriteEnd): World {
    var target := img.(active := None, records := map[]);
    World(AfterWrite(w.durable, target, end), After(target, end), w.history,
          if Reached(end) then {} else w.segment)
  }

  ghost function FirstWrite(w: World, seal: Seal, end: WriteEnd, limits: Limits): World
    requires w.live.Some?
  {
    var first := SealFirst(w.live.value, seal, limits);
    World(AfterWrite(w.durable, first, end), None,
          if Reached(end) then w.history + [Sealed(seal, w.segment)] else w.history, w.segment)
  }

  ghost function StepSeal(w: World, seal: Seal, end: WriteEnd, secondEnd: WriteEnd, limits: Limits): World
    requires w.live.Some?
  {
    var w1 := FirstWrite(w, seal, end, limits);
    if end.Written? then StepDrop(w1, SealFirst(w.live.value, seal, limits), secondEnd) else w1
  }

  ghost function StepReopen(w: World, end: WriteEnd, limits: Limits): World {
    var img := w.durable.image;
    if w.durable.orphan || !Acceptable(img, limits) then w.(live := None)
    else if !HalfSealed(img) then w.(live := Some(img))
    else if !SealMatchesSegment(img) then w.(live := None)
    else StepDrop(w, img, end)
  }

  ghost function Step(w: World, op: Op, limits: Limits): World {
    match op
    case Crash => w.(live := None)
    case Reopen(end) => StepReopen(w, end, limits)
    case Persist(rec, oldGeneration, end) =>
      if w.live.None? then w
      else
        StepPlan(w, PlanPersist(w.live.value, rec, oldGeneration, limits), {rec}, end)
    case PersistBatch(batch, run, oldGeneration, decision, end) =>
      if w.live.None? then w
      else
        StepPlan(w, PlanBatch(w.live.value, batch, run, oldGeneration, decision, limits), Elements(batch), end)
    case SealRun(run, oldGeneration, newGeneration, decision, end, secondEnd) =>
      if w.live.None? then w
      else
        var p := PlanSeal(w.live.value, run, oldGeneration, newGeneration, decision);
        if p.Ok? && p.value.1 then StepSeal(w, p.value.0, end, secondEnd, limits) else w
  }

  const INITIAL := World(Durable(EMPTY, false), None, [], {})

  ghost function Run(ops: seq<Op>, limits: Limits): World
    decreases |ops|
  {
    if ops == [] then INITIAL else Step(Run(ops[..|ops| - 1], limits), ops[|ops| - 1], limits)
  }

  /** What a step does to the disk and to memory does not depend on the ghost bookkeeping. */
  lemma StepIgnoresBookkeeping(w: World, op: Op, limits: Limits)
    ensures var bare := World(w.durable, w.live, [], {});
            && Step(w, op, limits).durable == Step(bare, op, limits).durable
            && Step(w, op, limits).live == Step(bare, op, limits).live
  {
  }

  ghost function Steps(w: World, ops: seq<Op>, limits: Limits): World
    decreases |ops|
  {
    if ops == [] then w else Step(Steps(w, ops[..|ops| - 1], limits), ops[|ops| - 1], limits)
  }

  /** Mentioned where a proof needs the definition of `Leads`; elsewhere it is used by name only. */
  predicate Unfolding(n: nat) { true }

  /** These operations take one disk and memory to another, whatever the bookkeeping. */
  ghost predicate Leads(w: World, ops: seq<Op>, w': World, limits: Limits) {
    forall n: nat {:trigger Unfolding(n)} :: Unfolding(n) ==>
      Steps(w, ops, limits).durable == w'.durable && Steps(w, ops, limits).live == w'.live
  }

  lemma LeadsNowhere(w: World, limits: Limits)
    ensures Leads(w, [], w, limits)
  {
  }

  lemma LeadsOne(w: World, op: Op, w': World, limits: Limits)
    requires Step(w, op, limits).durable == w'.durable && Step(w, op, limits).live == w'.live
    ensures Leads(w, [op], w', limits)
  {
    assert [op][..0] == [];
    assert Steps(w, [], limits) == w;
  }

  lemma {:induction false} LeadsAlike(w: World, v: World, ops: seq<Op>, limits: Limits)
    requires w.durable == v.durable && w.live == v.live
    ensures Leads(w, ops, Steps(v, ops, limits), limits)
    decreases |ops|
  {
    if ops != [] {
      var n := |ops| - 1;
      assert Unfolding(0);
      LeadsAlike(w, v, ops[..n], limits);
      StepIgnoresBookkeeping(Steps(w, ops[..n], limits), ops[n], limits);
      StepIgnoresBookkeeping(Steps(v, ops[..n], limits), ops[n], limits);
    }
  }

  lemma {:induction false} StepsConcat(w: World, ops: seq<Op>, more: seq<Op>, limits: Limits)
    ensures Steps(w, ops + more, limits) == Steps(Steps(w, ops, limits), more, limits)
    decreases |more|
  {
    if more == [] {
      assert ops + more == ops;
    } else {
      var n := |more| - 1;
      assert (ops + more)[..|ops + more| - 1] == ops + more[..n];
      StepsConcat(w, ops, more[..n], limits);
    }
  }

  lemma LeadsOn(w: World, ops: seq<Op>, mid: World, more: seq<Op>, w': World, limits: Limits)
    requires Leads(w, ops, mid, limits) && Leads(mid, more, w', limits)
    ensures Leads(w, ops + more, w', limits)
  {
    assert Unfolding(0);
    StepsConcat(w, ops, more, limits);
    LeadsAlike(Steps(w, ops, limits), mid, more, limits);
  }

  lemma {:induction false} RunIsSteps(ops: seq<Op>, limits: Limits)
    ensures Run(ops, limits) == Steps(INITIAL, ops, limits)
    decreases |ops|
  {
    if ops != [] { RunIsSteps(ops[..|ops| - 1], limits); }
  }

  /** Callers hand over records and generations with non-empty fields. */
  predicate WellFormedOp(op: Op) {
    match op
    case Persist(rec, _, _) => WellFormedRecord(rec)
    case PersistBatch(batch, _, _, _, _) => forall r :: r in batch ==> WellFormedRecord(r)
    case SealRun(_, _, newGeneration, _, _, _) => newGeneration != ""
    case Crash => true
    case Reopen(_) => true
  }

  // ---------------------------------------------------------------------
  // The invariant of every history
  // ---------------------------------------------------------------------

  function Seals(history: seq<Sealed>): (r: seq<Seal>)
    ensures |r| == |history| && forall i :: 0 <= i < |r| ==> r[i] == history[i].seal
  {
    seq(|history|, i requires 0 <= i < |history| => history[i].seal)
  }

  /** The seal counts and hashes exactly the records made durable for its run. */
  predicate Describes(s: Sealed) {
    && s.seal.root == OfRecords(s.records)
    && s.seal.count == |s.records|
    && forall r :: r in s.records ==> r.runId == s.seal.runId && r.decision == s.seal.decision
  }

  ghost predicate GoodHistory(history: seq<Sealed>, retention: nat) {
    && (forall i :: 0 <= i < |history| ==> history[i].seal.sequence == i + 1 && Describes(history[i]))
    && (forall i, j :: 0 <= i < j < |history| && history[i].seal.runId == history[j].seal.runId ==>
          j - i > retention)
  }

  ghost predicate Inv(w: World, limits: Limits) {
    var img := w.durable.image;
    && Acceptable(img, limits)
    && (w.live.Some? ==> w.live.value == img && !w.durable.orphan && !HalfSealed(img))
    && GoodHistory(w.history, limits.retention)
    && img.next == |w.history| + 1
    && img.seals == Latest(Seals(w.history), limits.retention)
    && w.segment == img.records.Values
    && (HalfSealed(img) ==> SealMatchesSegment(img))
  }

  lemma PlanStepKeeps(
    w: World, p: Result<Option<Image>, StoreError>, added: set<Record>, end: WriteEnd, limits: Limits)
    requires Inv(w, limits) && w.live.Some?
    requires p.Ok? && p.value.Some? ==> Extends(p.value.value, w.live.value, added, limits)
    ensures Inv(StepPlan(w, p, added, end), limits)
  {
  }

  lemma DropStepKeeps(w: World, img: Image, end: WriteEnd, limits: Limits)
    requires Inv(w, limits) && img == w.durable.image && HalfSealed(img) && !w.durable.orphan
    ensures Inv(StepDrop(w, img, end), limits)
  {
    var target := img.(active := None, records := map[]);
    assert AcceptableRecords(target.active, target.records, limits.cap);
    assert target.records.Values == {};
    var next := StepDrop(w, img, end);
    if Reached(end) {
      assert next.durable.image == target && next.segment == {};
    } else {
      assert next.durable.image == img && next.segment == w.segment;
    }
  }

  lemma LatestAppend<T>(s: seq<T>, x: T, n: nat)
    requires n > 0
    ensures Latest(Latest(s, n) + [x], n) == Latest(s + [x], n)
  {
  }

  /** The segment being sealed is described by its seal. */
  lemma NewSealDescribes(w: World, seal: Seal, limits: Limits)
    requires Inv(w, limits) && w.live.Some? && w.live.value.active.Some?
    requires var img := w.live.value;
             && seal.root == Root(img.records) && seal.count == |img.records|
             && img.active.value.runId == seal.runId && img.active.value.decision == seal.decision
    ensures Describes(Sealed(seal, w.segment))
  {
    var img := w.live.value;
    ValuesCount(img.records);
    forall r | r in w.segment ensures r.runId == seal.runId && r.decision == seal.decision {
      var k :| k in img.records && img.records[k] == r;
    }
  }

  lemma RecentIsRetained(history: seq<Sealed>, retention: nat, i: nat)
    requires i < |history| && |history| - i <= retention
    ensures SealFor(Latest(Seals(history), retention), history[i].seal.runId).Some?
  {
    var kept := Latest(Seals(history), retention);
    assert kept[|kept| - (|history| - i)] == Seals(history)[i];
  }

  lemma NewSealKeepsHistory(w: World, seal: Seal, limits: Limits)
    requires limits.Valid() && Inv(w, limits) && w.live.Some? && w.live.value.active.Some?
    requires var img := w.live.value;
             && seal.root == Root(img.records) && seal.count == |img.records| && seal.sequence == img.next
             && img.active.value.runId == seal.runId && img.active.value.decision == seal.decision
             && SealFor(img.seals, seal.runId).None?
    ensures GoodHistory(w.history + [Sealed(seal, w.segment)], limits.retention)
    ensures Latest(w.live.value.seals + [seal], limits.retention)
            == Latest(Seals(w.history + [Sealed(seal, w.segment)]), limits.retention)
  {
    var history := w.history + [Sealed(seal, w.segment)];
    NewSealDescribes(w, seal, limits);
    forall i, j | 0 <= i < j < |history| && history[i].seal.runId == history[j].seal.runId
      ensures j - i > limits.retention
    {
      if j == |w.history| && j - i <= limits.retention {
        RecentIsRetained(w.history, limits.retention, i);
        assert false;
      }
    }
    assert Seals(history) == Seals(w.history) + [seal];
    LatestAppend(Seals(w.history), seal, limits.retention);
  }

  lemma FirstWriteKeeps(w: World, seal: Seal, end: WriteEnd, limits: Limits)
    requires limits.Valid() && Inv(w, limits) && w.live.Some? && w.live.value.active.Some?
    requires var img := w.live.value;
             && seal.root == Root(img.records) && seal.count == |img.records| && seal.sequence == img.next
             && img.active.value.runId == seal.runId && img.active.value.decision == seal.decision
             && SealFor(img.seals, seal.runId).None?
    requires HalfWritten(SealFirst(w.live.value, seal, limits), limits)
    ensures Inv(FirstWrite(w, seal, end, limits), limits)
  {
    var next := FirstWrite(w, seal, end, limits);
    if Reached(end) {
      var first := SealFirst(w.live.value, seal, limits);
      assert next.durable.image == first && next.history == w.history + [Sealed(seal, w.segment)];
      assert GoodHistory(next.history, limits.retention)
             && first.seals == Latest(Seals(next.history), limits.retention) by {
        NewSealKeepsHistory(w, seal, limits);
      }
    } else {
      assert next.durable.image == w.durable.image && next.history == w.history;
    }
  }

  lemma SealStepKeeps(
    w: World, run: string, oldGeneration: string, newGeneration: string, decision: string,
    end: WriteEnd, secondEnd: WriteEnd, limits: Limits)
    requires limits.Valid() && Inv(w, limits) && w.live.Some? && newGeneration != ""
    requires var p := PlanSeal(w.live.value, run, oldGeneration, newGeneration, decision); p.Ok? && p.value.1
    ensures var seal := PlanSeal(w.live.value, run, oldGeneration, newGeneration, decision).value.0;
            Inv(StepSeal(w, seal, end, secondEnd, limits), limits)
  {
    var img := w.live.value;
    var seal := PlanSeal(img, run, oldGeneration, newGeneration, decision).value.0;
    var first := SealFirst(img, seal, limits);
    PlannedSeal(img, run, oldGeneration, newGeneration, decision, limits);
    FirstIsHalfWritten(img, seal, limits);
    FirstWriteKeeps(w, seal, end, limits);
    if end.Written? { DropStepKeeps(FirstWrite(w, seal, end, limits), first, secondEnd, limits); }
  }

  lemma StepKeepsInv(w: World, op: Op, limits: Limits)
    requires limits.Valid() && Inv(w, limits) && WellFormedOp(op)
    ensures Inv(Step(w, op, limits), limits)
  {
    if op.Reopen? {
      if !w.durable.orphan && HalfSealed(w.durable.image) { DropStepKeeps(w, w.durable.image, op.end, limits); }
    } else if op.Crash? || w.live.None? {
    } else if op.SealRun? {
      var p := PlanSeal(w.live.value, op.run, op.oldGeneration, op.newGeneration, op.decision);
      if p.Ok? && p.value.1 {
        SealStepKeeps(w, op.run, op.oldGeneration, op.newGeneration, op.decision, op.end, op.secondEnd, limits);
      }
    } else if op.Persist? {
      PersistExtends(w.live.value, op.rec, op.oldGeneration, limits);
      PlanStepKeeps(w, PlanPersist(w.live.value, op.rec, op.oldGeneration, limits), {op.rec}, op.end, limits);
    } else {
      BatchExtends(w.live.value, op.batch, op.run, op.oldGeneration, op.decision, limits);
      PlanStepKeeps(w, PlanBatch(w.live.value, op.batch, op.run, op.oldGeneration, op.decision, limits),
                    Elements(op.batch), op.end, limits);
    }
  }

  lemma {:induction false} EveryRunKeepsInv(ops: seq<Op>, limits: Limits)
    requires limits.Valid() && forall i :: 0 <= i < |ops| ==> WellFormedOp(ops[i])
    ensures Inv(Run(ops, limits), limits)
    decreases |ops|
  {
    if ops != [] {
      EveryRunKeepsInv(ops[..|ops| - 1], limits);
      StepKeepsInv(Run(ops[..|ops| - 1], limits), ops[|ops| - 1], limits);
    }
  }

  // ---------------------------------------------------------------------
  // Main results
  // ---------------------------------------------------------------------

  /**
   Over every history: durable seals are numbered 1, 2, 3, ... without gap or
   reuse, the retained list is the latest part of that history, every seal counts
   and hashes exactly the records made durable for its run, a run can be sealed
   again only after its earlier seal left retention, and the active segment holds
   at most one decision per (operation, lease).
   */
  lemma SealHistory(ops: seq<Op>, limits: Limits)
    requires limits.Valid() && forall i :: 0 <= i < |ops| ==> WellFormedOp(ops[i])
    ensures var w := Run(ops, limits);
            && (forall i :: 0 <= i < |w.history| ==> w.history[i].seal.sequence == i + 1 && Describes(w.history[i]))
            && w.durable.image.seals == Latest(Seals(w.history), limits.retention)
            && (forall i, j :: 0 <= i < j < |w.history| && w.history[i].seal.runId == w.history[j].seal.runId ==>
                  j - i > limits.retention)
            && w.segment == w.durable.image.records.Values
            && (forall r, r' :: r in w.segment && r' in w.segment && r.Lease() == r'.Lease() ==> r == r')
  {
    EveryRunKeepsInv(ops, limits);
    var w := Run(ops, limits);
    forall r, r' | r in w.segment && r' in w.segment && r.Lease() == r'.Lease() ensures r == r' {
      var k :| k in w.durable.image.records && w.durable.image.records[k] == r;
      var k' :| k' in w.durable.image.records && w.durable.image.records[k'] == r';
    }
  }

  /** This operation sealed a run with these fields. */
  predicate Sealing(op: Op, seal: Seal) {
    && op.SealRun? && op.run == seal.runId && OfText(op.oldGeneration) == seal.oldGeneration
    && op.newGeneration == seal.newGeneration && op.decision == seal.decision
  }

  /** This operation handed over the record. */
  predicate Handing(op: Op, r: Record) { (op.Persist? && op.rec == r) || (op.PersistBatch? && r in op.batch) }

  ghost predicate SealsAsked(history: seq<Sealed>, ops: seq<Op>) {
    forall s :: s in history ==> exists op :: op in ops && Sealing(op, s.seal)
  }

  ghost predicate RecordsAsked(records: set<Record>, ops: seq<Op>) {
    forall r :: r in records ==> exists op :: op in ops && Handing(op, r)
  }

  ghost predicate AllAskedFor(w: World, ops: seq<Op>) {
    && SealsAsked(w.history, ops) && RecordsAsked(w.segment, ops)
    && forall s :: s in w.history ==> RecordsAsked(s.records, ops)
  }

  lemma AskedForLasts(w: World, ops: seq<Op>, op: Op)
    requires AllAskedFor(w, ops)
    ensures AllAskedFor(w, ops + [op])
  {
    forall r | r in w.segment ensures exists o :: o in ops + [op] && Handing(o, r) {
      var o :| o in ops && Handing(o, r);
      assert o in ops + [op];
    }
    forall s | s in w.history ensures exists o :: o in ops + [op] && Sealing(o, s.seal) {
      var o :| o in ops && Sealing(o, s.seal);
      assert o in ops + [op];
    }
    forall s | s in w.history ensures RecordsAsked(s.records, ops + [op]) {
      forall r | r in s.records ensures exists o :: o in ops + [op] && Handing(o, r) {
        var o :| o in ops && Handing(o, r);
        assert o in ops + [op];
      }
    }
  }

  /** A step changes the bookkeeping only by what its operation asks for. */
  lemma StepAsks(w: World, op: Op, limits: Limits)
    ensures var next := Step(w, op, limits);
            && (forall r :: r in next.segment ==> r in w.segment || Handing(op, r))
            && (next.history == w.history
                || (exists seal :: next.history == w.history + [Sealed(seal, w.segment)] && Sealing(op, seal)))
  {
    if op.SealRun? && w.live.Some? {
      var p := PlanSeal(w.live.value, op.run, op.oldGeneration, op.newGeneration, op.decision);
      if p.Ok? && p.value.1 {
        var seal := p.value.0;
        assert Sealing(op, seal);
        assert Step(w, op, limits) == StepSeal(w, seal, op.end, op.secondEnd, limits);
      }
    }
  }

  /** Every durable seal and record, over every history, was asked for by an operation of it. */
  lemma {:induction false} NothingIsMadeUp(ops: seq<Op>, limits: Limits)
    ensures AllAskedFor(Run(ops, limits), ops)
    decreases |ops|
  {
    if ops != [] {
      var n := |ops| - 1;
      var before, op := Run(ops[..n], limits), ops[n];
      var next := Run(ops, limits);
      NothingIsMadeUp(ops[..n], limits);
      AskedForLasts(before, ops[..n], op);
      assert ops[..n] + [op] == ops;
      StepAsks(before, op, limits);
      assert op in ops;
      assert RecordsAsked(next.segment, ops);
      if next.history != before.history {
        var seal :| next.history == before.history + [Sealed(seal, before.segment)] && Sealing(op, seal);
        forall s | s in next.history
          ensures RecordsAsked(s.records, ops) && exists o :: o in ops && Sealing(o, s.seal)
        {
          if s !in before.history { assert s == Sealed(seal, before.segment); }
        }
      }
    }
  }

  /** The same request with every write succeeding. */
  function Undisturbed(op: Op): Op {
    match op
    case Persist(rec, gen, _) => Persist(rec, gen, Written)
    case PersistBatch(batch, run, gen, decision, _) => PersistBatch(batch, run, gen, decision, Written)
    case SealRun(run, gen, next, decision, _, _) => SealRun(run, gen, next, decision, Written, Written)
    case Crash => Crash
    case Reopen(_) => Reopen(Written)
  }

  predicate IsRequest(op: Op) { op.Persist? || op.PersistBatch? || op.SealRun? }

  /** What was left on disk, once settled, is the image from before the request or the one it asked for. */
  ghost predicate Atomic(w: World, stopped: World, post: World) {
    && w.live.Some? && post.live.Some?
    && (Settled(stopped.durable.image) == w.live.value || Settled(stopped.durable.image) == post.live.value)
  }

  /** A crash, then any number of reopenings each of which is itself cut off at its write. */
  ghost function Reopenings(w: World, ends: seq<WriteEnd>, limits: Limits): World
    decreases |ends|
  {
    if ends == [] then Step(w, Crash, limits)
    else Step(Step(Reopenings(w, ends[..|ends| - 1], limits), Reopen(ends[|ends| - 1]), limits), Crash, limits)
  }

  /** However often a reopening is interrupted, the settled image stays the same and a temp file stays noticed. */
  lemma {:induction false} InterruptedReopenings(w: World, ends: seq<WriteEnd>, limits: Limits)
    requires limits.Valid() && Inv(w, limits)
    ensures var left := Reopenings(w, ends, limits);
            && Inv(left, limits) && left.history == w.history
            && Settled(left.durable.image) == Settled(w.durable.image)
            && (w.durable.orphan ==> left.durable.orphan)
    decreases |ends|
  {
    if ends != [] {
      var before := Reopenings(w, ends[..|ends| - 1], limits);
      InterruptedReopenings(w, ends[..|ends| - 1], limits);
      ReopenKeepsSettled(before, ends[|ends| - 1], limits);
      StepKeepsInv(before, Reopen(ends[|ends| - 1]), limits);
    }
  }

  lemma ReopenKeepsSettled(w: World, end: WriteEnd, limits: Limits)
    requires Inv(w, limits)
    ensures var next := Step(w, Reopen(end), limits);
            && Settled(next.durable.image) == Settled(w.durable.image) && next.history == w.history
            && (w.durable.orphan ==> next.durable.orphan)
  {
    var img := w.durable.image;
    if HalfSealed(img) {
      assert Settled(img) == img.(active := None, records := map[]);
      assert Settled(Settled(img)) == Settled(img);
    }
  }

  /** A reopening without a write error serves this image, or nothing where a temp file was left behind. */
  ghost predicate ReopensAs(w: World, img: Image, limits: Limits) {
    Step(w, Reopen(Written), limits).live == if w.durable.orphan then None else Some(img)
  }

  /** What is served is the stored image with any half-written seal completed. */
  lemma ReopenedImage(w: World, limits: Limits)
    requires Inv(w, limits)
    ensures ReopensAs(w, Settled(w.durable.image), limits)
  {
  }

  lemma PlanIsAtomic(
    w: World, p: Result<Option<Image>, StoreError>, added: set<Record>, end: WriteEnd, limits: Limits)
    requires Inv(w, limits) && w.live.Some?
    requires p.Ok? && p.value.Some? ==> Extends(p.value.value, w.live.value, added, limits)
    ensures Atomic(w, StepPlan(w, p, added, end), StepPlan(w, p, added, Written))
  {
    PlanStepKeeps(w, p, added, end, limits);
  }

  lemma SealIsAtomic(
    w: World, run: string, oldGeneration: string, newGeneration: string, decision: string,
    end: WriteEnd, secondEnd: WriteEnd, limits: Limits)
    requires limits.Valid() && Inv(w, limits) && w.live.Some? && newGeneration != ""
    requires var p := PlanSeal(w.live.value, run, oldGeneration, newGeneration, decision); p.Ok? && p.value.1
    ensures var seal := PlanSeal(w.live.value, run, oldGeneration, newGeneration, decision).value.0;
            Atomic(w, StepSeal(w, seal, end, secondEnd, limits), StepSeal(w, seal, Written, Written, limits))
  {
    var img := w.live.value;
    var seal := PlanSeal(img, run, oldGeneration, newGeneration, decision).value.0;
    SealKeepsAcceptable(img, run, oldGeneration, newGeneration, decision, limits);
    SealStopsAt(w, seal, end, secondEnd, limits);
  }

  /** Wherever a seal stops, settling what is on disk gives the image from before or the sealed one. */
  lemma SealStopsAt(w: World, seal: Seal, end: WriteEnd, secondEnd: WriteEnd, limits: Limits)
    requires Inv(w, limits) && w.live.Some? && HalfWritten(SealFirst(w.live.value, seal, limits), limits)
    ensures var first := SealFirst(w.live.value, seal, limits);
            var stopped := StepSeal(w, seal, end, secondEnd, limits);
            && StepSeal(w, seal, Written, Written, limits).live == Some(Settled(first))
            && (Settled(stopped.durable.image) == w.live.value || Settled(stopped.durable.image) == Settled(first))
  {
    var img, first := w.live.value, SealFirst(w.live.value, seal, limits);
    assert Settled(img) == img && Settled(first) == first.(active := None, records := map[]);
    assert Settled(Settled(first)) == Settled(first);
  }

  /**
   Crash refinement: interrupt any request of any history at any write, then
   interrupt any number of reopenings at theirs, and reopen. The store either
   fails closed because a temp file was left behind, or it holds exactly the
   image from before the request or the image the undisturbed request would have
   produced, whichever it was after the first crash; a half-written seal is
   completed.
   */
  lemma CrashRefinement(ops: seq<Op>, op: Op, ends: seq<WriteEnd>, limits: Limits)
    requires limits.Valid() && forall i :: 0 <= i < |ops| ==> WellFormedOp(ops[i])
    requires WellFormedOp(op) && IsRequest(op) && Run(ops, limits).live.Some?
    ensures var w := Run(ops, limits);
            var stopped := Step(w, op, limits);
            var left := Reopenings(stopped, ends, limits);
            && Atomic(w, stopped, Step(w, Undisturbed(op), limits))
            && ReopensAs(left, Settled(stopped.durable.image), limits)
  {
    var w := Run(ops, limits);
    EveryRunKeepsInv(ops, limits);
    RequestIsAtomic(w, op, limits);
    StepKeepsInv(w, op, limits);
    ReopensAfter(Step(w, op, limits), ends, limits);
  }

  lemma ReopensAfter(w: World, ends: seq<WriteEnd>, limits: Limits)
    requires limits.Valid() && Inv(w, limits)
    ensures ReopensAs(Reopenings(w, ends, limits), Settled(w.durable.image), limits)
  {
    InterruptedReopenings(w, ends, limits);
    ReopenedImage(Reopenings(w, ends, limits), limits);
  }

  lemma RequestIsAtomic(w: World, op: Op, limits: Limits)
    requires limits.Valid() && Inv(w, limits) && w.live.Some? && WellFormedOp(op) && IsRequest(op)
    ensures Atomic(w, Step(w, op, limits), Step(w, Undisturbed(op), limits))
  {
    var img := w.live.value;
    if op.SealRun? {
      var p := PlanSeal(img, op.run, op.oldGeneration, op.newGeneration, op.decision);
      if p.Ok? && p.value.1 {
        SealIsAtomic(w, op.run, op.oldGeneration, op.newGeneration, op.decision, op.end, op.secondEnd, limits);
      }
    } else if op.Persist? {
      PersistExtends(img, op.rec, op.oldGeneration, limits);
      PlanIsAtomic(w, PlanPersist(img, op.rec, op.oldGeneration, limits), {op.rec}, op.end, limits);
    } else {
      BatchExtends(img, op.batch, op.run, op.oldGeneration, op.decision, limits);
      PlanIsAtomic(w, PlanBatch(img, op.batch, op.run, op.oldGeneration, op.decision, limits),
                   Elements(op.batch), op.end, limits);
    }
  }

  // ---------------------------------------------------------------------
  // Sealing a run id again
  // ---------------------------------------------------------------------

  /** One of the latest `retention` seals is of this run. */
  ghost predicate SealedLately(history: seq<Sealed>, run: string, retention: nat) {
    exists i :: 0 <= i < |history| && |history| - i <= retention && history[i].seal.runId == run
  }

  lemma RetainedIff(history: seq<Sealed>, run: string, retention: nat)
    ensures SealFor(Latest(Seals(history), retention), run).Some? <==> SealedLately(history, run, retention)
  {
    var kept := Latest(Seals(history), retention);
    var d := |history| - |kept|;
    if SealFor(kept, run).Some? {
      var k :| 0 <= k < |kept| && kept[k].runId == run;
      assert kept[k] == Seals(history)[k + d] == history[k + d].seal;
    }
    if i :| 0 <= i < |history| && |history| - i <= retention && history[i].seal.runId == run {
      RecentIsRetained(history, retention, i);
    }
  }

  /** An empty segment of a run, persisted and sealed without a write error. */
  ghost function Reseal(
    w: World, run: string, oldGeneration: string, newGeneration: string, decision: string, limits: Limits): World
  {
    Step(Step(w, PersistBatch([], run, oldGeneration, decision, Written), limits),
         SealRun(run, oldGeneration, newGeneration, decision, Written, Written), limits)
  }

  lemma EmptyBatchOpens(w: World, run: string, oldGeneration: string, decision: string, limits: Limits)
    requires Inv(w, limits) && w.live.Some? && w.live.value.active.None?
    requires run != "" && oldGeneration != "" && decision != "" && SealFor(w.live.value.seals, run).None?
    ensures var img := w.live.value.(active := Some(ActiveRun(run, OfText(oldGeneration), decision)));
            Step(w, PersistBatch([], run, oldGeneration, decision, Written), limits)
            == World(w.durable.(image := img), Some(img), w.history, w.segment)
  {
    assert w.live.value.records == map[];
    assert AddAll(map[], []) == Ok(map[]);
    assert w.segment + Elements([]) == w.segment;
  }

  /** The live image is closed and no temp file is left, so the next run can be opened and sealed. */
  ghost predicate Closed(w: World, limits: Limits) {
    Inv(w, limits) && w.live.Some? && w.live.value.active.None?
  }

  lemma OpenSegmentSeals(
    w: World, run: string, oldGeneration: string, newGeneration: string, decision: string, limits: Limits)
    requires limits.Valid() && Inv(w, limits) && w.live.Some? && newGeneration != ""
    requires run != "" && oldGeneration != "" && SealFor(w.live.value.seals, run).None?
    requires w.live.value.active == Some(ActiveRun(run, OfText(oldGeneration), decision))
    ensures Appended(w, Step(w, SealRun(run, oldGeneration, newGeneration, decision, Written, Written), limits),
                     run, limits)
  {
    var seal := NewSeal(w.live.value, run, oldGeneration, newGeneration, decision);
    var next := StepSeal(w, seal, Written, Written, limits);
    assert PlanSeal(w.live.value, run, oldGeneration, newGeneration, decision) == Ok((seal, true));
    assert Step(w, SealRun(run, oldGeneration, newGeneration, decision, Written, Written), limits) == next;
    assert Inv(next, limits) by {
      SealStepKeeps(w, run, oldGeneration, newGeneration, decision, Written, Written, limits);
    }
    SealAppends(w, seal, limits);
  }

  lemma SealAppends(w: World, seal: Seal, limits: Limits)
    requires w.live.Some?
    ensures var next := StepSeal(w, seal, Written, Written, limits);
            && next.live.Some? && next.live.value.active.None?
            && next.history == w.history + [Sealed(seal, w.segment)]
  {
  }

  lemma RetainedRunIsRefused(
    w: World, run: string, oldGeneration: string, newGeneration: string, decision: string, limits: Limits)
    requires w.live.Some? && SealFor(w.live.value.seals, run).Some?
    ensures Reseal(w, run, oldGeneration, newGeneration, decision, limits) == w
  {
    assert Step(w, PersistBatch([], run, oldGeneration, decision, Written), limits) == w;
  }

  lemma ForgottenRunIsSealed(
    w: World, run: string, oldGeneration: string, newGeneration: string, decision: string, limits: Limits)
    requires limits.Valid() && Closed(w, limits) && SealFor(w.live.value.seals, run).None?
    requires run != "" && oldGeneration != "" && newGeneration != "" && decision != ""
    ensures Appended(w, Reseal(w, run, oldGeneration, newGeneration, decision, limits), run, limits)
  {
    var midway := Step(w, PersistBatch([], run, oldGeneration, decision, Written), limits);
    StepKeepsInv(w, PersistBatch([], run, oldGeneration, decision, Written), limits);
    assert midway.history == w.history && midway.live.Some? && SealFor(midway.live.value.seals, run).None?
           && midway.live.value.active == Some(ActiveRun(run, OfText(oldGeneration), decision)) by {
      EmptyBatchOpens(w, run, oldGeneration, decision, limits);
    }
    OpenSegmentSeals(midway, run, oldGeneration, newGeneration, decision, limits);
  }

  /** One seal of this run was added to the history, and the store is closed again. */
  ghost predicate Appended(w: World, next: World, run: string, limits: Limits) {
    && Closed(next, limits) && |next.history| == |w.history| + 1
    && next.history[..|w.history|] == w.history && next.history[|w.history|].seal.runId == run
  }

  /**
   A run id can be sealed, again or for the first time, exactly when none of the
   latest `retention` seals is of that run; otherwise nothing changes.
   */
  lemma ResealsIff(
    w: World, run: string, oldGeneration: string, newGeneration: string, decision: string, limits: Limits)
    requires limits.Valid() && Closed(w, limits)
    requires run != "" && oldGeneration != "" && newGeneration != "" && decision != ""
    ensures var next := Reseal(w, run, oldGeneration, newGeneration, decision, limits);
            if SealedLately(w.history, run, limits.retention) then next == w else Appended(w, next, run, limits)
  {
    RetainedIff(w.history, run, limits.retention);
    if SealedLately(w.history, run, limits.retention) {
      RetainedRunIsRefused(w, run, oldGeneration, newGeneration, decision, limits);
    } else {
      ForgottenRunIsSealed(w, run, oldGeneration, newGeneration, decision, limits);
    }
  }

  lemma FirstOpening(limits: Limits)
    requires limits.Valid()
    ensures Run([Reopen(Written)], limits) == INITIAL.(live := Some(EMPTY))
    ensures Closed(Run([Reopen(Written)], limits), limits)
  {
    assert [Reopen(Written)][..0] == [];
    EveryRunKeepsInv([Reopen(Written)], limits);
  }

  /** One concrete history in which a run is sealed twice: with retention one, seal "a", "b" and "a" again. */
  lemma RunSealedTwice()
    ensures var limits := Limits(1, 1);
            var one := Reseal(Run([Reopen(Written)], limits), "a", "g0", "g1", "d", limits);
            var two := Reseal(one, "b", "g1", "g2", "d", limits);
            var three := Reseal(two, "a", "g2", "g3", "d", limits);
            && |three.history| == 3 && Closed(three, limits)
            && three.history[0].seal.runId == "a" && three.history[2].seal.runId == "a"
  {
    var limits := Limits(1, 1);
    var start := Run([Reopen(Written)], limits);
    FirstOpening(limits);
    var one := Reseal(start, "a", "g0", "g1", "d", limits);
    ResealsIff(start, "a", "g0", "g1", "d", limits);
    var two := Reseal(one, "b", "g1", "g2", "d", limits);
    ResealsIff(one, "b", "g1", "g2", "d", limits);
    var three := Reseal(two, "a", "g2", "g3", "d", limits);
    ResealsIff(two, "a", "g2", "g3", "d", limits);
    assert one.history == [one.history[0]];
    assert two.history[..1][0] == one.history[0];
    assert three.history[..2][0] == two.history[0];
  }

  // ---------------------------------------------------------------------
  // Fields the store writes and then refuses to load
  // ---------------------------------------------------------------------

  const NO_DIGEST := Record("cleanup", "run", "", "operation", "lease", ["DECODE_SLOT"], "decision")

  /** A record with an empty field is made durable, and the next process refuses the file. */
  lemma EmptyFieldIsWrittenThenRefused(limits: Limits)
    requires limits.Valid()
    ensures var start := Run([Reopen(Written)], limits);
            var written := Step(start, PersistBatch([NO_DIGEST], "run", "old", "decision", Written), limits);
            && written.live.Some? && written.durable.image.records == map[NO_DIGEST.Key() := NO_DIGEST]
            && Step(Step(written, Crash, limits), Reopen(Written), limits).live.None?
  {
    var start := Run([Reopen(Written)], limits);
    FirstOpening(limits);
    var batch := [NO_DIGEST];
    assert batch[..0] == [] && AddAll(map[], []) == Ok(map[]);
    assert AddAll(map[], batch) == Ok(map[NO_DIGEST.Key() := NO_DIGEST]);
    var target := EMPTY.(active := Some(ActiveRun("run", OfText("old"), "decision")),
                         records := map[NO_DIGEST.Key() := NO_DIGEST]);
    assert PlanBatch(EMPTY, batch, "run", "old", "decision", limits) == Ok(Some(target));
    assert !WellFormedRecord(target.records[NO_DIGEST.Key()]);
  }

  /** A seal with an empty new generation is made durable, and the next process refuses the file. */
  lemma EmptyGenerationIsWrittenThenRefused(limits: Limits)
    requires limits.Valid()
    ensures var start := Run([Reopen(Written)], limits);
            var sealing := Step(start, PersistBatch([], "run", "old", "decision", Written), limits);
            var written := Step(sealing, SealRun("run", "old", "", "decision", Written, Written), limits);
            && written.live.Some? && |written.durable.image.seals| == 1
            && Step(Step(written, Crash, limits), Reopen(Written), limits).live.None?
  {
    var start := Run([Reopen(Written)], limits);
    FirstOpening(limits);
    EmptyBatchOpens(start, "run", "old", "decision", limits);
    var sealing := Step(start, PersistBatch([], "run", "old", "decision", Written), limits);
    var img := EMPTY.(active := Some(ActiveRun("run", OfText("old"), "decision")));
    var seal := NewSeal(img, "run", "old", "", "decision");
    assert SealFirst(img, seal, limits).seals == [seal];
    var written := Step(sealing, SealRun("run", "old", "", "decision", Written, Written), limits);
    assert written.durable.image.seals == [seal];
    assert seal in [seal] && !WellFormedSeal(seal);
  }
}
