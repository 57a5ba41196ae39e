/**
 Values of the durable replacement store: what a store file means, which
 requests the store refuses, and which image each accepted request writes.

 A digest is an injective constructor over the value that was hashed, so two
 digests are equal exactly when the hashed values are.
 */
module StoreModel {
  import opened Wrappers

  type Key = (string, string, string)

  datatype Record = Record(
    cleanupId: string, runId: string, oldOperationDigest: string,
    operationId: string, leaseId: string, kinds: seq<string>, decision: string)
  {
    function Key(): Key { (cleanupId, runId, oldOperationDigest) }
    function Lease(): (string, string) { (operationId, leaseId) }
  }

  datatype Digest = OfText(text: string) | OfRecords(records: set<Record>)

  datatype ActiveRun = ActiveRun(runId: string, oldGeneration: Digest, decision: string)

  datatype Seal = Seal(
    sequence: int, runId: string, oldGeneration: Digest, newGeneration: string,
    decision: string, root: Digest, count: int)

  /** What the process holds in memory and what a store file decodes to. */
  datatype Image = Image(active: Option<ActiveRun>, records: map<Key, Record>, seals: seq<Seal>, next: int)

  const EMPTY := Image(None, map[], [], 1)

  /** Caps the store is opened with; both must be positive. */
  datatype Limits = Limits(cap: nat, retention: nat) {
    predicate Valid() { cap > 0 && retention > 0 }
  }

  datatype StoreError = Unavailable | Capacity | Conflict | Retired(seal: Seal) | UnknownRun | Malformed

  function Root(records: map<Key, Record>): Digest { OfRecords(records.Values) }

  /** The first retained seal of a run. */
  function SealFor(seals: seq<Seal>, run: string): (r: Option<Seal>)
    ensures r.Some? <==> exists i :: 0 <= i < |seals| && seals[i].runId == run
    ensures r.Some? ==> r.value in seals && r.value.runId == run
  {
    if seals == [] then None
    else if seals[0].runId == run then Some(seals[0])
    else SealFor(seals[1..], run)
  }

  // ---------------------------------------------------------------------
  // What a load accepts
  // ---------------------------------------------------------------------

  predicate WellFormedRecord(r: Record) {
    && r.cleanupId != "" && r.runId != "" && r.oldOperationDigest != ""
    && r.operationId != "" && r.leaseId != "" && r.decision != ""
  }

  predicate WellFormedSeal(s: Seal) {
    && s.sequence > 0 && s.count >= 0
    && s.runId != "" && s.newGeneration != "" && s.decision != ""
  }

  ghost predicate AllWellFormed(seals: seq<Seal>) { forall s :: s in seals ==> WellFormedSeal(s) }

  /** Numbers rise and no run repeats. */
  ghost predicate Rising(seals: seq<Seal>) {
    forall i, j :: 0 <= i < j < |seals| ==>
      seals[i].sequence < seals[j].sequence && seals[i].runId != seals[j].runId
  }

  ghost predicate AcceptableSeals(seals: seq<Seal>, next: int, retention: nat) {
    && AllWellFormed(seals)
    && |seals| <= retention
    && Rising(seals)
    && next > 0
    && (|seals| > 0 ==> next > seals[|seals| - 1].sequence)
  }

  ghost predicate AcceptableRecords(active: Option<ActiveRun>, records: map<Key, Record>, cap: nat) {
    && (forall k :: k in records ==> WellFormedRecord(records[k]) && records[k].Key() == k)
    && UniqueLeases(records)
    && |records| <= cap
    && (active.None? ==> records == map[])
    && (active.Some? ==>
          && active.value.decision != ""
          && forall k :: k in records ==>
               records[k].runId == active.value.runId && records[k].decision == active.value.decision)
  }

  ghost predicate UniqueLeases(records: map<Key, Record>) {
    forall k, k' :: k in records && k' in records && k != k' ==> records[k].Lease() != records[k'].Lease()
  }

  /** The images a reopened store accepts. */
  ghost predicate Acceptable(img: Image, limits: Limits) {
    && AcceptableRecords(img.active, img.records, limits.cap)
    && AcceptableSeals(img.seals, img.next, limits.retention)
  }

  /** The run that is still active already has its seal: the store died between the two seal writes. */
  predicate HalfSealed(img: Image) {
    img.active.Some? && SealFor(img.seals, img.active.value.runId).Some?
  }

  /** The retained seal of the active run describes exactly the active segment. */
  predicate SealMatchesSegment(img: Image)
    requires HalfSealed(img)
  {
    var seal := SealFor(img.seals, img.active.value.runId).value;
    && seal.count == |img.records|
    && seal.root == Root(img.records)
    && seal.oldGeneration == img.active.value.oldGeneration
    && seal.decision == img.active.value.decision
  }

  /** An image between the two writes of a seal. */
  ghost predicate HalfWritten(img: Image, limits: Limits) {
    Acceptable(img, limits) && HalfSealed(img) && SealMatchesSegment(img)
  }

  /** Garbage collection after a restart: a sealed segment is dropped. */
  function Settled(img: Image): Image {
    if HalfSealed(img) then img.(active := None, records := map[]) else img
  }

  // ---------------------------------------------------------------------
  // Requests: what is refused, what is written
  // ---------------------------------------------------------------------

  /** Binds a request to the one unsealed run, if there is one. */
  function CheckRun(img: Image, run: string, oldGeneration: string, decision: string): Option<StoreError> {
    if run == "" || oldGeneration == "" then Some(UnknownRun)
    else if img.active.None? then None
    else if img.active.value.runId != run then Some(UnknownRun)
    else if img.active.value.oldGeneration != OfText(oldGeneration) then Some(Conflict)
    else if img.active.value.decision != decision then Some(Conflict)
    else None
  }

  ghost predicate LeaseTaken(records: map<Key, Record>, rec: Record) {
    exists k :: k in records && records[k].Lease() == rec.Lease() && k != rec.Key()
  }

  /** Looks a record up: an exact copy, nothing, or the reason for a refusal. */
  function Lookup(img: Image, rec: Record, oldGeneration: string): Result<Option<Record>, StoreError> {
    if rec.Key() in img.records then
      if img.records[rec.Key()] != rec then Err(Conflict) else Ok(Some(rec))
    else
      var seal := SealFor(img.seals, rec.runId);
      if seal.Some? then Err(Retired(seal.value))
      else
        var refusal := CheckRun(img, rec.runId, oldGeneration, rec.decision);
        if refusal.Some? then Err(refusal.value) else Ok(None)
  }

  /** `Ok(None)` answers from memory; `Ok(Some(target))` commits `target` first. */
  ghost function PlanPersist(img: Image, rec: Record, oldGeneration: string, limits: Limits)
    : Result<Option<Image>, StoreError>
  {
    var found := Lookup(img, rec, oldGeneration);
    if found.Err? then Err(found.error)
    else if found.value.Some? then Ok(None)
    else if |img.records| >= limits.cap then Err(Capacity)
    else if LeaseTaken(img.records, rec) then Err(Conflict)
    else
      var run := if img.active.Some? then img.active.value
                 else ActiveRun(rec.runId, OfText(oldGeneration), rec.decision);
      Ok(Some(img.(active := Some(run), records := img.records[rec.Key() := rec])))
  }

  /** Adds a batch record by record; any disagreement refuses the whole batch. */
  ghost function AddAll(records: map<Key, Record>, batch: seq<Record>): Result<map<Key, Record>, StoreError>
    decreases |batch|
  {
    if batch == [] then Ok(records)
    else
      var rest := AddAll(records, batch[..|batch| - 1]);
      var rec := batch[|batch| - 1];
      if rest.Err? then rest
      else if rec.Key() in rest.value then
        if rest.value[rec.Key()] != rec then Err(Conflict) else rest
      else if LeaseTaken(rest.value, rec) then Err(Conflict)
      else Ok(rest.value[rec.Key() := rec])
  }

  function BatchDecision(batch: seq<Record>, decision: string): string {
    if decision != "" then decision
    else if batch != [] then batch[0].decision
    else ""
  }

  ghost function PlanBatch(
    img: Image, batch: seq<Record>, run: string, oldGeneration: string, decision: string, limits: Limits)
    : Result<Option<Image>, StoreError>
  {
    var seal := SealFor(img.seals, run);
    var wanted := BatchDecision(batch, decision);
    if seal.Some? then Err(Retired(seal.value))
    else if wanted == "" then Err(Conflict)
    else if exists i :: 0 <= i < |batch| && batch[i].decision != wanted then Err(Conflict)
    else
      var refusal := CheckRun(img, run, oldGeneration, wanted);
      if refusal.Some? then Err(refusal.value)
      else if exists i :: 0 <= i < |batch| && batch[i].runId != run then Err(Conflict)
      else
        var merged := AddAll(img.records, batch);
        if merged.Err? then Err(merged.error)
        else if |merged.value| > limits.cap then Err(Capacity)
        else if merged.value == img.records && img.active.Some? then Ok(None)
        else Ok(Some(img.(active := Some(ActiveRun(run, OfText(oldGeneration), wanted)), records := merged.value)))
  }

  /** The last `n` elements, or all of them. */
  function Latest<T>(s: seq<T>, n: nat): (r: seq<T>)
    ensures |r| == if |s| <= n then |s| else n
  {
    if |s| <= n then s else s[|s| - n..]
  }

  function NewSeal(img: Image, run: string, oldGeneration: string, newGeneration: string, decision: string): Seal {
    Seal(img.next, run, OfText(oldGeneration), newGeneration, decision, Root(img.records), |img.records|)
  }

  /** The first of the two writes of a seal: the receipt joins the still active segment. */
  function SealFirst(img: Image, seal: Seal, limits: Limits): Image {
    img.(seals := Latest(img.seals + [seal], limits.retention), next := seal.sequence + 1)
  }

  /** `Ok((seal, false))` repeats a retained receipt; `Ok((seal, true))` is written in two commits. */
  function PlanSeal(img: Image, run: string, oldGeneration: string, newGeneration: string, decision: string)
    : Result<(Seal, bool), StoreError>
  {
    var existing := SealFor(img.seals, run);
    if existing.Some? then
      if existing.value.oldGeneration != OfText(oldGeneration)
         || existing.value.newGeneration != newGeneration
         || existing.value.decision != decision
      then Err(Conflict) else Ok((existing.value, false))
    else
      var refusal := CheckRun(img, run, oldGeneration, decision);
      if refusal.Some? then Err(refusal.value)
      else if img.active.None? then Err(UnknownRun)
      else Ok((NewSeal(img, run, oldGeneration, newGeneration, decision), true))
  }

  /** An exact replay of a retained, already sealed run. */
  function CompletedRun(img: Image, run: string, oldGeneration: string, newGeneration: string, decision: string)
    : Result<Option<Seal>, StoreError>
  {
    var seal := SealFor(img.seals, run);
    if seal.None? then Ok(None)
    else if seal.value.oldGeneration != OfText(oldGeneration) then Err(Conflict)
    else if seal.value.newGeneration != newGeneration then Err(Conflict)
    else if seal.value.decision != decision then Err(Conflict)
    else Ok(seal)
  }

  // ---------------------------------------------------------------------
  // The disk under one atomic write
  // ---------------------------------------------------------------------

  /** How a write can end: only `Written` reports success. */
  datatype WriteEnd = Written | NotOpened | TempLeft | RenamedUnconfirmed

  /** What survives the process: the image of the file (`EMPTY` without a file) and leftover temp files. */
  datatype Durable = Durable(image: Image, orphan: bool)

  function AfterWrite(d: Durable, target: Image, end: WriteEnd): Durable {
    match end
    case Written => d.(image := target)
    case NotOpened => d
    case TempLeft => d.(orphan := true)
    case RenamedUnconfirmed => d.(image := target)
  }

  // ---------------------------------------------------------------------
  // One request keeps images acceptable
  // ---------------------------------------------------------------------

  ghost predicate Keyed(records: map<Key, Record>) { forall k :: k in records ==> records[k].Key() == k }

  lemma AddOneUnique(records: map<Key, Record>, rec: Record)
    requires UniqueLeases(records) && Keyed(records) && rec.Key() !in records && !LeaseTaken(records, rec)
    ensures UniqueLeases(records[rec.Key() := rec]) && Keyed(records[rec.Key() := rec])
  {
  }

  lemma {:induction false} AddAllUnique(records: map<Key, Record>, batch: seq<Record>)
    requires UniqueLeases(records) && Keyed(records)
    ensures var all := AddAll(records, batch); all.Ok? ==> UniqueLeases(all.value) && Keyed(all.value)
    decreases |batch|
  {
    if batch != [] {
      var rest, rec := AddAll(records, batch[..|batch| - 1]), batch[|batch| - 1];
      AddAllUnique(records, batch[..|batch| - 1]);
      if rest.Ok? && rec.Key() !in rest.value && !LeaseTaken(rest.value, rec) { AddOneUnique(rest.value, rec); }
    }
  }

  lemma {:induction false} AddAllGrows(records: map<Key, Record>, batch: seq<Record>)
    ensures AddAll(records, batch).Ok? ==> forall k :: k in records ==>
              k in AddAll(records, batch).value && AddAll(records, batch).value[k] == records[k]
    decreases |batch|
  {
    if batch != [] { AddAllGrows(records, batch[..|batch| - 1]); }
  }

  lemma {:induction false} AddAllFrom(records: map<Key, Record>, batch: seq<Record>)
    ensures AddAll(records, batch).Ok? ==> forall k :: k in AddAll(records, batch).value ==>
              k in records || AddAll(records, batch).value[k] in batch
    decreases |batch|
  {
    if batch != [] {
      AddAllFrom(records, batch[..|batch| - 1]);
      assert batch == batch[..|batch| - 1] + [batch[|batch| - 1]];
    }
  }

  lemma {:induction false} AddAllHolds(records: map<Key, Record>, batch: seq<Record>)
    ensures AddAll(records, batch).Ok? ==> forall i :: 0 <= i < |batch| ==>
              batch[i].Key() in AddAll(records, batch).value && AddAll(records, batch).value[batch[i].Key()] == batch[i]
    decreases |batch|
  {
    if batch != [] {
      var front := batch[..|batch| - 1];
      AddAllHolds(records, front);
      forall i | 0 <= i < |batch| && AddAll(records, batch).Ok?
        ensures var all := AddAll(records, batch).value; batch[i].Key() in all && all[batch[i].Key()] == batch[i]
      {
        if i < |front| { assert front[i] == batch[i]; }
      }
    }
  }

  /** A merged batch keeps what was there, adds only the batch, and shares no lease. */
  lemma AddAllKeeps(records: map<Key, Record>, batch: seq<Record>)
    requires UniqueLeases(records) && forall k :: k in records ==> records[k].Key() == k
    ensures var r := AddAll(records, batch);
            r.Ok? ==>
              && UniqueLeases(r.value)
              && (forall k :: k in r.value ==> r.value[k].Key() == k)
              && (forall k :: k in records ==> k in r.value && r.value[k] == records[k])
              && (forall k :: k in r.value ==> k in records || r.value[k] in batch)
              && (forall i :: 0 <= i < |batch| ==>
                    batch[i].Key() in r.value && r.value[batch[i].Key()] == batch[i])
  {
    AddAllUnique(records, batch);
    AddAllGrows(records, batch);
    AddAllFrom(records, batch);
    AddAllHolds(records, batch);
  }

  lemma SizeOfUpdate(records: map<Key, Record>, rec: Record)
    ensures |records[rec.Key() := rec]| <= |records| + 1
  {
    var m := records[rec.Key() := rec];
    assert m.Keys == records.Keys + {rec.Key()};
  }

  lemma LastIsNewSeal(seals: seq<Seal>, seal: Seal, retention: nat)
    requires retention > 0 && SealFor(seals, seal.runId).None?
    ensures var kept := Latest(seals + [seal], retention);
            && |kept| > 0 && kept[|kept| - 1] == seal
            && SealFor(kept, seal.runId) == Some(seal)
  {
    var kept := Latest(seals + [seal], retention);
    assert kept[|kept| - 1] == seal;
    assert forall i :: 0 <= i < |kept| - 1 ==> kept[i] in seals;
    OnlySealOfRun(kept, seal);
  }

  lemma {:induction false} OnlySealOfRun(seals: seq<Seal>, seal: Seal)
    requires |seals| > 0 && seals[|seals| - 1] == seal
    requires forall i :: 0 <= i < |seals| - 1 ==> seals[i].runId != seal.runId
    ensures SealFor(seals, seal.runId) == Some(seal)
  {
    if |seals| > 1 { OnlySealOfRun(seals[1..], seal); }
  }

  lemma PersistKeepsAcceptable(img: Image, rec: Record, oldGeneration: string, limits: Limits)
    requires Acceptable(img, limits) && WellFormedRecord(rec)
    ensures var p := PlanPersist(img, rec, oldGeneration, limits);
            p.Ok? && p.value.Some? ==> Acceptable(p.value.value, limits) && !HalfSealed(p.value.value)
  {
    var p := PlanPersist(img, rec, oldGeneration, limits);
    if p.Ok? && p.value.Some? {
      var records := img.records[rec.Key() := rec];
      SizeOfUpdate(img.records, rec);
      assert UniqueLeases(records) by {
        forall k, k' | k in records && k' in records && k != k' ensures records[k].Lease() != records[k'].Lease() {
          if k == rec.Key() { assert k' in img.records; }
          else { assert k in img.records; }
        }
      }
      assert AcceptableRecords(p.value.value.active, records, limits.cap);
    }
  }

  lemma BatchKeepsAcceptable(
    img: Image, batch: seq<Record>, run: string, oldGeneration: string, decision: string, limits: Limits)
    requires Acceptable(img, limits) && forall r :: r in batch ==> WellFormedRecord(r)
    ensures var p := PlanBatch(img, batch, run, oldGeneration, decision, limits);
            p.Ok? && p.value.Some? ==> Acceptable(p.value.value, limits) && !HalfSealed(p.value.value)
  {
    var p := PlanBatch(img, batch, run, oldGeneration, decision, limits);
    if p.Ok? && p.value.Some? {
      AddAllKeeps(img.records, batch);
      var target := p.value.value;
      assert forall k :: k in target.records ==> k in img.records || target.records[k] in batch;
      assert AcceptableRecords(target.active, target.records, limits.cap);
    }
  }

  lemma RisingAppend(seals: seq<Seal>, seal: Seal)
    requires Rising(seals) && SealFor(seals, seal.runId).None?
    requires |seals| > 0 ==> seal.sequence > seals[|seals| - 1].sequence
    ensures Rising(seals + [seal])
  {
    var longer := seals + [seal];
    forall i, j | 0 <= i < j < |longer|
      ensures longer[i].sequence < longer[j].sequence && longer[i].runId != longer[j].runId
    {
      assert longer[i] == seals[i];
      if j < |seals| { assert longer[j] == seals[j]; }
      else if i < |seals| - 1 { assert seals[i].sequence < seals[|seals| - 1].sequence; }
    }
  }

  lemma RisingSuffix(seals: seq<Seal>, d: nat)
    requires Rising(seals) && d <= |seals|
    ensures Rising(seals[d..])
  {
    var rest := seals[d..];
    forall i, j | 0 <= i < j < |rest|
      ensures rest[i].sequence < rest[j].sequence && rest[i].runId != rest[j].runId
    {
      assert rest[i] == seals[i + d] && rest[j] == seals[j + d];
    }
  }

  lemma SuffixWellFormed(seals: seq<Seal>, d: nat)
    requires AllWellFormed(seals) && d <= |seals|
    ensures AllWellFormed(seals[d..])
  {
    forall s | s in seals[d..] ensures WellFormedSeal(s) { assert s in seals; }
  }

  lemma AppendWellFormed(seals: seq<Seal>, seal: Seal)
    requires AllWellFormed(seals) && WellFormedSeal(seal)
    ensures AllWellFormed(seals + [seal])
  {
  }

  lemma KeptSealsAcceptable(seals: seq<Seal>, seal: Seal, retention: nat)
    requires retention > 0 && AcceptableSeals(seals, seal.sequence, retention)
    requires WellFormedSeal(seal) && SealFor(seals, seal.runId).None?
    ensures AcceptableSeals(Latest(seals + [seal], retention), seal.sequence + 1, retention)
  {
    var longer := seals + [seal];
    var d := if |longer| <= retention then 0 else |longer| - retention;
    var kept := longer[d..];
    assert Latest(longer, retention) == kept;
    RisingAppend(seals, seal);
    RisingSuffix(longer, d);
    AppendWellFormed(seals, seal);
    SuffixWellFormed(longer, d);
    LastIsNewSeal(seals, seal, retention);
  }

  /** The first write of a seal: acceptable, and found half done on a reload. */
  lemma FirstIsHalfWritten(img: Image, seal: Seal, limits: Limits)
    requires limits.Valid() && Acceptable(img, limits) && img.active.Some? && SealFor(img.seals, seal.runId).None?
    requires WellFormedSeal(seal) && seal.sequence == img.next
    requires seal.count == |img.records| && seal.root == Root(img.records)
    requires seal.runId == img.active.value.runId && seal.decision == img.active.value.decision
    requires seal.oldGeneration == img.active.value.oldGeneration
    ensures HalfWritten(SealFirst(img, seal, limits), limits)
  {
    KeptSealsAcceptable(img.seals, seal, limits.retention);
    LastIsNewSeal(img.seals, seal, limits.retention);
    var first := SealFirst(img, seal, limits);
    assert SealFor(first.seals, first.active.value.runId) == Some(seal);
  }

  /** What a planned seal is. */
  lemma PlannedSeal(
    img: Image, run: string, oldGeneration: string, newGeneration: string, decision: string, limits: Limits)
    requires Acceptable(img, limits) && newGeneration != ""
    requires var p := PlanSeal(img, run, oldGeneration, newGeneration, decision); p.Ok? && p.value.1
    ensures var seal := PlanSeal(img, run, oldGeneration, newGeneration, decision).value.0;
            && seal.sequence == img.next && seal.count == |img.records| && seal.root == Root(img.records)
            && img.active.Some? && seal.runId == img.active.value.runId && seal.decision == img.active.value.decision
            && seal.oldGeneration == img.active.value.oldGeneration
            && SealFor(img.seals, seal.runId).None? && WellFormedSeal(seal)
  {
  }

  lemma SealKeepsAcceptable(
    img: Image, run: string, oldGeneration: string, newGeneration: string, decision: string, limits: Limits)
    requires limits.Valid() && Acceptable(img, limits) && newGeneration != ""
    ensures var p := PlanSeal(img, run, oldGeneration, newGeneration, decision);
            p.Ok? && p.value.1 ==> HalfWritten(SealFirst(img, p.value.0, limits), limits)
  {
    var p := PlanSeal(img, run, oldGeneration, newGeneration, decision);
    if p.Ok? && p.value.1 {
      PlannedSeal(img, run, oldGeneration, newGeneration, decision, limits);
      FirstIsHalfWritten(img, p.value.0, limits);
    }
  }

  function Elements(batch: seq<Record>): set<Record> { set r | r in batch }

  lemma ValuesOfUpdate(records: map<Key, Record>, rec: Record)
    requires rec.Key() !in records
    ensures records[rec.Key() := rec].Values == records.Values + {rec}
  {
    var m := records[rec.Key() := rec];
    assert m[rec.Key()] == rec;
    forall v | v in records.Values ensures v in m.Values {
      var k :| k in records && records[k] == v;
      assert m[k] == v;
    }
  }

  lemma ValuesCount(records: map<Key, Record>)
    requires forall k :: k in records ==> records[k].Key() == k
    ensures |records.Values| == |records|
    decreases |records|
  {
    if records != map[] {
      var k :| k in records;
      var rest := records - {k};
      assert rest.Keys == records.Keys - {k};
      ValuesCount(rest);
      assert records == rest[k := records[k]];
      ValuesOfUpdate(rest, records[k]);
      assert records[k] !in rest.Values;
    }
  }

  lemma BatchValues(records: map<Key, Record>, batch: seq<Record>)
    requires UniqueLeases(records) && forall k :: k in records ==> records[k].Key() == k
    requires AddAll(records, batch).Ok?
    ensures AddAll(records, batch).value.Values == records.Values + Elements(batch)
  {
    AddAllKeeps(records, batch);
    var m := AddAll(records, batch).value;
    forall v | v in records.Values + Elements(batch) ensures v in m.Values {
      if v in records.Values {
        var k :| k in records && records[k] == v;
        assert m[k] == v;
      } else {
        assert m[v.Key()] == v;
      }
    }
    forall v | v in m.Values ensures v in records.Values + Elements(batch) {
      var k :| k in m && m[k] == v;
      if k in records { assert records[k] == v; }
    }
  }

  /** `target` adds exactly `added` to the active segment and touches no seal. */
  ghost predicate Extends(target: Image, img: Image, added: set<Record>, limits: Limits) {
    && Acceptable(target, limits) && !HalfSealed(target)
    && target.seals == img.seals && target.next == img.next
    && target.records.Values == img.records.Values + added
  }

  lemma PersistExtends(img: Image, rec: Record, oldGeneration: string, limits: Limits)
    requires Acceptable(img, limits) && WellFormedRecord(rec)
    ensures var p := PlanPersist(img, rec, oldGeneration, limits);
            p.Ok? && p.value.Some? ==> Extends(p.value.value, img, {rec}, limits)
  {
    var p := PlanPersist(img, rec, oldGeneration, limits);
    if p.Ok? && p.value.Some? {
      PersistKeepsAcceptable(img, rec, oldGeneration, limits);
      ValuesOfUpdate(img.records, rec);
    }
  }

  lemma BatchExtends(
    img: Image, batch: seq<Record>, run: string, oldGeneration: string, decision: string, limits: Limits)
    requires Acceptable(img, limits) && forall r :: r in batch ==> WellFormedRecord(r)
    ensures var p := PlanBatch(img, batch, run, oldGeneration, decision, limits);
            p.Ok? && p.value.Some? ==> Extends(p.value.value, img, Elements(batch), limits)
  {
    var p := PlanBatch(img, batch, run, oldGeneration, decision, limits);
    if p.Ok? && p.value.Some? {
      BatchKeepsAcceptable(img, batch, run, oldGeneration, decision, limits);
      BatchValues(img.records, batch);
    }
  }

  /**
   The store does not check record fields before writing them, but a load does: a
   persisted record can be read back exactly when its fields are non-empty.
   */
  lemma PersistedRecordReloadsIff(img: Image, rec: Record, oldGeneration: string, limits: Limits)
    requires Acceptable(img, limits)
    requires PlanPersist(img, rec, oldGeneration, limits).Ok?
    requires PlanPersist(img, rec, oldGeneration, limits).value.Some?
    ensures Acceptable(PlanPersist(img, rec, oldGeneration, limits).value.value, limits) <==> WellFormedRecord(rec)
  {
    var target := PlanPersist(img, rec, oldGeneration, limits).value.value;
    if WellFormedRecord(rec) {
      PersistKeepsAcceptable(img, rec, oldGeneration, limits);
    } else {
      assert rec.Key() in target.records && target.records[rec.Key()] == rec;
    }
  }

  lemma EmptyFieldIsNotAcceptable(img: Image, rec: Record, limits: Limits)
    requires rec.Key() in img.records && img.records[rec.Key()] == rec && !WellFormedRecord(rec)
    ensures !Acceptable(img, limits)
  {
  }

  /** A batch can be read back exactly when every record in it has non-empty fields. */
  lemma PersistedBatchReloadsIff(
    img: Image, batch: seq<Record>, run: string, oldGeneration: string, decision: string, limits: Limits)
    requires Acceptable(img, limits)
    requires var p := PlanBatch(img, batch, run, oldGeneration, decision, limits); p.Ok? && p.value.Some?
    ensures var target := PlanBatch(img, batch, run, oldGeneration, decision, limits).value.value;
            Acceptable(target, limits) <==> forall r :: r in batch ==> WellFormedRecord(r)
  {
    var target := PlanBatch(img, batch, run, oldGeneration, decision, limits).value.value;
    if forall r :: r in batch ==> WellFormedRecord(r) {
      BatchKeepsAcceptable(img, batch, run, oldGeneration, decision, limits);
    } else {
      var r :| r in batch && !WellFormedRecord(r);
      assert target.records == AddAll(img.records, batch).value;
      AddAllHolds(img.records, batch);
      EmptyFieldIsNotAcceptable(target, r, limits);
    }
  }

  /** Likewise a seal can be read back exactly when the new generation it names is non-empty. */
  lemma WrittenSealReloadsIff(
    img: Image, run: string, oldGeneration: string, newGeneration: string, decision: string, limits: Limits)
    requires limits.Valid() && Acceptable(img, limits) && !HalfSealed(img)
    requires var p := PlanSeal(img, run, oldGeneration, newGeneration, decision); p.Ok? && p.value.1
    ensures var seal := PlanSeal(img, run, oldGeneration, newGeneration, decision).value.0;
            Acceptable(SealFirst(img, seal, limits), limits) <==> newGeneration != ""
  {
    var seal := PlanSeal(img, run, oldGeneration, newGeneration, decision).value.0;
    if newGeneration != "" {
      SealKeepsAcceptable(img, run, oldGeneration, newGeneration, decision, limits);
    } else {
      LastIsNewSeal(img.seals, seal, limits.retention);
      var kept := SealFirst(img, seal, limits).seals;
      assert !WellFormedSeal(kept[|kept| - 1]);
    }
  }
}
