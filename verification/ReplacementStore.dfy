/**
 The replacement decision store as the object the Gateway holds: fields updated
 by commits to an explicit disk. Every method is proved against one step of
 `StoreHistory`, so the whole-history results there speak about this class.
 */
module ReplacementStore {
  import opened Wrappers
  import opened StoreModel
  import opened StoreHistory

  const FORMAT_VERSION := 2

  /** Records are listed in a file; the table they stand for is keyed. */
  datatype Payload = Payload(active: Option<ActiveRun>, records: seq<Record>, seals: seq<Seal>, next: int)
  datatype PayloadDigest = Sha256(payload: Payload)
  datatype Envelope = Envelope(version: int, payload: Payload, digest: PayloadDigest)

  /** No key is listed twice. */
  ghost predicate Unrepeated(list: seq<Record>) {
    forall i, j :: 0 <= i < j < |list| ==> list[i].Key() != list[j].Key()
  }

  ghost function Table(list: seq<Record>): map<Key, Record>
    requires Unrepeated(list)
  {
    map i | 0 <= i < |list| :: list[i].Key() := list[i]
  }

  lemma TableEntries(list: seq<Record>)
    requires Unrepeated(list)
    ensures forall k :: k in Table(list) ==> Table(list)[k].Key() == k && Table(list)[k] in list
    ensures forall i :: 0 <= i < |list| ==> list[i].Key() in Table(list) && Table(list)[list[i].Key()] == list[i]
  {
  }

  ghost function ImageOf(p: Payload): Image
    requires Unrepeated(p.records)
  {
    Image(p.active, Table(p.records), p.seals, p.next)
  }

  lemma TableAppend(list: seq<Record>, rec: Record)
    requires Unrepeated(list + [rec])
    ensures Unrepeated(list) && Table(list + [rec]) == Table(list)[rec.Key() := rec]
  {
    var longer := list + [rec];
    assert forall i :: 0 <= i < |list| ==> list[i] == longer[i];
    TableEntries(list);
    TableEntries(longer);
    assert longer[|list|] == rec;
  }

  class Disk {
    var file: Option<Envelope>
    var orphan: bool

    /** Whatever file is present was written by a store. */
    ghost predicate Valid() reads this {
      file.Some? ==>
        && file.value.version == FORMAT_VERSION
        && file.value.digest == Sha256(file.value.payload)
        && Unrepeated(file.value.payload.records)
    }

    ghost function State(): Durable
      reads this
      requires Valid()
    {
      Durable(if file.None? then EMPTY else ImageOf(file.value.payload), orphan)
    }

    constructor ()
      ensures Valid() && State() == Durable(EMPTY, false)
    {
      file, orphan := None, false;
    }

    /** Temp file, fsync, rename, directory fsync; `end` says how far it got. */
    method AtomicWrite(envelope: Envelope, end: WriteEnd)
      requires Valid()
      requires envelope.version == FORMAT_VERSION && envelope.digest == Sha256(envelope.payload)
      requires Unrepeated(envelope.payload.records)
      modifies this
      ensures Valid() && State() == AfterWrite(old(State()), ImageOf(envelope.payload), end)
    {
      match end {
        case NotOpened =>
        case TempLeft => orphan := true;
        case Written => file := Some(envelope);
        case RenamedUnconfirmed => file := Some(envelope);
      }
    }
  }

  lemma MoveOne(records: map<Key, Record>, left: map<Key, Record>, k: Key)
    requires k in left && k in records
    ensures (left - {k}).Keys == left.Keys - {k}
    ensures records - (left - {k}).Keys == (records - left.Keys)[k := records[k]]
  {
  }

  /** Lists the values of a table, each once, in some order. */
  method Listing(records: map<Key, Record>) returns (list: seq<Record>)
    requires forall k :: k in records ==> records[k].Key() == k
    ensures Unrepeated(list) && Table(list) == records
  {
    list := [];
    var left := records;
    while left != map[]
      invariant left.Keys <= records.Keys && forall k :: k in left ==> left[k] == records[k]
      invariant Unrepeated(list)
      invariant forall i :: 0 <= i < |list| ==> list[i].Key() !in left
      invariant Table(list) == records - left.Keys
      decreases left.Keys
    {
      var k :| k in left;
      var rec := left[k];
      TableAppend(list, rec);
      list := list + [rec];
      MoveOne(records, left, k);
      left := left - {k};
    }
    assert records - {} == records;
  }

  lemma TableLeases(list: seq<Record>)
    requires Unrepeated(list)
    ensures UniqueLeases(Table(list)) <==> DistinctLeases(list)
  {
    var m := Table(list);
    TableEntries(list);
    if UniqueLeases(m) {
      forall i, j | 0 <= i < j < |list| ensures list[i].Lease() != list[j].Lease() {
        assert m[list[i].Key()].Lease() != m[list[j].Key()].Lease();
      }
    }
    if DistinctLeases(list) {
      forall k, k' | k in m && k' in m && k != k' ensures m[k].Lease() != m[k'].Lease() {
        var i :| 0 <= i < |list| && list[i] == m[k];
        var j :| 0 <= j < |list| && list[j] == m[k'];
        if i < j { assert list[i].Lease() != list[j].Lease(); } else { assert list[j].Lease() != list[i].Lease(); }
      }
    }
  }

  lemma TableFields(list: seq<Record>)
    requires Unrepeated(list)
    ensures (forall i :: 0 <= i < |list| ==> WellFormedRecord(list[i]))
            <==> forall k :: k in Table(list) ==> WellFormedRecord(Table(list)[k])
  {
    var m := Table(list);
    TableEntries(list);
    if forall k :: k in m ==> WellFormedRecord(m[k]) {
      forall i | 0 <= i < |list| ensures WellFormedRecord(list[i]) { assert m[list[i].Key()] == list[i]; }
    }
  }

  function LeaseSet(list: seq<Record>): set<(string, string)> { set i | 0 <= i < |list| :: list[i].Lease() }

  ghost predicate DistinctLeases(list: seq<Record>) {
    forall i, j :: 0 <= i < j < |list| ==> list[i].Lease() != list[j].Lease()
  }

  lemma LeaseSetAppend(list: seq<Record>, rec: Record)
    ensures LeaseSet(list + [rec]) == LeaseSet(list) + {rec.Lease()}
    ensures DistinctLeases(list + [rec]) <==> DistinctLeases(list) && rec.Lease() !in LeaseSet(list)
  {
    var longer := list + [rec];
    assert longer[|list|] == rec && forall i :: 0 <= i < |list| ==> longer[i] == list[i];
    forall l | l in LeaseSet(list) ensures l in LeaseSet(longer) {
      var i :| 0 <= i < |list| && list[i].Lease() == l;
      assert longer[i].Lease() == l;
    }
    if DistinctLeases(longer) {
      forall i, j | 0 <= i < j < |list| ensures list[i].Lease() != list[j].Lease() {
        assert longer[i].Lease() != longer[j].Lease();
      }
      forall i | 0 <= i < |list| ensures list[i].Lease() != rec.Lease() {
        assert longer[i].Lease() != longer[|list|].Lease();
      }
    }
  }

  lemma RepeatedLeaseStays(list: seq<Record>, n: nat)
    requires n <= |list| && !DistinctLeases(list[..n])
    ensures !DistinctLeases(list)
  {
    var i, j :| 0 <= i < j < n && list[..n][i].Lease() == list[..n][j].Lease();
    assert list[i].Lease() == list[j].Lease();
  }

  lemma NextEntry(list: seq<Record>, n: nat)
    requires n < |list| && Unrepeated(list[..n]) && Unrepeated(list[..n + 1])
    ensures Table(list[..n + 1]) == Table(list[..n])[list[n].Key() := list[n]]
    ensures LeaseSet(list[..n + 1]) == LeaseSet(list[..n]) + {list[n].Lease()}
    ensures DistinctLeases(list[..n + 1]) <==> DistinctLeases(list[..n]) && list[n].Lease() !in LeaseSet(list[..n])
  {
    assert list[..n + 1] == list[..n] + [list[n]];
    TableAppend(list[..n], list[n]);
    LeaseSetAppend(list[..n], list[n]);
  }

  lemma RepeatedKey(list: seq<Record>, n: nat)
    requires n < |list| && Unrepeated(list[..n]) && list[n].Key() in Table(list[..n])
    ensures !Unrepeated(list)
  {
    TableEntries(list[..n]);
    var rec := Table(list[..n])[list[n].Key()];
    var i :| 0 <= i < n && list[..n][i] == rec;
    assert list[i].Key() == list[n].Key();
  }

  lemma UnrepeatedNext(list: seq<Record>, n: nat)
    requires n < |list| && Unrepeated(list[..n]) && list[n].Key() !in Table(list[..n])
    ensures Unrepeated(list[..n + 1])
  {
    var front, longer := list[..n], list[..n + 1];
    TableEntries(front);
    forall i, j | 0 <= i < j < n + 1 ensures longer[i].Key() != longer[j].Key() {
      assert longer[i] == front[i];
      if j < n { assert longer[j] == front[j]; }
    }
  }

  predicate AllFormed(list: seq<Record>) { forall i :: 0 <= i < |list| ==> WellFormedRecord(list[i]) }

  /** What a list must be for its table to be accepted. */
  ghost predicate Parsable(list: seq<Record>) {
    Unrepeated(list) && UniqueLeases(Table(list)) && AllFormed(list)
  }

  /** The first `n` records are parsed into a table and the set of their leases. */
  ghost predicate Parsed(list: seq<Record>, n: nat, records: map<Key, Record>, leases: set<(string, string)>) {
    && n <= |list| && Unrepeated(list[..n]) && records == Table(list[..n])
    && leases == LeaseSet(list[..n]) && DistinctLeases(list[..n]) && AllFormed(list[..n])
  }

  lemma ParsedNext(list: seq<Record>, n: nat, records: map<Key, Record>, leases: set<(string, string)>)
    requires n < |list| && Parsed(list, n, records, leases) && WellFormedRecord(list[n])
    requires list[n].Key() !in records && list[n].Lease() !in leases
    ensures Parsed(list, n + 1, records[list[n].Key() := list[n]], leases + {list[n].Lease()})
  {
    UnrepeatedNext(list, n);
    NextEntry(list, n);
    assert list[..n + 1] == list[..n] + [list[n]];
  }

  lemma ParseStops(list: seq<Record>, n: nat, records: map<Key, Record>, leases: set<(string, string)>)
    requires n < |list| && Parsed(list, n, records, leases)
    requires !WellFormedRecord(list[n]) || list[n].Key() in records || list[n].Lease() in leases
    ensures !Parsable(list)
  {
    if list[n].Key() in records {
      RepeatedKey(list, n);
    } else if WellFormedRecord(list[n]) {
      UnrepeatedNext(list, n);
      NextEntry(list, n);
      LeaseRepeats(list, n + 1);
    }
  }

  lemma ParsedAll(list: seq<Record>, records: map<Key, Record>, leases: set<(string, string)>)
    requires Parsed(list, |list|, records, leases)
    ensures Parsable(list) && records == Table(list)
  {
    assert list[..|list|] == list;
    TableLeases(list);
  }

  /** One parsed record table, or `None` for a duplicate key, a duplicate lease or an empty field. */
  method ParseRecords(list: seq<Record>) returns (table: Option<map<Key, Record>>)
    ensures table.Some? <==> Parsable(list)
    ensures table.Some? ==> table.value == Table(list)
  {
    var records: map<Key, Record> := map[];
    var leases: set<(string, string)> := {};
    for n := 0 to |list|
      invariant Parsed(list, n, records, leases)
    {
      var rec := list[n];
      if !WellFormedRecord(rec) || rec.Key() in records || rec.Lease() in leases {
        ParseStops(list, n, records, leases);
        return None;
      }
      ParsedNext(list, n, records, leases);
      records := records[rec.Key() := rec];
      leases := leases + {rec.Lease()};
    }
    ParsedAll(list, records, leases);
    return Some(records);
  }

  lemma LeaseRepeats(list: seq<Record>, n: nat)
    requires n <= |list| && !DistinctLeases(list[..n])
    ensures Unrepeated(list) ==> !UniqueLeases(Table(list))
  {
    RepeatedLeaseStays(list, n);
    if Unrepeated(list) { TableLeases(list); }
  }

  lemma {:induction false} RisingPrefix(seals: seq<Seal>, n: nat)
    requires n <= |seals| && Rising(seals)
    ensures Rising(seals[..n])
  {
    var front := seals[..n];
    forall i, j | 0 <= i < j < n ensures front[i].sequence < front[j].sequence && front[i].runId != front[j].runId {
      assert front[i] == seals[i] && front[j] == seals[j];
    }
  }

  function RunSet(seals: seq<Seal>): set<string> { set i | 0 <= i < |seals| :: seals[i].runId }

  lemma RunSetAppend(seals: seq<Seal>, seal: Seal)
    ensures RunSet(seals + [seal]) == RunSet(seals) + {seal.runId}
    ensures seal.runId in RunSet(seals) <==> SealFor(seals, seal.runId).Some?
  {
    var longer := seals + [seal];
    assert longer[|seals|] == seal && forall i :: 0 <= i < |seals| ==> longer[i] == seals[i];
    forall r | r in RunSet(seals) ensures r in RunSet(longer) {
      var i :| 0 <= i < |seals| && seals[i].runId == r;
      assert longer[i].runId == r;
    }
  }

  /** The next seal continues a rising list exactly when the neighbour and the runs allow it. */
  lemma RisesIff(seals: seq<Seal>, n: nat)
    requires n < |seals| && Rising(seals[..n])
    ensures Rising(seals[..n + 1]) <==>
              (n > 0 ==> seals[n - 1].sequence < seals[n].sequence) && seals[n].runId !in RunSet(seals[..n])
  {
    var front := seals[..n];
    assert seals[..n + 1] == front + [seals[n]];
    RunSetAppend(front, seals[n]);
    if (n > 0 ==> seals[n - 1].sequence < seals[n].sequence) && seals[n].runId !in RunSet(front) {
      RisingAppend(front, seals[n]);
    }
    if Rising(seals[..n + 1]) {
      var longer := seals[..n + 1];
      assert longer[n] == seals[n];
      if n > 0 { assert longer[n - 1] == seals[n - 1]; }
      forall i | 0 <= i < n ensures front[i].runId != seals[n].runId { assert longer[i] == front[i]; }
    }
  }

  /** Strictly increasing sequences and no repeated run, checked over neighbours and over the set of runs. */
  method CheckSeals(seals: seq<Seal>, next: int, retention: nat) returns (ok: bool)
    ensures ok <==> AcceptableSeals(seals, next, retention)
  {
    var runs: set<string> := {};
    for n := 0 to |seals|
      invariant forall i :: 0 <= i < n ==> WellFormedSeal(seals[i])
      invariant runs == RunSet(seals[..n]) && Rising(seals[..n])
    {
      if !WellFormedSeal(seals[n]) {
        assert seals[n] in seals;
        return false;
      }
      RisesIff(seals, n);
      if (n > 0 && seals[n - 1].sequence >= seals[n].sequence) || seals[n].runId in runs {
        if Rising(seals) { RisingPrefix(seals, n + 1); }
        return false;
      }
      assert seals[..n + 1] == seals[..n] + [seals[n]];
      RunSetAppend(seals[..n], seals[n]);
      runs := runs + {seals[n].runId};
    }
    assert seals[..|seals|] == seals;
    return |seals| <= retention && next > 0 && (|seals| > 0 ==> next > seals[|seals| - 1].sequence);
  }

  /** The active run owns every record and names the decision they share. */
  method CheckSegment(active: Option<ActiveRun>, records: map<Key, Record>, cap: nat) returns (ok: bool)
    requires UniqueLeases(records)
    requires forall k :: k in records ==> WellFormedRecord(records[k]) && records[k].Key() == k
    ensures ok <==> AcceptableRecords(active, records, cap)
  {
    if |records| > cap { return false; }
    if active.None? { return records == map[]; }
    var run := active.value;
    return run.decision != ""
        && forall k :: k in records ==> records[k].runId == run.runId && records[k].decision == run.decision;
  }

  /** The receipt is of exactly these generations and this decision. */
  predicate Receipts(s: Seal, oldGeneration: string, newGeneration: string, decision: string) {
    s.oldGeneration == OfText(oldGeneration) && s.newGeneration == newGeneration && s.decision == decision
  }

  lemma OneSealPerRun(seals: seq<Seal>, run: string)
    requires Rising(seals)
    ensures forall s :: SealFor(seals, run) == Some(s) <==> s in seals && s.runId == run
  {
    if SealFor(seals, run).Some? {
      var t := SealFor(seals, run).value;
      forall s | s in seals && s.runId == run ensures s == t {
        var i :| 0 <= i < |seals| && seals[i] == s;
        var j :| 0 <= j < |seals| && seals[j] == t;
        if i < j { assert seals[i].runId != seals[j].runId; }
        if j < i { assert seals[j].runId != seals[i].runId; }
      }
    }
  }

  lemma RunsInSeals(seals: seq<Seal>, run: string)
    ensures SealFor(seals, run).None? <==> forall s :: s in seals ==> s.runId != run
  {
  }

  /** Mentioned where a proof needs the definition of `SoundTable`; elsewhere it is used by name only. */
  predicate Tables(n: nat) { true }

  /** Records are filed under their keys, and no two share a lease. */
  ghost predicate SoundTable(records: map<Key, Record>) {
    forall n: nat {:trigger Tables(n)} :: Tables(n) ==> UniqueLeases(records) && Keyed(records)
  }

  class ReplacementDecisionStore {
    const disk: Disk
    const limits: Limits
    var fatal: bool
    var active: Option<ActiveRun>
    var records: map<Key, Record>
    var seals: seq<Seal>
    var next: int

    ghost function Memory(): Image reads this { Image(active, records, seals, next) }

    /** The memory requests are answered from, while the store still answers. */
    ghost function Live(): Option<Image> reads this { if fatal then None else Some(Memory()) }

    ghost predicate Valid() reads this, disk {
      && limits.Valid() && disk.Valid()
      && SoundTable(records)
    }

    /** The store and its disk as a world of `StoreHistory`. */
    ghost function View(): World
      reads this, disk
      requires Valid()
    {
      World(disk.State(), Live(), [], {})
    }

    predicate TransitionClosed() reads this { !fatal && active.None? }

    predicate Ready() reads this { !fatal && |records| < limits.cap }

    /** Loads the file and finishes a half-written seal, or stays unusable. */
    constructor (disk: Disk, limits: Limits, end: WriteEnd)
      requires limits.Valid() && disk.Valid()
      modifies disk
      ensures this.disk == disk && this.limits == limits && Valid()
      ensures var w := StepReopen(World(old(disk.State()), None, [], {}), end, limits);
              disk.State() == w.durable && Live() == w.live
    {
      this.disk, this.limits := disk, limits;
      fatal, active, records, seals, next := false, None, map[], [], 1;
      new;
      var loaded := Load();
      if !loaded {
        fatal := true;
      } else if HalfSealed(Image(active, records, seals, next)) {
        if !SealMatchesSegment(Image(active, records, seals, next)) {
          fatal := true;
        } else {
          var _ := CommitState(Image(None, map[], seals, next), end);
        }
      }
    }

    method Load() returns (ok: bool)
      requires Valid() && Memory() == EMPTY
      modifies this
      ensures Valid() && fatal == old(fatal)
      ensures ok <==> !disk.orphan && Acceptable(disk.State().image, limits)
      ensures Memory() == if ok then disk.State().image else EMPTY
    {
      if disk.orphan { return false; }
      if disk.file.None? { return true; }
      var envelope := disk.file.value;
      if envelope.version != FORMAT_VERSION || envelope.digest != Sha256(envelope.payload) { return false; }
      var p := envelope.payload;
      TableEntries(p.records);
      var table := ParseRecords(p.records);
      TableFields(p.records);
      if table.None? { return false; }
      var recordsOk := CheckSegment(p.active, table.value, limits.cap);
      if !recordsOk { return false; }
      var sealsOk := CheckSeals(p.seals, p.next, limits.retention);
      if !sealsOk { return false; }
      active, records, seals, next := p.active, table.value, p.seals, p.next;
      return true;
    }

    /** Writes `target` and only then adopts it; a failed write makes the store unusable. */
    method CommitState(target: Image, end: WriteEnd) returns (ok: bool)
      requires Valid() && !fatal && SoundTable(target.records)
      modifies this, disk
      ensures Valid() && ok == end.Written?
      ensures disk.State() == AfterWrite(old(disk.State()), target, end) && Live() == After(target, end)
      ensures !ok ==> Memory() == old(Memory())
    {
      assert Tables(0);
      var list := Listing(target.records);
      var payload := Payload(target.active, list, target.seals, target.next);
      disk.AtomicWrite(Envelope(FORMAT_VERSION, payload, Sha256(payload)), end);
      if !end.Written? { fatal := true; return false; }
      active, records, seals, next := target.active, target.records, target.seals, target.next;
      return true;
    }

    method ExactCompletedRun(run: string, oldGeneration: string, newGeneration: string, decision: string)
      returns (r: Result<Option<Seal>, StoreError>)
      requires Valid()
      ensures r == Err(Unavailable) <==> fatal
      ensures r == Ok(None) <==> !fatal && forall s :: s in seals ==> s.runId != run
      ensures Rising(seals) ==> forall s ::
                r == Ok(Some(s)) <==> !fatal && s in seals && s.runId == run
                                      && Receipts(s, oldGeneration, newGeneration, decision)
      ensures Rising(seals) ==>
                (r == Err(Conflict) <==>
                   !fatal && exists s :: s in seals && s.runId == run
                                         && !Receipts(s, oldGeneration, newGeneration, decision))
      ensures r.Ok? && r.value.Some? ==> SealFor(seals, run) == r.value
    {
      if fatal { return Err(Unavailable); }
      if Rising(seals) { OneSealPerRun(seals, run); }
      RunsInSeals(seals, run);
      return CompletedRun(Image(active, records, seals, next), run, oldGeneration, newGeneration, decision);
    }

    method PersistRecord(rec: Record, oldGeneration: string, end: WriteEnd)
      returns (r: Result<(Record, bool), StoreError>)
      requires Valid()
      modifies this, disk
      ensures Valid()
      ensures var w := Step(old(View()), Persist(rec, oldGeneration, end), limits);
              disk.State() == w.durable && Live() == w.live
      ensures r.Ok? ==> r.value.0 == rec && Live().Some? && rec.Key() in records && records[rec.Key()] == rec
      ensures r.Ok? && !r.value.1 ==> View() == old(View())
    {
      assert Tables(0);
      if fatal { return Err(Unavailable); }
      var found := Lookup(Image(active, records, seals, next), rec, oldGeneration);
      if found.Err? { return Err(found.error); }
      if found.value.Some? { return Ok((rec, false)); }
      if |records| >= limits.cap { return Err(Capacity); }
      if exists k :: k in records && records[k].Lease() == rec.Lease() && k != rec.Key() {
        assert LeaseTaken(records, rec);
        return Err(Conflict);
      }
      assert !LeaseTaken(records, rec);
      var run := if active.Some? then active.value else ActiveRun(rec.runId, OfText(oldGeneration), rec.decision);
      var ok := CommitState(Image(Some(run), records[rec.Key() := rec], seals, next), end);
      if !ok { return Err(Unavailable); }
      return Ok((rec, true));
    }

    /** Merges a batch into a copy of the table, tracking which lease belongs to which key. */
    method Merge(batch: seq<Record>) returns (r: Result<map<Key, Record>, StoreError>)
      requires Valid()
      ensures r == AddAll(records, batch)
    {
      assert Tables(0);
      var candidate := records;
      var leases := map k | k in records :: records[k].Lease() := k;
      assert forall k :: k in records ==> leases[records[k].Lease()] == k;
      for n := 0 to |batch|
        invariant AddAll(records, batch[..n]) == Ok(candidate)
        invariant forall k :: k in candidate ==> candidate[k].Lease() in leases && leases[candidate[k].Lease()] == k
        invariant forall l :: l in leases ==> leases[l] in candidate && candidate[leases[l]].Lease() == l
      {
        var rec := batch[n];
        AddAllStep(records, batch, n);
        if rec.Key() in candidate {
          if candidate[rec.Key()] != rec {
            MergeRefusal(records, batch, n + 1);
            return Err(Conflict);
          }
        } else {
          assert LeaseTaken(candidate, rec) <==> rec.Lease() in leases && leases[rec.Lease()] != rec.Key();
          if rec.Lease() in leases && leases[rec.Lease()] != rec.Key() {
            MergeRefusal(records, batch, n + 1);
            return Err(Conflict);
          }
          candidate := candidate[rec.Key() := rec];
          leases := leases[rec.Lease() := rec.Key()];
        }
      }
      assert batch[..|batch|] == batch;
      return Ok(candidate);
    }

    /** Every refusal of a batch, or the image it would write; `None` when nothing changes. */
    method PlanRecords(batch: seq<Record>, run: string, oldGeneration: string, decision: string)
      returns (r: Result<Option<Image>, StoreError>)
      requires Valid() && !fatal
      ensures r == PlanBatch(Memory(), batch, run, oldGeneration, decision, limits)
    {
      var seal := SealFor(seals, run);
      if seal.Some? { return Err(Retired(seal.value)); }
      var wanted := BatchDecision(batch, decision);
      if wanted == "" { return Err(Conflict); }
      if exists i :: 0 <= i < |batch| && batch[i].decision != wanted { return Err(Conflict); }
      var refusal := CheckRun(Image(active, records, seals, next), run, oldGeneration, wanted);
      if refusal.Some? { return Err(refusal.value); }
      if exists i :: 0 <= i < |batch| && batch[i].runId != run { return Err(Conflict); }
      var merged := Merge(batch);
      if merged.Err? { return Err(merged.error); }
      if |merged.value| > limits.cap { return Err(Capacity); }
      if merged.value == records && active.Some? { return Ok(None); }
      return Ok(Some(Image(Some(ActiveRun(run, OfText(oldGeneration), wanted)), merged.value, seals, next)));
    }

    method PersistRecords(batch: seq<Record>, run: string, oldGeneration: string, decision: string, end: WriteEnd)
      returns (r: Result<seq<Record>, StoreError>)
      requires Valid()
      modifies this, disk
      ensures Valid()
      ensures var w := Step(old(View()), PersistBatch(batch, run, oldGeneration, decision, end), limits);
              disk.State() == w.durable && Live() == w.live
      ensures r.Ok? ==> r.value == batch && Live().Some? && !old(fatal) && SealFor(old(seals), run).None?
      ensures r.Ok? ==> forall i :: 0 <= i < |batch| ==>
                batch[i].Key() in records && records[batch[i].Key()] == batch[i]
    {
      if fatal { return Err(Unavailable); }
      var plan := PlanRecords(batch, run, oldGeneration, decision);
      if plan.Err? { return Err(plan.error); }
      PlannedBatch(Memory(), batch, run, oldGeneration, decision, limits);
      if plan.value.Some? {
        var ok := CommitState(plan.value.value, end);
        if !ok { return Err(Unavailable); }
      }
      return Ok(batch);
    }

    method SealRun(
      run: string, oldGeneration: string, newGeneration: string, decision: string, end: WriteEnd, secondEnd: WriteEnd)
      returns (r: Result<Seal, StoreError>)
      requires Valid()
      modifies this, disk
      ensures Valid()
      ensures var op := StoreHistory.SealRun(run, oldGeneration, newGeneration, decision, end, secondEnd);
              var w := Step(old(View()), op, limits);
              disk.State() == w.durable && Live() == w.live
      ensures r.Ok? ==> Live().Some? && SealFor(seals, run) == Some(r.value)
      ensures r.Ok? && old(View().live.Some? && SealFor(Memory().seals, run).None?) ==> active.None? && records == map[]
    {
      if fatal { return Err(Unavailable); }
      var img := Image(active, records, seals, next);
      var plan := PlanSeal(img, run, oldGeneration, newGeneration, decision);
      if plan.Err? { return Err(plan.error); }
      var seal := plan.value.0;
      if !plan.value.1 { return Ok(seal); }
      LastIsNewSeal(seals, seal, limits.retention);
      var first := SealFirst(img, seal, limits);
      var ok := CommitState(first, end);
      if !ok { return Err(Unavailable); }
      ok := CommitState(Image(None, map[], first.seals, first.next), secondEnd);
      if !ok { return Err(Unavailable); }
      return Ok(seal);
    }
  }

  /** One request, crash or reopening carried out on a disk and the process that uses it, if any. */
  method Perform(disk: Disk, store: ReplacementDecisionStore?, op: Op, limits: Limits)
    returns (after: ReplacementDecisionStore?)
    requires limits.Valid() && disk.Valid()
    requires store != null ==> store.Valid() && store.disk == disk && store.limits == limits
    modifies disk, store
    ensures disk.Valid()
    ensures after != null ==> after.Valid() && after.disk == disk && after.limits == limits
    ensures after == store || after == null || fresh(after)
    ensures var w := Step(World(old(disk.State()), old(LiveOf(store)), [], {}), op, limits);
            disk.State() == w.durable && LiveOf(after) == w.live
  {
    after := store;
    match op {
      case Crash => after := null;
      case Reopen(end) => after := new ReplacementDecisionStore(disk, limits, end);
      case Persist(rec, oldGeneration, end) =>
        if store != null { var _ := store.PersistRecord(rec, oldGeneration, end); }
      case PersistBatch(batch, run, oldGeneration, decision, end) =>
        if store != null { var _ := store.PersistRecords(batch, run, oldGeneration, decision, end); }
      case SealRun(run, oldGeneration, newGeneration, decision, end, secondEnd) =>
        if store != null { var _ := store.SealRun(run, oldGeneration, newGeneration, decision, end, secondEnd); }
    }
  }

  ghost function LiveOf(store: ReplacementDecisionStore?): Option<Image>
    reads store
  {
    if store == null then None else store.Live()
  }

  /**
   The class refines the history model: any sequence of requests, failed writes,
   crashes and reopenings leaves the file and the memory of the last process as
   `Run` says.
   */
  method Execute(ops: seq<Op>, limits: Limits) returns (disk: Disk, store: ReplacementDecisionStore?)
    requires limits.Valid()
    ensures fresh(disk) && disk.Valid() && disk.State() == Run(ops, limits).durable
    ensures store != null ==> store.Valid() && store.disk == disk && store.limits == limits
    ensures LiveOf(store) == Run(ops, limits).live
  {
    disk := new Disk();
    store := null;
    for n := 0 to |ops|
      invariant fresh(disk) && disk.Valid() && (store != null ==> fresh(store))
      invariant store != null ==> store.Valid() && store.disk == disk && store.limits == limits
      invariant disk.State() == Run(ops[..n], limits).durable && LiveOf(store) == Run(ops[..n], limits).live
    {
      assert ops[..n + 1][..n] == ops[..n];
      StepIgnoresBookkeeping(Run(ops[..n], limits), ops[n], limits);
      store := Perform(disk, store, ops[n], limits);
    }
    assert ops[..|ops|] == ops;
  }

  /** An accepted batch is in the table it leaves, which stays keyed with distinct leases. */
  lemma PlannedBatch(
    img: Image, batch: seq<Record>, run: string, oldGeneration: string, decision: string, limits: Limits)
    requires SoundTable(img.records)
    requires PlanBatch(img, batch, run, oldGeneration, decision, limits).Ok?
    ensures var p := PlanBatch(img, batch, run, oldGeneration, decision, limits).value;
            var table := if p.Some? then p.value.records else img.records;
            && SoundTable(table)
            && (forall i :: 0 <= i < |batch| ==> batch[i].Key() in table && table[batch[i].Key()] == batch[i])
    ensures SealFor(img.seals, run).None?
  {
    assert Tables(0);
    AddAllKeeps(img.records, batch);
  }

  lemma AddAllStep(records: map<Key, Record>, batch: seq<Record>, n: nat)
    requires n < |batch|
    ensures AddAll(records, batch[..n + 1])
            == var front := AddAll(records, batch[..n]);
               if front.Err? then front
               else if batch[n].Key() in front.value then
                 if front.value[batch[n].Key()] != batch[n] then Err(Conflict) else front
               else if LeaseTaken(front.value, batch[n]) then Err(Conflict)
               else Ok(front.value[batch[n].Key() := batch[n]])
  {
    assert batch[..n + 1][..n] == batch[..n];
  }

  /** A refused prefix refuses the whole batch. */
  lemma {:induction false} MergeRefusal(records: map<Key, Record>, batch: seq<Record>, n: nat)
    requires n <= |batch| && AddAll(records, batch[..n]).Err?
    ensures AddAll(records, batch) == AddAll(records, batch[..n])
    decreases |batch|
  {
    if n < |batch| {
      assert batch[..|batch| - 1][..n] == batch[..n];
      MergeRefusal(records, batch[..|batch| - 1], n);
    } else {
      assert batch[..n] == batch;
    }
  }
}
