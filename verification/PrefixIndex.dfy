/**
 The process-local directory of cached prefix blocks: an inverted index from
 prefix keys to locations and a forward index from owners to keys, changed in
 place by worker events and full reports.
 */
module PrefixIndex {
  import opened Wrappers
  import opened Fingerprint

  /** One incarnation of a worker. */
  datatype Owner = Owner(instance: string, epoch: string)

  datatype Key = Key(namespace: string, compatibility: string, context: string, chainHash: int)

  datatype Location = Location(
    owner: Owner, key: Key, blockIndex: int, blockId: int, prefixTokens: int, lastUpdated: real)

  datatype EventKind = HashAdded | Evicted | Unsupported

  datatype Event = Event(kind: EventKind, location: Location, seqNo: int)

  datatype IndexError = OwnerMismatch | FullReportRequired | UnsupportedEvent | BadReports

  function Others(s: set<Location>, owner: Owner): set<Location> { set l | l in s && l.owner != owner }

  /** A block leaves the directory when its owner evicts it. */
  function Without(s: set<Location>, evicted: Location): set<Location> {
    set l | l in s && !(l.key == evicted.key && l.owner == evicted.owner && l.blockId == evicted.blockId)
  }

  /** What one event does to a set of locations. */
  function Effect(s: set<Location>, e: Event): set<Location> {
    match e.kind
    case HashAdded => s + {e.location}
    case Evicted => Without(s, e.location)
    case Unsupported => s
  }

  datatype Applied = Applied(contents: set<Location>, cursor: int, error: Option<IndexError>)

  /** Events in order: already seen ones are skipped, a gap, a foreign owner or an unknown kind stops. */
  function ApplyAll(contents: set<Location>, cursor: int, owner: Owner, events: seq<Event>): Applied
    decreases |events|
  {
    if events == [] then Applied(contents, cursor, None)
    else
      var before := ApplyAll(contents, cursor, owner, events[..|events| - 1]);
      var e := events[|events| - 1];
      if before.error.Some? then before
      else if e.location.owner != owner then before.(error := Some(OwnerMismatch))
      else if e.seqNo <= before.cursor then before
      else if e.seqNo != before.cursor + 1 then before.(error := Some(FullReportRequired))
      else if e.kind.Unsupported? then before.(error := Some(UnsupportedEvent))
      else Applied(Effect(before.contents, e), e.seqNo, None)
  }

  lemma ApplyAllStep(contents: set<Location>, cursor: int, owner: Owner, events: seq<Event>, n: nat)
    requires n < |events|
    ensures ApplyAll(contents, cursor, owner, events[..n + 1])
            == var before := ApplyAll(contents, cursor, owner, events[..n]);
               var e := events[n];
               if before.error.Some? then before
               else if e.location.owner != owner then before.(error := Some(OwnerMismatch))
               else if e.seqNo <= before.cursor then before
               else if e.seqNo != before.cursor + 1 then before.(error := Some(FullReportRequired))
               else if e.kind.Unsupported? then before.(error := Some(UnsupportedEvent))
               else Applied(Effect(before.contents, e), e.seqNo, None)
  {
    assert events[..n + 1][..n] == events[..n];
  }

  lemma {:induction false} ApplyAllStops(contents: set<Location>, cursor: int, owner: Owner, events: seq<Event>, n: nat)
    requires n <= |events| && ApplyAll(contents, cursor, owner, events[..n]).error.Some?
    ensures ApplyAll(contents, cursor, owner, events) == ApplyAll(contents, cursor, owner, events[..n])
    decreases |events|
  {
    if n < |events| {
      assert events[..|events| - 1][..n] == events[..n];
      ApplyAllStops(contents, cursor, owner, events[..|events| - 1], n);
    } else {
      assert events[..n] == events;
    }
  }

  function ToSet(s: seq<Location>): set<Location> { set l | l in s }

  lemma ToSetNext(s: seq<Location>, n: nat)
    requires n < |s|
    ensures ToSet(s[..n + 1]) == ToSet(s[..n]) + {s[n]}
  {
    assert s[..n + 1] == s[..n] + [s[n]];
  }

  datatype Report = Report(owner: Owner, snapshot: int, locations: seq<Location>)

  /** Every location belongs to the reporting owner, owners and snapshots are sound, and the world is as expected. */
  ghost predicate GoodReports(reports: seq<Report>, expected: set<Owner>) {
    && (forall i :: 0 <= i < |reports| ==> reports[i].snapshot >= 0 && GoodReport(reports[i]))
    && (forall i, j :: 0 <= i < j < |reports| ==> reports[i].owner != reports[j].owner)
    && (set i | 0 <= i < |reports| :: reports[i].owner) == expected
  }

  ghost predicate GoodReport(r: Report) {
    forall l :: l in r.locations ==> l.owner == r.owner
  }

  /** One cursor per report, at its snapshot. */
  ghost predicate Cursors(cursors: map<Owner, int>, reports: seq<Report>) {
    && cursors.Keys == (set i | 0 <= i < |reports| :: reports[i].owner)
    && (forall i, j :: 0 <= i < j < |reports| ==> reports[i].owner != reports[j].owner)
    && (forall i :: 0 <= i < |reports| ==> reports[i].snapshot >= 0 && cursors[reports[i].owner] == reports[i].snapshot)
  }

  lemma CursorsNext(cursors: map<Owner, int>, reports: seq<Report>, n: nat)
    requires n < |reports| && Cursors(cursors, reports[..n])
    requires reports[n].owner !in cursors && reports[n].snapshot >= 0
    ensures Cursors(cursors[reports[n].owner := reports[n].snapshot], reports[..n + 1])
  {
    var next := cursors[reports[n].owner := reports[n].snapshot];
    var longer := reports[..n + 1];
    var owners := set i | 0 <= i < |longer| :: longer[i].owner;
    assert forall i :: 0 <= i < n ==> longer[i] == reports[..n][i];
    forall o | o in next.Keys ensures o in owners {
      if o in cursors {
        var i :| 0 <= i < n && reports[..n][i].owner == o;
        assert longer[i].owner == o;
      } else {
        assert longer[n].owner == o;
      }
    }
    assert next.Keys == owners;
  }

  lemma NotCursors(cursors: map<Owner, int>, reports: seq<Report>, n: nat, expected: set<Owner>)
    requires n < |reports| && Cursors(cursors, reports[..n])
    requires reports[n].owner in cursors || reports[n].snapshot < 0
    ensures !GoodReports(reports, expected)
  {
    if reports[n].owner in cursors {
      var i :| 0 <= i < n && reports[..n][i].owner == reports[n].owner;
      assert reports[i].owner == reports[n].owner;
    }
  }

  function Locations(reports: seq<Report>): set<Location> {
    set i, l | 0 <= i < |reports| && l in reports[i].locations :: l
  }

  type Inverted = map<Key, set<Location>>
  type Forward = map<Owner, set<Key>>

  predicate In(index: Inverted, l: Location) { l.key in index && l in index[l.key] }

  /** No empty inverted entry, and every location is filed under its own key. */
  ghost predicate Keyed(index: Inverted) {
    forall k :: k in index ==> index[k] != {} && forall l :: l in index[k] ==> l.key == k
  }

  /** Every location is found from its owner. */
  ghost predicate Reached(index: Inverted, forward: Forward) {
    forall l :: In(index, l) ==> l.owner in forward && l.key in forward[l.owner]
  }

  ghost predicate Held(index: Inverted, k: Key, o: Owner) {
    exists l :: In(index, l) && l.key == k && l.owner == o
  }

  /** Every forward entry leads to a location. */
  ghost predicate Grounded(index: Inverted, forward: Forward) {
    forall o, k :: o in forward && k in forward[o] ==> Held(index, k, o)
  }

  ghost predicate Consistent(index: Inverted, forward: Forward) {
    Keyed(index) && Reached(index, forward) && Grounded(index, forward)
  }

  ghost function AllOf(index: Inverted): set<Location> { set k, l | k in index && l in index[k] :: l }

  lemma AllIsIn(index: Inverted)
    requires Keyed(index)
    ensures forall l :: l in AllOf(index) <==> In(index, l)
  {
  }

  /** Two indexes that hold related locations have related contents. */
  lemma SameContents(index: Inverted, s: set<Location>)
    requires Keyed(index) && forall l :: In(index, l) <==> l in s
    ensures AllOf(index) == s
  {
    AllIsIn(index);
  }

  function Added(index: Inverted, l: Location): Inverted {
    index[l.key := (if l.key in index then index[l.key] else {}) + {l}]
  }

  function Linked(forward: Forward, l: Location): Forward {
    forward[l.owner := (if l.owner in forward then forward[l.owner] else {}) + {l.key}]
  }

  lemma AddedHolds(index: Inverted, l: Location)
    requires Keyed(index)
    ensures Keyed(Added(index, l))
    ensures forall x :: In(Added(index, l), x) <==> In(index, x) || x == l
  {
  }

  lemma HeldMonotone(index: Inverted, index': Inverted, k: Key, o: Owner)
    requires Held(index, k, o) && forall x :: In(index, x) && x.key == k && x.owner == o ==> In(index', x)
    ensures Held(index', k, o)
  {
    var l :| In(index, l) && l.key == k && l.owner == o;
    assert In(index', l);
  }

  lemma AddKeeps(index: Inverted, forward: Forward, l: Location)
    requires Consistent(index, forward)
    ensures Consistent(Added(index, l), Linked(forward, l))
    ensures AllOf(Added(index, l)) == AllOf(index) + {l}
  {
    var index', forward' := Added(index, l), Linked(forward, l);
    AddedHolds(index, l);
    forall o, k | o in forward' && k in forward'[o] ensures Held(index', k, o) {
      if o == l.owner && k == l.key {
        assert In(index', l);
      } else {
        HeldMonotone(index, index', k, o);
      }
    }
    assert AllOf(index') == AllOf(index) + {l} by {
      AllIsIn(index);
      SameContents(index', AllOf(index) + {l});
    }
  }

  /** The index with one key's locations replaced; an empty set removes the entry. */
  function Replaced(index: Inverted, k: Key, s: set<Location>): Inverted {
    if s == {} then index - {k} else index[k := s]
  }

  function At(index: Inverted, k: Key): set<Location> { if k in index then index[k] else {} }

  lemma ReplacedHolds(index: Inverted, k: Key, s: set<Location>)
    requires Keyed(index) && s <= At(index, k)
    ensures Keyed(Replaced(index, k, s))
    ensures forall x :: In(Replaced(index, k, s), x) <==> if x.key == k then x in s else In(index, x)
  {
  }

  function Unlinked(forward: Forward, kept: set<Location>, k: Key, owner: Owner): Forward {
    if exists l :: l in kept && l.owner == owner then forward
    else forward[owner := (if owner in forward then forward[owner] else {}) - {k}]
  }

  /** Evicting one block keeps both indexes in agreement. */
  lemma RemoveBlockKeeps(index: Inverted, forward: Forward, e: Location)
    requires Consistent(index, forward)
    ensures var kept := Without(At(index, e.key), e);
            var index' := Replaced(index, e.key, kept);
            Consistent(index', Unlinked(forward, kept, e.key, e.owner)) && AllOf(index') == Without(AllOf(index), e)
  {
    var kept := Without(At(index, e.key), e);
    var index' := Replaced(index, e.key, kept);
    var forward' := Unlinked(forward, kept, e.key, e.owner);
    ReplacedHolds(index, e.key, kept);
    assert forall x :: In(index', x) ==> In(index, x);
    forall o, k | o in forward' && k in forward'[o] ensures Held(index', k, o) {
      assert Held(index, k, o);
      if k == e.key && o == e.owner {
        var x :| x in kept && x.owner == e.owner;
        assert In(index', x);
      } else {
        HeldMonotone(index, index', k, o);
      }
    }
    assert AllOf(index') == Without(AllOf(index), e) by {
      AllIsIn(index);
      SameContents(index', Without(AllOf(index), e));
    }
  }

  /** Once an owner's locations are gone from all its keys, dropping its forward entry is safe. */
  lemma RemoveOwnerKeeps(index: Inverted, forward: Forward, index': Inverted, owner: Owner)
    requires Consistent(index, forward) && Keyed(index')
    requires forall x :: In(index', x) <==>
               In(index, x) && !(x.owner == owner && owner in forward && x.key in forward[owner])
    ensures Consistent(index', forward - {owner}) && AllOf(index') == Others(AllOf(index), owner)
  {
    assert forall x :: In(index', x) <==> In(index, x) && x.owner != owner;
    forall o, k | o in forward && o != owner && k in forward[o] ensures Held(index', k, o) {
      HeldMonotone(index, index', k, o);
    }
    assert AllOf(index') == Others(AllOf(index), owner) by {
      AllIsIn(index);
      SameContents(index', Others(AllOf(index), owner));
    }
  }

  ghost predicate Listed(matches: seq<(nat, set<Location>)>, b: nat) {
    exists i :: 0 <= i < |matches| && matches[i].0 == b
  }

  class Directory {
    const maxAge: real
    var index: Inverted
    var forward: Forward
    var lastSeq: map<Owner, int>

    ghost predicate Valid() reads this { Consistent(index, forward) }

    ghost function Contents(): set<Location> reads this { AllOf(index) }

    constructor (maxAge: real)
      requires maxAge > 0.0
      ensures Valid() && Contents() == {} && lastSeq == map[] && this.maxAge == maxAge
    {
      this.maxAge := maxAge;
      index, forward, lastSeq := map[], map[], map[];
    }

    method Add(l: Location)
      requires Valid()
      modifies this
      ensures Valid() && Contents() == old(Contents()) + {l} && lastSeq == old(lastSeq)
      ensures old(forward).Keys <= forward.Keys
    {
      AddKeeps(index, forward, l);
      index, forward := Added(index, l), Linked(forward, l);
    }

    method RemoveBlock(e: Location)
      requires Valid()
      modifies this
      ensures Valid() && Contents() == Without(old(Contents()), e) && lastSeq == old(lastSeq)
      ensures old(forward).Keys <= forward.Keys
    {
      RemoveBlockKeeps(index, forward, e);
      var kept := Without(At(index, e.key), e);
      index, forward := Replaced(index, e.key, kept), Unlinked(forward, kept, e.key, e.owner);
    }

    /** Applies a batch; the cursor is stored only when the whole batch was accepted. */
    method ApplyEvents(owner: Owner, events: seq<Event>) returns (r: Result<int, IndexError>)
      requires Valid()
      modifies this
      ensures Valid() && old(forward).Keys <= forward.Keys
      ensures var start := if owner in old(lastSeq) then old(lastSeq[owner]) else 0;
              var a := ApplyAll(old(Contents()), start, owner, events);
              && Contents() == a.contents
              && r == (if a.error.Some? then Err(a.error.value) else Ok(a.cursor))
              && lastSeq == if a.error.Some? then old(lastSeq) else old(lastSeq)[owner := a.cursor]
    {
      var start := if owner in lastSeq then lastSeq[owner] else 0;
      var cursor := start;
      ghost var before := Contents();
      for n := 0 to |events|
        invariant Valid() && lastSeq == old(lastSeq) && old(forward).Keys <= forward.Keys
        invariant ApplyAll(before, start, owner, events[..n]) == Applied(Contents(), cursor, None)
      {
        var e := events[n];
        ApplyAllStep(before, start, owner, events, n);
        if e.location.owner != owner {
          ApplyAllStops(before, start, owner, events, n + 1);
          return Err(OwnerMismatch);
        }
        if e.seqNo > cursor {
          if e.seqNo != cursor + 1 {
            ApplyAllStops(before, start, owner, events, n + 1);
            return Err(FullReportRequired);
          }
          match e.kind {
            case HashAdded => Add(e.location);
            case Evicted => RemoveBlock(e.location);
            case Unsupported =>
              ApplyAllStops(before, start, owner, events, n + 1);
              return Err(UnsupportedEvent);
          }
          cursor := e.seqNo;
        }
      }
      assert events[..|events|] == events;
      lastSeq := lastSeq[owner := cursor];
      return Ok(cursor);
    }

    method RemoveOwner(owner: Owner)
      requires Valid()
      modifies this
      ensures Valid() && Contents() == Others(old(Contents()), owner)
      ensures lastSeq == old(lastSeq) - {owner} && forward == old(forward) - {owner}
    {
      var keys := if owner in forward then forward[owner] else {};
      var left := keys;
      while left != {}
        invariant left <= keys && forward == old(forward) && lastSeq == old(lastSeq) && Keyed(index)
        invariant forall x :: In(index, x) <==>
                    In(old(index), x) && !(x.owner == owner && x.key in keys - left)
        decreases left
      {
        var k :| k in left;
        ReplacedHolds(index, k, Others(At(index, k), owner));
        index := Replaced(index, k, Others(At(index, k), owner));
        left := left - {k};
      }
      RemoveOwnerKeeps(old(index), forward, index, owner);
      forward := forward - {owner};
      lastSeq := lastSeq - {owner};
    }

    method RemoveInstance(instance: string)
      requires Valid()
      modifies this
      ensures Valid() && Contents() == set l | l in old(Contents()) && l.owner.instance != instance
      ensures lastSeq == old(lastSeq) - set o | o in old(forward) && o.instance == instance
      ensures forward.Keys == set o | o in old(forward) && o.instance != instance
    {
      var owners := set o | o in forward && o.instance == instance;
      var left := owners;
      while left != {}
        invariant Valid() && left <= owners
        invariant forward.Keys == old(forward).Keys - (owners - left)
        invariant Contents() == set l | l in old(Contents()) && l.owner !in owners - left
        invariant lastSeq == old(lastSeq) - (owners - left)
        decreases left
      {
        var o :| o in left;
        RemoveOwner(o);
        left := left - {o};
      }
      AllIsIn(old(index));
    }

    method Clear()
      modifies this
      ensures Valid() && Contents() == {} && lastSeq == map[]
    {
      index, forward, lastSeq := map[], map[], map[];
    }

    /** Replaces one owner's locations; a foreign location stops it with the cursor unset. */
    method InstallFullReport(report: Report) returns (ok: bool)
      requires Valid()
      modifies this
      ensures Valid() && ok == GoodReport(report)
      ensures ok ==> Contents() == Others(old(Contents()), report.owner) + ToSet(report.locations)
      ensures ok ==> lastSeq == old(lastSeq)[report.owner := report.snapshot]
      ensures Others(Contents(), report.owner) == Others(old(Contents()), report.owner)
      ensures !ok ==> lastSeq == old(lastSeq) - {report.owner}
      ensures report.locations == [] ==> forward == old(forward) - {report.owner}
    {
      RemoveOwner(report.owner);
      ghost var others := Contents();
      for n := 0 to |report.locations|
        invariant Valid() && lastSeq == old(lastSeq) - {report.owner}
        invariant forall i :: 0 <= i < n ==> report.locations[i].owner == report.owner
        invariant Contents() == others + ToSet(report.locations[..n])
        invariant n == 0 ==> forward == old(forward) - {report.owner}
      {
        if report.locations[n].owner != report.owner {
          assert report.locations[n] in report.locations;
          assert forall l :: l in report.locations[..n] ==> l.owner == report.owner;
          return false;
        }
        Add(report.locations[n]);
        ToSetNext(report.locations, n);
      }
      assert report.locations[..|report.locations|] == report.locations;
      lastSeq := lastSeq[report.owner := report.snapshot];
      return true;
    }

    /** Builds the whole world beside the old one and swaps it in at the end, or changes nothing. */
    method InstallWorldFullReports(reports: seq<Report>, expected: set<Owner>) returns (ok: bool)
      requires Valid()
      modifies this
      ensures Valid() && ok == GoodReports(reports, expected)
      ensures !ok ==> index == old(index) && forward == old(forward) && lastSeq == old(lastSeq)
      ensures ok ==> Contents() == Locations(reports) && lastSeq.Keys == expected
      ensures ok ==> forall i :: 0 <= i < |reports| ==>
                reports[i].owner in lastSeq && lastSeq[reports[i].owner] == reports[i].snapshot
    {
      var stagedIndex: Inverted := map[];
      var stagedForward: Forward := map[];
      var stagedSeq: map<Owner, int> := map[];
      for n := 0 to |reports|
        invariant index == old(index) && forward == old(forward) && lastSeq == old(lastSeq)
        invariant Consistent(stagedIndex, stagedForward)
        invariant AllOf(stagedIndex) == Locations(reports[..n])
        invariant Cursors(stagedSeq, reports[..n])
        invariant forall i :: 0 <= i < n ==> GoodReport(reports[i])
      {
        var r := reports[n];
        if r.owner in stagedSeq || r.snapshot < 0 {
          NotCursors(stagedSeq, reports, n, expected);
          return false;
        }
        stagedForward := stagedForward[r.owner := if r.owner in stagedForward then stagedForward[r.owner] else {}];
        var good;
        good, stagedIndex, stagedForward := StageReport(stagedIndex, stagedForward, r);
        if !good { return false; }
        LocationsAppend(reports, n);
        CursorsNext(stagedSeq, reports, n);
        stagedSeq := stagedSeq[r.owner := r.snapshot];
      }
      assert reports[..|reports|] == reports;
      if stagedSeq.Keys != expected { return false; }
      index, forward, lastSeq := stagedIndex, stagedForward, stagedSeq;
      return true;
    }

    ghost predicate MatchAt(fp: PromptFingerprint, now: real, m: (nat, set<Location>))
      reads this
      requires fp.blockSize > 0
    {
      0 < m.0 <= fp.MaxReusableBlocks() && m.1 != {} && m.1 == Fresh(fp, m.0, now)
    }

    /** Every length above `low` with fresh locations is listed, once, longest first. */
    ghost predicate MatchesAbove(fp: PromptFingerprint, now: real, matches: seq<(nat, set<Location>)>, low: nat)
      reads this
      requires fp.blockSize > 0
    {
      && (forall i :: 0 <= i < |matches| ==> MatchAt(fp, now, matches[i]) && matches[i].0 > low)
      && (forall i, j :: 0 <= i < j < |matches| ==> matches[i].0 > matches[j].0)
      && (forall b :: low < b <= fp.MaxReusableBlocks() && Fresh(fp, b, now) != {} ==> Listed(matches, b))
    }

    lemma MatchesNext(fp: PromptFingerprint, now: real, matches: seq<(nat, set<Location>)>, low: nat)
      requires fp.blockSize > 0 && 0 < low <= fp.MaxReusableBlocks() && MatchesAbove(fp, now, matches, low)
      ensures var found := Fresh(fp, low, now);
              MatchesAbove(fp, now, if found == {} then matches else matches + [(low, found)], low - 1)
    {
      var found := Fresh(fp, low, now);
      if found != {} {
        var longer := matches + [(low, found)];
        assert longer[|matches|].0 == low;
        forall b | low < b <= fp.MaxReusableBlocks() && Fresh(fp, b, now) != {} ensures Listed(longer, b) {
          var i :| 0 <= i < |matches| && matches[i].0 == b;
          assert longer[i].0 == b;
        }
      }
    }

    /** Reusable lengths from the longest down, each with its fresh locations. */
    method IterMatches(fp: PromptFingerprint, now: real) returns (matches: seq<(nat, set<Location>)>)
      requires fp.blockSize > 0
      ensures MatchesAbove(fp, now, matches, 0)
    {
      matches := [];
      var blocks := fp.MaxReusableBlocks();
      while blocks > 0
        invariant 0 <= blocks <= fp.MaxReusableBlocks() && MatchesAbove(fp, now, matches, blocks)
      {
        MatchesNext(fp, now, matches, blocks);
        var found := Fresh(fp, blocks, now);
        if found != {} { matches := matches + [(blocks, found)]; }
        blocks := blocks - 1;
      }
    }

    /** Locations of the prompt's first `blocks` blocks that are young enough. */
    function Fresh(fp: PromptFingerprint, blocks: nat, now: real): set<Location>
      reads this
      requires fp.blockSize > 0 && 0 < blocks <= fp.MaxReusableBlocks()
    {
      var k := Key(fp.namespace, fp.compatibility, fp.context, fp.chainHashes[blocks - 1]);
      set l | l in (if k in index then index[k] else {}) && now - l.lastUpdated <= maxAge
    }
  }

  method StageLocation(index: Inverted, forward: Forward, l: Location)
    returns (index': Inverted, forward': Forward)
    requires Consistent(index, forward)
    ensures Consistent(index', forward') && AllOf(index') == AllOf(index) + {l}
  {
    AddKeeps(index, forward, l);
    index', forward' := Added(index, l), Linked(forward, l);
  }

  method StageReport(index: Inverted, forward: Forward, r: Report)
    returns (good: bool, index': Inverted, forward': Forward)
    requires Consistent(index, forward)
    ensures good == GoodReport(r)
    ensures Consistent(index', forward')
    ensures good ==> AllOf(index') == AllOf(index) + ToSet(r.locations)
  {
    index', forward' := index, forward;
    ghost var before := AllOf(index);
    for n := 0 to |r.locations|
      invariant Consistent(index', forward')
      invariant AllOf(index') == before + ToSet(r.locations[..n])
      invariant forall i :: 0 <= i < n ==> r.locations[i].owner == r.owner
    {
      var l := r.locations[n];
      if l.owner != r.owner {
        assert l in r.locations;
        return false, index', forward';
      }
      index', forward' := StageLocation(index', forward', l);
      ToSetNext(r.locations, n);
    }
    assert r.locations[..|r.locations|] == r.locations;
    good := true;
  }

  lemma LocationsAppend(reports: seq<Report>, n: nat)
    requires n < |reports|
    ensures Locations(reports[..n + 1]) == Locations(reports[..n]) + ToSet(reports[n].locations)
  {
    var a, b := reports[..n + 1], reports[..n];
    assert forall i :: 0 <= i < n ==> a[i] == b[i];
    assert a[n] == reports[n];
    forall x ensures x in Locations(a) <==> x in Locations(b) || x in reports[n].locations {
      if x in Locations(b) {
        var i :| 0 <= i < |b| && x in b[i].locations;
        assert x in a[i].locations;
      }
      if x in reports[n].locations { assert x in a[n].locations; }
    }
  }

  /** An owner that reported no block has a cursor but no forward entry, so removing its instance keeps the cursor. */
  method RemovedInstanceKeepsCursor(owner: Owner) returns (d: Directory)
    ensures fresh(d) && d.Valid() && d.Contents() == {} && d.lastSeq == map[owner := 0]
  {
    d := new Directory(1.0);
    var _ := d.InstallFullReport(Report(owner, 0, []));
    d.RemoveInstance(owner.instance);
  }
}
