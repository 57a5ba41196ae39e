/**
 Keeps the prefix directory in step with the workers' event logs. Workers are
 honest: what they report is what their log says, though replies may repeat,
 skip, reorder or come from a newer incarnation, and any call may fail. The
 invariant `Coherent` holds at every point where another task may run.
 */
module Reconciler {
  import opened Wrappers
  import opened PrefixIndex

  /** A location without the time at which it was received. */
  function Bare(l: Location): Location { l.(lastUpdated := 0.0) }

  function BareEvent(e: Event): Event { e.(location := Bare(e.location)) }

  /** What the directory shows for one owner, timestamps aside. */
  function View(contents: set<Location>, o: Owner): set<Location> {
    set l | l in contents && l.owner == o :: Bare(l)
  }

  /** The cached blocks a worker holds after a log of events. */
  function Fold(log: seq<Event>): set<Location> {
    if log == [] then {} else Effect(Fold(log[..|log| - 1]), log[|log| - 1])
  }

  type Logs = map<Owner, seq<Event>>

  function LogOf(logs: Logs, o: Owner): seq<Event> { if o in logs then logs[o] else [] }

  /** Logs hold bare events of their own owner. */
  ghost predicate OwnLogs(logs: Logs) {
    forall o, i :: o in logs && 0 <= i < |logs[o]| ==> OwnEvent(logs[o][i], o)
  }

  predicate OwnEvent(e: Event, o: Owner) { e.location.owner == o && BareEvent(e) == e }

  ghost predicate Grown(logs: Logs, logs': Logs) {
    OwnLogs(logs') && forall o :: LogOf(logs, o) <= LogOf(logs', o)
  }

  /** Each owner's view is the fold of its log up to the cursor, or empty without a cursor. */
  ghost predicate Coherent(contents: set<Location>, lastSeq: map<Owner, int>, logs: Logs) {
    && OwnLogs(logs)
    && (forall o :: o in lastSeq ==> InStep(contents, o, lastSeq[o], logs))
    && (forall o :: o !in lastSeq ==> View(contents, o) == {})
  }

  ghost predicate InStep(contents: set<Location>, o: Owner, cursor: int, logs: Logs) {
    0 <= cursor <= |LogOf(logs, o)| && View(contents, o) == Fold(LogOf(logs, o)[..cursor])
  }

  predicate HonestEvent(e: Event, logs: Logs) {
    var log := LogOf(logs, e.location.owner);
    1 <= e.seqNo <= |log| && log[e.seqNo - 1] == BareEvent(e)
  }

  predicate HonestEvents(events: seq<Event>, logs: Logs) {
    forall i :: 0 <= i < |events| ==> HonestEvent(events[i], logs)
  }

  predicate HonestReport(r: Report, logs: Logs) {
    var log := LogOf(logs, r.owner);
    0 <= r.snapshot <= |log| && (set l | l in r.locations :: Bare(l)) == Fold(log[..r.snapshot])
  }

  lemma FoldNext(log: seq<Event>, n: nat)
    requires n < |log|
    ensures Fold(log[..n + 1]) == Effect(Fold(log[..n]), log[n])
  {
    assert log[..n + 1][..n] == log[..n];
  }

  lemma {:induction false} FoldOwned(log: seq<Event>, o: Owner)
    requires forall i :: 0 <= i < |log| ==> OwnEvent(log[i], o)
    ensures forall l :: l in Fold(log) ==> l.owner == o
  {
    if log != [] { FoldOwned(log[..|log| - 1], o); }
  }

  /** Receiving an event does to the view what recording it did to the worker. */
  lemma EffectOnView(contents: set<Location>, e: Event)
    ensures View(Effect(contents, e), e.location.owner) == Effect(View(contents, e.location.owner), BareEvent(e))
  {
    var o, v := e.location.owner, View(contents, e.location.owner);
    var after := Effect(contents, e);
    forall x ensures x in View(after, o) <==> x in Effect(v, BareEvent(e)) {
      if x in Effect(v, BareEvent(e)) && x in v {
        var l :| l in contents && l.owner == o && Bare(l) == x;
        assert l in after || e.kind.Evicted?;
      }
    }
  }

  lemma EffectElsewhere(contents: set<Location>, e: Event, o: Owner)
    requires o != e.location.owner
    ensures View(Effect(contents, e), o) == View(contents, o)
  {
    var after := Effect(contents, e);
    forall l: Location | l.owner == o ensures l in after <==> l in contents { }
  }

  /** A batch never touches another owner, and a batch that is accepted moves the view along the log. */
  lemma {:induction false} BatchFollowsLog(
    contents: set<Location>, cursor: int, owner: Owner, events: seq<Event>, logs: Logs)
    requires HonestEvents(events, logs) && InStep(contents, owner, cursor, logs)
    ensures var a := ApplyAll(contents, cursor, owner, events);
            && InStep(a.contents, owner, a.cursor, logs) && cursor <= a.cursor
            && forall o :: o != owner ==> View(a.contents, o) == View(contents, o)
    decreases |events|
  {
    if events != [] {
      var n := |events| - 1;
      BatchFollowsLog(contents, cursor, owner, events[..n], logs);
      var before, e := ApplyAll(contents, cursor, owner, events[..n]), events[n];
      assert HonestEvent(e, logs);
      if before.error.None? && e.location.owner == owner && e.seqNo == before.cursor + 1 {
        FoldNext(LogOf(logs, owner), before.cursor);
        EffectOnView(before.contents, e);
        forall o | o != owner ensures View(Effect(before.contents, e), o) == View(contents, o) {
          EffectElsewhere(before.contents, e, o);
        }
      }
    }
  }

  lemma GrowthKeeps(contents: set<Location>, lastSeq: map<Owner, int>, logs: Logs, logs': Logs)
    requires Coherent(contents, lastSeq, logs) && Grown(logs, logs')
    ensures Coherent(contents, lastSeq, logs')
  {
    forall o | o in lastSeq ensures InStep(contents, o, lastSeq[o], logs') {
      assert LogOf(logs, o) <= LogOf(logs', o);
      assert LogOf(logs', o)[..lastSeq[o]] == LogOf(logs, o)[..lastSeq[o]];
    }
  }

  lemma ReportIsOwned(r: Report, logs: Logs)
    requires HonestReport(r, logs) && OwnLogs(logs)
    ensures GoodReport(r)
  {
    FoldOwned(LogOf(logs, r.owner)[..r.snapshot], r.owner);
    forall l | l in r.locations ensures l.owner == r.owner {
      assert Bare(l) in set x | x in r.locations :: Bare(x);
    }
  }

  lemma OwnerInstalled(contents: set<Location>, lastSeq: map<Owner, int>, logs: Logs, r: Report)
    requires Coherent(contents, lastSeq, logs) && HonestReport(r, logs)
    ensures Coherent(Others(contents, r.owner) + ToSet(r.locations), lastSeq[r.owner := r.snapshot], logs)
  {
    ReportIsOwned(r, logs);
    var after := Others(contents, r.owner) + ToSet(r.locations);
    assert View(after, r.owner) == set l | l in r.locations :: Bare(l);
    forall o | o != r.owner ensures View(after, o) == View(contents, o) {
      assert forall l: Location :: l.owner == o ==> (l in after <==> l in contents);
    }
    var lastSeq' := lastSeq[r.owner := r.snapshot];
    forall o | o in lastSeq' ensures InStep(after, o, lastSeq'[o], logs) {
      if o != r.owner { assert InStep(contents, o, lastSeq[o], logs); }
    }
  }

  predicate HonestWorld(reports: seq<Report>, logs: Logs) {
    forall i :: 0 <= i < |reports| ==> HonestReport(reports[i], logs)
  }

  lemma ViewOfReport(reports: seq<Report>, expected: set<Owner>, i: nat)
    requires GoodReports(reports, expected) && i < |reports|
    ensures View(Locations(reports), reports[i].owner) == set l | l in reports[i].locations :: Bare(l)
  {
    var o, all := reports[i].owner, Locations(reports);
    forall x | x in View(all, o) ensures x in set l | l in reports[i].locations :: Bare(l) {
      var l :| l in all && l.owner == o && Bare(l) == x;
      var j :| 0 <= j < |reports| && l in reports[j].locations;
      assert reports[j].owner == o;
    }
  }

  lemma WorldInstalled(reports: seq<Report>, expected: set<Owner>, lastSeq: map<Owner, int>, logs: Logs)
    requires OwnLogs(logs) && GoodReports(reports, expected) && HonestWorld(reports, logs)
    requires lastSeq.Keys == expected
    requires forall i :: 0 <= i < |reports| ==>
               reports[i].owner in lastSeq && lastSeq[reports[i].owner] == reports[i].snapshot
    ensures Coherent(Locations(reports), lastSeq, logs)
  {
    var all := Locations(reports);
    forall o | o in lastSeq ensures InStep(all, o, lastSeq[o], logs) {
      var i :| 0 <= i < |reports| && reports[i].owner == o;
      ViewOfReport(reports, expected, i);
      assert HonestReport(reports[i], logs);
    }
    forall o | o !in lastSeq ensures View(all, o) == {} {
      forall l | l in all ensures l.owner != o {
        var i :| 0 <= i < |reports| && l in reports[i].locations;
        assert reports[i].owner in expected;
      }
    }
  }

  ghost predicate SameElsewhere(before: set<Location>, after: set<Location>, instance: string) {
    forall o: Owner :: o.instance != instance ==> View(after, o) == View(before, o)
  }

  function Dropped(contents: set<Location>, instance: string): set<Location> {
    set l | l in contents && l.owner.instance != instance
  }

  /** Dropping an instance makes good whatever a stopped batch did to that instance's view. */
  lemma DropRestores(before: set<Location>, lastSeq: map<Owner, int>, half: set<Location>,
                     lastSeq': map<Owner, int>, instance: string, logs: Logs)
    requires Coherent(before, lastSeq, logs) && SameElsewhere(before, half, instance)
    requires lastSeq'.Keys <= lastSeq.Keys && forall o :: o in lastSeq' ==> lastSeq'[o] == lastSeq[o]
    requires forall o :: o in lastSeq && o.instance != instance ==> o in lastSeq'
    requires forall o :: o in lastSeq' && o.instance == instance ==> View(before, o) == {}
    ensures Coherent(Dropped(half, instance), lastSeq', logs)
  {
    var after := Dropped(half, instance);
    forall o: Owner ensures View(after, o) == if o.instance == instance then {} else View(before, o) {
      if o.instance != instance {
        assert View(half, o) == View(before, o);
        assert forall l: Location :: l.owner == o ==> (l in after <==> l in half);
      }
    }
    forall o | o in lastSeq' ensures InStep(after, o, lastSeq'[o], logs) {
      assert InStep(before, o, lastSeq[o], logs);
    }
  }

  /** The workers: a log per incarnation that only grows. */
  class Workers {
    var logs: Logs

    /** New events are recorded; what was recorded stays. */
    method Progress()
      requires OwnLogs(logs)
      modifies this
      ensures Grown(old(logs), logs)
    {
      var o: Owner, more: seq<Event> := *, *;
      if forall i :: 0 <= i < |more| ==> OwnEvent(more[i], o) {
        logs := logs[o := LogOf(logs, o) + more];
      }
    }
  }

  predicate Lists(instances: seq<string>, names: set<string>) {
    && (set i | 0 <= i < |instances| :: instances[i]) == names
    && forall i, j :: 0 <= i < j < |instances| ==> instances[i] != instances[j]
  }

  ghost predicate AllAsExpected(epochs: map<string, string>, instances: seq<string>, reports: seq<Report>)
    requires |instances| == |reports| && Lists(instances, epochs.Keys)
  {
    forall i :: 0 <= i < |reports| ==> reports[i].owner == Owner(instances[i], epochs[instances[i]])
  }

  ghost predicate Recorded(cursors: map<string, (string, int)>, instance: string, r: Report) {
    instance in cursors && cursors[instance] == (r.owner.epoch, r.snapshot)
  }

  /** Each reply must come from the worker asked, in the epoch expected of it. */
  method CheckWorld(epochs: map<string, string>, instances: seq<string>, reports: seq<Report>)
    returns (ok: bool, cursors: map<string, (string, int)>)
    requires |instances| == |reports| && Lists(instances, epochs.Keys)
    ensures ok == AllAsExpected(epochs, instances, reports)
    ensures ok ==> cursors.Keys == epochs.Keys
    ensures ok ==> forall i :: 0 <= i < |instances| ==> Recorded(cursors, instances[i], reports[i])
  {
    cursors := map[];
    for n := 0 to |instances|
      invariant cursors.Keys == set i | 0 <= i < n :: instances[i]
      invariant forall i :: 0 <= i < n ==> reports[i].owner == Owner(instances[i], epochs[instances[i]])
      invariant forall i :: 0 <= i < n ==> Recorded(cursors, instances[i], reports[i])
    {
      var r := reports[n];
      if r.owner.instance != instances[n] || r.owner.epoch != epochs[instances[n]] { return false, cursors; }
      cursors := cursors[instances[n] := (r.owner.epoch, r.snapshot)];
    }
    ok := true;
  }

  lemma CursorsMatch(epochs: map<string, string>, instances: seq<string>, reports: seq<Report>,
                     cursors: map<string, (string, int)>, lastSeq: map<Owner, int>)
    requires |instances| == |reports| && Lists(instances, epochs.Keys) && cursors.Keys == epochs.Keys
    requires AllAsExpected(epochs, instances, reports)
    requires forall i :: 0 <= i < |instances| ==> Recorded(cursors, instances[i], reports[i])
    requires forall i :: 0 <= i < |reports| ==>
               reports[i].owner in lastSeq && lastSeq[reports[i].owner] == reports[i].snapshot
    ensures (map i | i in cursors :: cursors[i].0) == epochs
    ensures forall i :: i in epochs ==>
              Owner(i, epochs[i]) in lastSeq && cursors[i] == (epochs[i], lastSeq[Owner(i, epochs[i])])
  {
    forall i | i in epochs
      ensures Owner(i, epochs[i]) in lastSeq && cursors[i] == (epochs[i], lastSeq[Owner(i, epochs[i])])
    {
      assert i in epochs.Keys;
      var n :| 0 <= n < |instances| && instances[n] == i;
      assert Recorded(cursors, instances[n], reports[n]);
    }
  }

  /** How a call ends: with a value, with a refusal the caller handles, or with a failure it passes on. */
  datatype Call<+T> = Done(value: T) | Refused | Failed

  datatype SyncError = ReportRefused | EventsRefused | CallFailed | InstanceUnknown

  class PrefixReconciler {
    const index: Directory
    const workers: Workers
    var owners: map<string, (string, int)>
    var expectedEpochs: map<string, string>
    var publication: Option<map<string, string>>

    ghost predicate Steady()
      reads this, index, workers
    {
      index.Valid() && Coherent(index.Contents(), index.lastSeq, workers.logs)
    }

    constructor (index: Directory, workers: Workers)
      requires index.Valid() && index.Contents() == {} && index.lastSeq == map[] && OwnLogs(workers.logs)
      ensures this.index == index && this.workers == workers && Steady() && forall e :: !WorldReady(e)
    {
      this.index, this.workers := index, workers;
      owners, expectedEpochs, publication := map[], map[], None;
    }

    predicate WorldReady(expected: map<string, string>)
      reads this
    {
      && (map i | i in owners :: owners[i].0) == expected
      && publication == Some(expected)
    }

    /** The part of a world rebuild after all replies are in; no other task runs inside. */
    method InstallWorld(epochs: map<string, string>, instances: seq<string>, reports: seq<Report>)
      returns (ok: bool)
      requires Steady() && |instances| == |reports| && HonestWorld(reports, workers.logs)
      requires Lists(instances, epochs.Keys)
      modifies this, index
      ensures Steady() && ok == AllAsExpected(epochs, instances, reports)
      ensures ok ==> WorldReady(epochs) && CursorsRecorded(epochs)
      ensures !ok ==> index.Contents() == old(index.Contents()) && index.lastSeq == old(index.lastSeq)
    {
      var cursors;
      ok, cursors := CheckWorld(epochs, instances, reports);
      if !ok { return; }
      var expected := set i | i in epochs :: Owner(i, epochs[i]);
      WorldIsGood(epochs, instances, reports, workers.logs);
      ok := index.InstallWorldFullReports(reports, expected);
      WorldInstalled(reports, expected, index.lastSeq, workers.logs);
      CursorsMatch(epochs, instances, reports, cursors, index.lastSeq);
      owners, expectedEpochs := cursors, epochs;
      publication := Some(epochs);
    }

    /** The recorded cursor of each expected worker is the cursor of the directory. */
    ghost predicate CursorsRecorded(epochs: map<string, string>)
      reads this, index
    {
      forall i :: i in epochs ==>
        && i in owners && Owner(i, epochs[i]) in index.lastSeq
        && owners[i] == (epochs[i], index.lastSeq[Owner(i, epochs[i])])
    }

    /** The part of a single rebuild after the reply is in. */
    method InstallOne(instance: string, r: Report) returns (ok: bool)
      requires Steady() && HonestReport(r, workers.logs)
      modifies this, index
      ensures Steady() && ok == (r.owner.instance == instance)
      ensures ok ==> owners == old(owners)[instance := (r.owner.epoch, r.snapshot)]
      ensures ok ==> index.lastSeq.Keys >= {r.owner} && index.lastSeq[r.owner] == r.snapshot
      ensures !ok ==> index.Contents() == old(index.Contents()) && index.lastSeq == old(index.lastSeq)
    {
      if r.owner.instance != instance { return false; }
      RemoveFromIndex(instance, index.Contents(), index.lastSeq, index.forward);
      ReportIsOwned(r, workers.logs);
      OwnerInstalled(index.Contents(), index.lastSeq, workers.logs, r);
      ok := index.InstallFullReport(r);
      owners := owners[instance := (r.owner.epoch, r.snapshot)];
      expectedEpochs := expectedEpochs[instance := r.owner.epoch];
    }

    /** Removes an instance from a directory that a stopped batch may have left ahead of its cursor. */
    method RemoveFromIndex(instance: string, ghost before: set<Location>, ghost lastSeq: map<Owner, int>,
                           ghost forward: Forward)
      requires index.Valid() && Coherent(before, lastSeq, workers.logs)
      requires SameElsewhere(before, index.Contents(), instance) && index.lastSeq == lastSeq
      requires forward.Keys <= index.forward.Keys
      requires forall l :: l in before ==> l.owner in forward
      modifies index
      ensures Steady() && index.Contents() == Dropped(old(index.Contents()), instance)
    {
      ghost var half := index.Contents();
      index.RemoveInstance(instance);
      DropRestores(before, lastSeq, half, index.lastSeq, instance, workers.logs);
    }

    /** Applies a batch, or forgets the instance or the whole world before anyone can look. */
    method ApplyOrForget(instance: string, epoch: string, events: seq<Event>)
      returns (r: Result<int, map<string, string>>)
      requires Steady() && HonestEvents(events, workers.logs)
      modifies this, index
      ensures Steady()
      ensures r.Ok? ==> owners == old(owners) && index.lastSeq == old(index.lastSeq)[Owner(instance, epoch) := r.value]
      ensures r.Err? ==> publication == None && instance !in owners
    {
      var owner := Owner(instance, epoch);
      ghost var before, lastSeq, forward := index.Contents(), index.lastSeq, index.forward;
      var start := if owner in index.lastSeq then index.lastSeq[owner] else 0;
      assert InStep(before, owner, start, workers.logs);
      BatchFollowsLog(before, start, owner, events, workers.logs);
      var applied := index.ApplyEvents(owner, events);
      match applied
      case Ok(cursor) =>
        assert forall o :: o in lastSeq ==> InStep(before, o, lastSeq[o], workers.logs);
        return Ok(cursor);
      case Err(_) =>
        AllIsInForward(before, forward, old(index.index));
        var epochs := Forget(instance, before, lastSeq, forward);
        return Err(epochs);
    }

    method Forget(instance: string, ghost before: set<Location>, ghost lastSeq: map<Owner, int>,
                  ghost forward: Forward)
      returns (epochs: map<string, string>)
      requires index.Valid() && Coherent(before, lastSeq, workers.logs)
      requires SameElsewhere(before, index.Contents(), instance) && index.lastSeq == lastSeq
      requires forward.Keys <= index.forward.Keys
      requires forall l :: l in before ==> l.owner in forward
      modifies this, index
      ensures Steady() && publication == None && instance !in owners
    {
      epochs := if expectedEpochs != map[] then expectedEpochs else map i | i in owners :: owners[i].0;
      if |epochs| > 1 {
        index.Clear();
        owners := map[];
      } else {
        RemoveFromIndex(instance, before, lastSeq, forward);
        owners := owners - {instance};
      }
      publication := None;
    }

    /** Other tasks and the workers act: any number of complete segments of this same code. */
    method Await()
      requires Steady()
      modifies this, index, workers
      ensures Steady() && Grown(old(workers.logs), workers.logs)
    {
      var steps: int := *;
      for i := 0 to if steps < 0 then 0 else steps
        invariant Steady() && Grown(old(workers.logs), workers.logs)
      {
        OtherTask();
      }
      ghost var logs := workers.logs;
      workers.Progress();
      GrowthKeeps(index.Contents(), index.lastSeq, logs, workers.logs);
    }

    method OtherTask()
      requires Steady()
      modifies this, index, workers
      ensures Steady() && Grown(old(workers.logs), workers.logs)
    {
      var choice: int, instance: string, epoch: string, report: Report, events: seq<Event> := *, *, *, *, *;
      var epochs: map<string, string>, instances: seq<string>, reports: seq<Report> := *, *, *;
      if choice == 0 && HonestReport(report, workers.logs) {
        var _ := InstallOne(instance, report);
      } else if choice == 1 && HonestEvents(events, workers.logs) {
        var _ := ApplyOrForget(instance, epoch, events);
      } else if choice == 2 && |instances| == |reports| && Lists(instances, epochs.Keys)
                && HonestWorld(reports, workers.logs) {
        var _ := InstallWorld(epochs, instances, reports);
      } else if choice == 3 {
        index.Clear();
      } else {
        ghost var logs := workers.logs;
        workers.Progress();
        GrowthKeeps(index.Contents(), index.lastSeq, logs, workers.logs);
      }
      owners, expectedEpochs, publication := *, *, *;
    }

    /** One full-report call: other tasks run, then the call fails or brings an honest report. */
    method FullReport() returns (r: Option<Report>)
      requires Steady()
      modifies this, index, workers
      ensures Steady() && Grown(old(workers.logs), workers.logs)
      ensures r.Some? ==> HonestReport(r.value, workers.logs)
    {
      Await();
      r := *;
      if r.Some? && !HonestReport(r.value, workers.logs) { r := None; }
    }

    method PeekEvents() returns (r: Call<seq<Event>>)
      requires Steady()
      modifies this, index, workers
      ensures Steady() && (r.Done? ==> HonestEvents(r.value, workers.logs))
    {
      Await();
      r := *;
      if r.Done? && !HonestEvents(r.value, workers.logs) { r := Failed; }
    }

    method AckEvents() returns (r: Call<()>)
      requires Steady()
      modifies this, index, workers
      ensures Steady()
    {
      Await();
      r := *;
    }

    method RebuildWorld(epochs: map<string, string>) returns (ok: bool)
      requires Steady()
      modifies this, index, workers
      ensures Steady()
      ensures ok ==> epochs != map[] && WorldReady(epochs) && CursorsRecorded(epochs)
    {
      if epochs == map[] { return false; }
      var instances := Listing(epochs.Keys);
      var reports: seq<Report> := [];
      for n := 0 to |instances|
        invariant Steady() && |reports| == n && HonestWorld(reports, workers.logs)
      {
        ghost var logs := workers.logs;
        var r := FullReport();
        if r.None? { return false; }
        HonestyLasts(reports, logs, workers.logs);
        reports := reports + [r.value];
      }
      ok := InstallWorld(epochs, instances, reports);
    }

    method Rebuild(instance: string) returns (r: Result<int, SyncError>)
      requires Steady()
      modifies this, index, workers
      ensures Steady() && (r.Ok? ==> CursorIs(instance, r.value))
    {
      var report := FullReport();
      if report.None? { return Err(CallFailed); }
      var ok := InstallOne(instance, report.value);
      return if ok then Ok(report.value.snapshot) else Err(ReportRefused);
    }

    ghost predicate CursorIs(instance: string, cursor: int)
      reads this
    {
      instance in owners && owners[instance].1 == cursor
    }

    method RebuildWorldFor(instance: string, epochs: map<string, string>) returns (r: Result<int, SyncError>)
      requires Steady()
      modifies this, index, workers
      ensures Steady() && (r.Ok? ==> CursorIs(instance, r.value) && WorldReady(epochs))
    {
      var ok := RebuildWorld(epochs);
      if !ok { return Err(ReportRefused); }
      if instance !in epochs { return Err(InstanceUnknown); }
      return Ok(owners[instance].1);
    }

    /** One poll of one worker. Other tasks run at each call; a returned cursor is the recorded one. */
    method SyncOnce(instance: string) returns (r: Result<int, SyncError>)
      requires Steady()
      modifies this, index, workers
      ensures Steady() && (r.Ok? ==> CursorIs(instance, r.value))
    {
      if publication == None && |expectedEpochs| > 1 {
        r := RebuildWorldFor(instance, expectedEpochs);
        return;
      }
      Await();
      if instance !in owners {
        r := Rebuild(instance);
        return;
      }
      var epoch := owners[instance].0;
      var events := PeekEvents();
      if events.Failed? { return Err(CallFailed); }
      var epochs;
      if events.Refused? {
        epochs := ForgetNow(instance);
      } else {
        var applied := ApplyOrForget(instance, epoch, events.value);
        if applied.Ok? {
          var ack := AckEvents();
          if ack.Failed? { return Err(CallFailed); }
          if ack.Done? {
            owners := owners[instance := (epoch, applied.value)];
            return Ok(applied.value);
          }
          epochs := ForgetNow(instance);
        } else {
          epochs := applied.error;
        }
      }
      if |epochs| > 1 {
        r := RebuildWorldFor(instance, epochs);
      } else {
        r := Rebuild(instance);
      }
    }

    method ForgetNow(instance: string) returns (epochs: map<string, string>)
      requires Steady()
      modifies this, index
      ensures Steady() && publication == None && instance !in owners
    {
      AllIsInForward(index.Contents(), index.forward, index.index);
      epochs := Forget(instance, index.Contents(), index.lastSeq, index.forward);
    }

    /** The polling loop; after a failed poll the directory forgets before it sleeps. */
    method RunRounds(rounds: seq<seq<string>>)
      requires Steady()
      modifies this, index, workers
      ensures Steady()
    {
      for n := 0 to |rounds|
        invariant Steady()
      {
        for i := 0 to |rounds[n]|
          invariant Steady()
        {
          var r := SyncOnce(rounds[n][i]);
          if r.Err? {
            AllIsInForward(index.Contents(), index.forward, index.index);
            if |expectedEpochs| > 1 {
              index.Clear();
              owners, publication := map[], None;
            } else {
              RemoveFromIndex(rounds[n][i], index.Contents(), index.lastSeq, index.forward);
              owners := owners - {rounds[n][i]};
            }
          }
        }
        Await();
      }
    }
  }

  method Listing(names: set<string>) returns (listed: seq<string>)
    ensures Lists(listed, names)
  {
    listed := [];
    var left := names;
    while left != {}
      invariant Lists(listed, names - left) && left <= names
      decreases left
    {
      var name :| name in left;
      assert name !in names - left;
      listed, left := listed + [name], left - {name};
      ListsNext(listed, names - left - {name}, name);
    }
  }

  lemma ListsNext(listed: seq<string>, names: set<string>, name: string)
    requires |listed| > 0 && listed[|listed| - 1] == name && name !in names
    requires Lists(listed[..|listed| - 1], names)
    ensures Lists(listed, names + {name})
  {
    var n := |listed| - 1;
    var front := listed[..n];
    assert forall i :: 0 <= i < n ==> front[i] == listed[i] && front[i] in names;
    forall x | x in names + {name} ensures x in set i | 0 <= i < |listed| :: listed[i] {
      if x in names {
        var i :| 0 <= i < |front| && front[i] == x;
        assert listed[i] == x;
      }
    }
  }

  lemma HonestyLasts(reports: seq<Report>, logs: Logs, logs': Logs)
    requires HonestWorld(reports, logs) && Grown(logs, logs')
    ensures HonestWorld(reports, logs')
  {
    forall i | 0 <= i < |reports| ensures HonestReport(reports[i], logs') {
      var o := reports[i].owner;
      assert HonestReport(reports[i], logs) && LogOf(logs, o) <= LogOf(logs', o);
      assert LogOf(logs', o)[..reports[i].snapshot] == LogOf(logs, o)[..reports[i].snapshot];
    }
  }

  lemma AllIsInForward(contents: set<Location>, forward: Forward, inverted: Inverted)
    requires Consistent(inverted, forward) && contents == AllOf(inverted)
    ensures forall l :: l in contents ==> l.owner in forward
  {
    AllIsIn(inverted);
  }

  lemma WorldIsGood(epochs: map<string, string>, instances: seq<string>, reports: seq<Report>, logs: Logs)
    requires |instances| == |reports| && HonestWorld(reports, logs) && OwnLogs(logs)
    requires Lists(instances, epochs.Keys) && AllAsExpected(epochs, instances, reports)
    ensures GoodReports(reports, set i | i in epochs :: Owner(i, epochs[i]))
  {
    forall i | 0 <= i < |reports| ensures reports[i].snapshot >= 0 && GoodReport(reports[i]) {
      assert HonestReport(reports[i], logs);
      ReportIsOwned(reports[i], logs);
    }
    var owners := set i | 0 <= i < |reports| :: reports[i].owner;
    forall o | o in set i | i in epochs :: Owner(i, epochs[i]) ensures o in owners {
      assert o.instance in epochs.Keys;
      var i :| 0 <= i < |instances| && instances[i] == o.instance;
      assert reports[i].owner == o;
    }
  }
}
