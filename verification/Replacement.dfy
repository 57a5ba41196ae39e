/**
 A whole replacement, from the controller that sends the accept body to the
 Gateway that acts on it. Controller and Gateway crash and restart on their own;
 the network may lose, delay and repeat calls and replies.
 */
module Replacement {
  import Gateway
  import Restart

  import opened StoreHistory
  import opened StoreModel
  import opened Wrappers

  /** How the Gateway reads the body of an accept call. */
  type Reading = Restart.Evidence -> Gateway.Body

  ghost predicate Faithful(read: Reading) {
    forall e :: read(e).run == e.runId && read(e).oldGeneration == e.oldGeneration
                && read(e).newGeneration == e.newGeneration
  }

  /** Every body of this run that reaches a Gateway was sent by the controller, whenever it arrives. */
  ghost predicate SentByController(bodies: set<Gateway.Body>, d: Restart.RunState, t: Restart.Trace, read: Reading) {
    forall b :: b in bodies && b.run == d.runId ==>
      exists p :: 0 <= p < |t| && t[p].CalledAccept? && b == read(t[p].body)
  }

  /** Every accepted reply the controller saw answers a call that a Gateway accepted. */
  ghost predicate RepliesAreTrue(t: Restart.Trace, calls: seq<Gateway.Call>, read: Reading) {
    forall p :: 0 <= p < |t| && t[p].AcceptedReply? ==>
      exists c :: c in calls && c.accepted && c.body == read(t[p].body)
  }

  lemma OneBodyArrives(bodies: set<Gateway.Body>, d: Restart.RunState, t: Restart.Trace, read: Reading, b: Gateway.Body)
    requires Restart.Inv(d, t) && SentByController(bodies, d, t, read) && b in bodies && b.run == d.runId
    ensures d.evidence.Some? && b == read(d.evidence.value)
  {
    var p :| 0 <= p < |t| && t[p].CalledAccept? && b == read(t[p].body);
    assert Restart.Fits(t[p], d);
  }

  /** The seal is of this body, and describes only decisions made for it. */
  ghost predicate SealOf(s: Sealed, b: Gateway.Body) {
    && s.seal.runId == b.run && s.seal.decision == Gateway.DecisionOf(b)
    && s.seal.oldGeneration == OfText(b.oldGeneration) && s.seal.newGeneration == b.newGeneration
    && Describes(s) && forall r :: r in s.records ==> r == Gateway.RecordFor(r.operationId, b)
  }

  /** No other body claims this run. */
  ghost predicate OnlyBody(bodies: set<Gateway.Body>, b: Gateway.Body) {
    forall c :: c in bodies && c.run == b.run ==> c == b
  }

  lemma RecordsAreOf(records: set<Record>, ops: seq<Op>, bodies: set<Gateway.Body>, b: Gateway.Body)
    requires RecordsAsked(records, ops) && Gateway.AllAsked(ops, bodies) && OnlyBody(bodies, b)
    requires forall r :: r in records ==> r.runId == b.run
    ensures forall r :: r in records ==> r == Gateway.RecordFor(r.operationId, b)
  {
    forall r | r in records ensures r == Gateway.RecordFor(r.operationId, b) {
      var op :| op in ops && Handing(op, r);
      var c :| c in bodies && Gateway.RequestOf(c, op);
      assert r == Gateway.RecordFor(r.operationId, c);
    }
  }

  lemma SealIsOf(ops: seq<Op>, bodies: set<Gateway.Body>, b: Gateway.Body, limits: Limits, s: Sealed)
    requires limits.Valid() && Gateway.AllAsked(ops, bodies) && OnlyBody(bodies, b)
    requires s in Run(ops, limits).history && s.seal.runId == b.run
    ensures SealOf(s, b)
  {
    NothingIsMadeUp(ops, limits);
    DescribedInHistory(ops, bodies, limits, s);
    RecordsAreOf(s.records, ops, bodies, b);
    var op :| op in ops && Sealing(op, s.seal);
    var c :| c in bodies && Gateway.RequestOf(c, op);
  }

  lemma DescribedInHistory(ops: seq<Op>, bodies: set<Gateway.Body>, limits: Limits, s: Sealed)
    requires limits.Valid() && Gateway.AllAsked(ops, bodies) && s in Run(ops, limits).history
    ensures Describes(s)
  {
    Gateway.AskedAreWellFormed(ops, bodies);
    EveryRunKeepsInv(ops, limits);
    var history := Run(ops, limits).history;
    var i :| 0 <= i < |history| && history[i] == s;
    assert Describes(history[i]);
  }

  /** A seal of the controller's run means that the controller has sent its one body, and is a seal of it. */
  lemma SealIsOfTheRun(
    d: Restart.RunState, t: Restart.Trace, read: Reading, bodies: set<Gateway.Body>, ops: seq<Op>, limits: Limits,
    s: Sealed)
    requires Restart.Inv(d, t) && Faithful(read) && SentByController(bodies, d, t, read)
    requires limits.Valid() && Gateway.AllAsked(ops, bodies)
    requires s in Run(ops, limits).history && s.seal.runId == d.runId
    ensures d.evidence.Some? && SealOf(s, read(d.evidence.value))
  {
    NothingIsMadeUp(ops, limits);
    var op :| op in ops && Sealing(op, s.seal);
    var b :| b in bodies && Gateway.RequestOf(b, op);
    OneBodyArrives(bodies, d, t, read, b);
    forall c | c in bodies && c.run == b.run ensures c == b { OneBodyArrives(bodies, d, t, read, c); }
    SealIsOf(ops, bodies, b, limits, s);
  }

  /**
   Over all lives of the controller and all lives of the Gateway: every seal of
   the controller's run is of the one body it sent, with its generations, describes
   exactly decisions made for it, and no two of them are within the retention of
   each other.
   */
  lemma ReplacedOnce(
    d: Restart.RunState, t: Restart.Trace, read: Reading, bodies: set<Gateway.Body>, ops: seq<Op>, limits: Limits)
    requires Restart.Inv(d, t) && Faithful(read) && SentByController(bodies, d, t, read)
    requires limits.Valid() && Gateway.AllAsked(ops, bodies)
    ensures var history := Run(ops, limits).history;
            && (forall s :: s in history && s.seal.runId == d.runId ==>
                  d.evidence.Some? && SealOf(s, read(d.evidence.value)))
            && (forall i, j :: 0 <= i < j < |history| && history[i].seal.runId == history[j].seal.runId == d.runId ==>
                  j - i > limits.retention)
  {
    forall s | s in Run(ops, limits).history && s.seal.runId == d.runId
      ensures d.evidence.Some? && SealOf(s, read(d.evidence.value))
    {
      SealIsOfTheRun(d, t, read, bodies, ops, limits, s);
    }
    Gateway.AskedAreWellFormed(ops, bodies);
    EveryRunKeepsInv(ops, limits);
  }

  /** The controller ends its run as accepted only when the run is sealed on the Gateway's disk. */
  lemma AcceptedMeansSealed(
    d: Restart.RunState, t: Restart.Trace, read: Reading, bodies: set<Gateway.Body>, ops: seq<Op>,
    calls: seq<Gateway.Call>, limits: Limits, p: nat)
    requires Restart.Inv(d, t) && Faithful(read) && SentByController(bodies, d, t, read)
    requires limits.Valid() && Gateway.SoundSoFar(ops, calls, bodies, limits) && RepliesAreTrue(t, calls, read)
    requires p < |t| && Restart.IsEnd(t[p])
    ensures d.evidence.Some?
    ensures exists s :: s in Run(ops, limits).history && SealOf(s, read(d.evidence.value))
  {
    Restart.EndsAfterAcceptance(d, t, p);
    var q :| 0 <= q < p && t[q] == Restart.AcceptedReply(d.evidence.value);
    var c :| c in calls && c.accepted && c.body == read(t[q].body);
    assert c.body.run == d.runId;
    assert Gateway.CallIsSound(c, ops, limits);
    SealedIsInHistory(ops, c.to, c.body.run, bodies, limits);
    var s :| s in Run(ops, limits).history && s.seal.runId == d.runId;
    SealIsOfTheRun(d, t, read, bodies, ops, limits, s);
  }

  /** A seal found on disk at some point of a history is in the history from then on. */
  lemma SealedIsInHistory(ops: seq<Op>, n: nat, run: string, bodies: set<Gateway.Body>, limits: Limits)
    requires limits.Valid() && n <= |ops| && Gateway.AllAsked(ops, bodies)
    requires SealFor(Run(ops[..n], limits).durable.image.seals, run).Some?
    ensures exists s :: s in Run(ops, limits).history && s.seal.runId == run
  {
    Gateway.AskedAreWellFormed(ops[..n], bodies);
    EveryRunKeepsInv(ops[..n], limits);
    var history := Run(ops[..n], limits).history;
    RetainedIff(history, run, limits.retention);
    var i :| 0 <= i < |history| && history[i].seal.runId == run;
    HistoryGrows(ops, n, limits);
    assert history[i] in Run(ops, limits).history;
  }

  lemma {:induction false} HistoryGrows(ops: seq<Op>, n: nat, limits: Limits)
    requires n <= |ops|
    ensures Run(ops[..n], limits).history <= Run(ops, limits).history
    decreases |ops|
  {
    if n == |ops| {
      assert ops[..n] == ops;
    } else {
      var front := ops[..|ops| - 1];
      assert front[..n] == ops[..n];
      HistoryGrows(front, n, limits);
      StepAsks(Run(front, limits), ops[|ops| - 1], limits);
    }
  }
}
