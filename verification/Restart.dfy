/**
 Whole-world restart. The controller keeps its progress in one run file that it
 replaces atomically; it may crash between any two steps and is started again
 with the same command. The trace holds, over all its lives, every state it
 saved and every call it made to the cluster or the Gateway, in order.
 */
module Restart {
  import opened Termination
  import opened Wrappers

  const MEMBERS := [P0, P1, D0, D1]

  datatype Permit = Permit(permitId: string, generation: string, members: map<Member, string>)

  /** The body of an accept call. */
  datatype Evidence = Evidence(
    runId: string, oldGeneration: string, newGeneration: string, identities: map<Member, string>,
    terminations: Option<Proofs>, reports: string)

  datatype Checkpoint =
    | Created | Captured | Terminated | GenerationPatched | Started
    | PermitReady | PermitPublished | EvidenceReady | Accepted

  function Rank(c: Checkpoint): nat {
    match c
    case Created => 0
    case Captured => 1
    case Terminated => 2
    case GenerationPatched => 3
    case Started => 4
    case PermitReady => 5
    case PermitPublished => 6
    case EvidenceReady => 7
    case Accepted => 8
  }

  /** The run file. */
  datatype RunState = RunState(
    runId: string, oldGeneration: string, newGeneration: string, checkpoint: Checkpoint,
    captured: map<Member, Identity>, journal: Journal, proofs: map<Member, Proof>,
    permit: Option<Permit>, evidence: Option<Evidence>)

  type World = map<Member, Identity>
  type Proofs = map<Member, Proof>

  /** Four physical processes of one generation that cannot be mistaken for one another. */
  predicate WellCaptured(w: World, generation: string) {
    && (forall m: Member :: m in w && w[m].member == m && w[m].topologyGeneration == generation)
    && (forall m: Member :: m in w ==>
          w[m].podUid != "" && w[m].nodeUid != "" && w[m].containerId != "" && w[m].processGeneration != "")
    && (forall m: Member, n: Member :: m in w && n in w && m != n ==>
          w[m].podUid != w[n].podUid && w[m].containerId != w[n].containerId)
  }

  /** A complete proof that the captured process itself is gone. */
  predicate Binds(p: Proof, process: Identity) {
    && p.of.member == process.member && p.of.podUid == process.podUid && p.of.nodeUid == process.nodeUid
    && p.of.containerId == process.containerId && p.of.processGeneration == process.processGeneration
    && p.Deleted()
  }

  /** A proof the guard takes: its sealed record is canonical and it binds the captured process. */
  predicate Proves(p: Proof, process: Identity) { ValidRecord(Seal(p), None) && Binds(p, process) }

  predicate AllBind(proofs: Proofs, w: World) {
    forall m: Member :: m in proofs ==> m in w && proofs[m].of.member == m && Proves(proofs[m], w[m])
  }

  /** Every proof in use was observed, and every observation is linked to the raw events it was made from. */
  ghost predicate AllObserved(proofs: Proofs, j: Journal, w: World) {
    && (forall m: Member :: m in proofs ==> Observed(proofs[m]) in j)
    && (forall p :: Observed(p) in j ==> p.of.member in w && Linked(p, j, w[p.of.member]))
  }

  predicate Four<T>(m: map<Member, T>) { forall x: Member :: x in m }

  function InOrder<T>(m: map<Member, T>): (r: seq<T>)
    requires Four(m)
    ensures |r| == 4 && forall i :: 0 <= i < 4 ==> r[i] == m[MEMBERS[i]]
  {
    seq(4, i requires 0 <= i < 4 => m[MEMBERS[i]])
  }

  datatype Event =
    | Saved(state: RunState)
    | Stopped(member: Member)
    | PatchedGeneration(generation: string)
    | StartedMember(member: Member)
    | PublishedPermit(permit: Permit)
    | PersistedWorld(permit: Permit)
    | CalledAccept(body: Evidence)
    | AcceptedReply(body: Evidence)

  type Trace = seq<Event>

  /** What a saved state holds, by how far it got. */
  ghost predicate Good(d: RunState) {
    && (d.checkpoint.Created? ==> d.proofs == map[] && d.journal == [])
    && (Rank(d.checkpoint) >= 1 ==> Proven(d))
    && (Rank(d.checkpoint) >= 2 ==> Four(d.proofs))
    && (d.permit.Some? <==> Rank(d.checkpoint) >= 5)
    && (d.permit.Some? ==> GoodPermit(d.permit.value, d))
    && (d.evidence.Some? <==> Rank(d.checkpoint) >= 7)
    && (d.evidence.Some? ==> GoodBody(d.evidence.value, d))
  }

  /** The old world is captured, and the proofs so far are of it and rest on the journal. */
  ghost predicate Proven(d: RunState) {
    && WellCaptured(d.captured, d.oldGeneration) && AllBind(d.proofs, d.captured)
    && AllObserved(d.proofs, d.journal, d.captured)
  }

  /** A permit for the new generation and four Pods none of which is an old one. */
  predicate GoodPermit(p: Permit, d: RunState) {
    && p.generation == d.newGeneration
    && (forall m: Member :: m in p.members)
    && (forall m: Member, n: Member :: m in p.members && n in d.captured ==> p.members[m] != d.captured[n].podUid)
  }

  /** A body that names this run, the permitted Pods, and the proofs of the captured processes. */
  predicate GoodBody(e: Evidence, d: RunState) {
    && e.runId == d.runId && e.newGeneration == d.newGeneration
    && d.permit.Some? && e.identities == d.permit.value.members
    && Four(d.proofs) && e.terminations == Some(d.proofs)
  }

  function Records(proofs: Proofs): seq<Record>
    requires Four(proofs)
  {
    SealAll(InOrder(proofs))
  }

  /** A later state keeps everything an earlier one had fixed. */
  predicate Follows(s: RunState, d: RunState) {
    && s.runId == d.runId && s.oldGeneration == d.oldGeneration && s.newGeneration == d.newGeneration
    && Rank(s.checkpoint) <= Rank(d.checkpoint) && s.journal <= d.journal
    && (Rank(s.checkpoint) >= 1 ==> d.captured == s.captured)
    && (forall m: Member :: m in s.proofs ==> m in d.proofs && d.proofs[m] == s.proofs[m])
    && (s.permit.Some? ==> d.permit == s.permit)
    && (s.evidence.Some? ==> d.evidence == s.evidence)
  }

  /** What a call commits the run file to from then on. */
  ghost predicate Fits(e: Event, d: RunState) {
    match e
    case Saved(s) => Good(s) && Follows(s, d)
    case Stopped(_) => Rank(d.checkpoint) >= 1
    case PatchedGeneration(g) => Rank(d.checkpoint) >= 2 && g == d.newGeneration
    case StartedMember(_) => Rank(d.checkpoint) >= 2
    case PublishedPermit(p) => d.permit == Some(p)
    case PersistedWorld(p) => d.permit == Some(p)
    case CalledAccept(e) => d.evidence == Some(e)
    case AcceptedReply(e) => d.evidence == Some(e)
  }

  /** What must already be on disk when a call is made. */
  predicate Backed(e: Event, s: RunState) {
    match e
    case Saved(_) => true
    case Stopped(_) => Rank(s.checkpoint) >= 1
    case PatchedGeneration(_) => Rank(s.checkpoint) >= 2
    case StartedMember(_) => Rank(s.checkpoint) >= 2
    case PublishedPermit(p) => s.permit == Some(p)
    case PersistedWorld(p) => s.permit == Some(p) && s.evidence.Some?
    case CalledAccept(e) => s.evidence == Some(e)
    case AcceptedReply(e) => s.evidence == Some(e)
  }

  /** Some state saved before position `p` backs the call at `p`. */
  ghost predicate BackedAt(t: Trace, p: nat)
    requires p < |t|
  {
    t[p].Saved? || exists a :: 0 <= a < p && t[a].Saved? && Good(t[a].state) && Backed(t[p], t[a].state)
  }

  /** An event of the end of a run: the deployed world is upgraded, or the file says the run was accepted. */
  predicate IsEnd(e: Event) { e.PersistedWorld? || (e.Saved? && e.state.checkpoint.Accepted?) }

  /** The Gateway accepted a body sent before, and answers that before the run ends. */
  ghost predicate Answered(t: Trace) {
    && (forall p :: 0 <= p < |t| && IsEnd(t[p]) ==> exists a :: 0 <= a < p && t[a].AcceptedReply?)
    && (forall p :: 0 <= p < |t| && t[p].AcceptedReply? ==> exists a :: 0 <= a < p && t[a] == CalledAccept(t[p].body))
  }

  /** The run file `d` and everything that happened so far. */
  ghost predicate Inv(d: RunState, t: Trace) {
    Good(d) && Saved(d) in t && AllFit(t, d) && AllBacked(t) && Answered(t)
  }

  ghost predicate AllFit(t: Trace, d: RunState) { forall e :: e in t ==> Fits(e, d) }

  ghost predicate AllBacked(t: Trace) { forall p :: 0 <= p < |t| ==> BackedAt(t, p) }

  ghost predicate HasReply(t: Trace) { exists a :: 0 <= a < |t| && t[a].AcceptedReply? }

  /** What must have happened before an event of the end, or before the answer to a call. */
  ghost predicate Allowed(t: Trace, e: Event) {
    && (IsEnd(e) ==> HasReply(t))
    && (e.AcceptedReply? ==> CalledAccept(e.body) in t)
  }

  lemma AnsweredLasts(t: Trace, e: Event)
    requires Answered(t) && Allowed(t, e)
    ensures Answered(t + [e])
  {
    var t' := t + [e];
    forall p | 0 <= p < |t'| && IsEnd(t'[p]) ensures exists a :: 0 <= a < p && t'[a].AcceptedReply? {
      var a :| 0 <= a < p && a < |t| && t[a].AcceptedReply?;
      assert t'[a] == t[a];
    }
    forall p | 0 <= p < |t'| && t'[p].AcceptedReply?
      ensures exists a :: 0 <= a < p && t'[a] == CalledAccept(t'[p].body)
    {
      if p < |t| {
        var a :| 0 <= a < p && t[a] == CalledAccept(t[p].body);
        assert t'[a] == t[a];
      } else {
        var a :| 0 <= a < |t| && t[a] == CalledAccept(e.body);
        assert t'[a] == t[a];
      }
    }
  }

  lemma FollowsOn(a: RunState, b: RunState, c: RunState)
    requires Follows(a, b) && Follows(b, c)
    ensures Follows(a, c)
  {
  }

  lemma FitsOn(e: Event, d: RunState, d': RunState)
    requires Fits(e, d) && Follows(d, d')
    ensures Fits(e, d')
  {
    if e.Saved? { FollowsOn(e.state, d, d'); }
  }

  lemma BackedStays(t: Trace, e: Event, p: nat)
    requires p < |t| && BackedAt(t, p)
    ensures BackedAt(t + [e], p)
  {
    var t' := t + [e];
    assert t'[p] == t[p];
    if !t[p].Saved? {
      var a :| 0 <= a < p && t[a].Saved? && Good(t[a].state) && Backed(t[p], t[a].state);
      assert t'[a] == t[a];
    }
  }

  lemma LastIsBacked(t: Trace, e: Event, s: RunState)
    requires e.Saved? || (Saved(s) in t && Good(s) && Backed(e, s))
    ensures BackedAt(t + [e], |t|)
  {
    if !e.Saved? {
      var a :| 0 <= a < |t| && t[a] == Saved(s);
      assert (t + [e])[a] == t[a];
    }
  }

  lemma BackedLasts(t: Trace, e: Event, s: RunState)
    requires AllBacked(t)
    requires e.Saved? || (Saved(s) in t && Good(s) && Backed(e, s))
    ensures AllBacked(t + [e])
  {
    forall p | 0 <= p < |t + [e]| ensures BackedAt(t + [e], p) {
      if p < |t| { BackedStays(t, e, p); } else { LastIsBacked(t, e, s); }
    }
  }

  lemma FitOn(t: Trace, d: RunState, d': RunState, e: Event)
    requires AllFit(t, d) && (d' == d || Follows(d, d')) && Fits(e, d')
    ensures AllFit(t + [e], d')
  {
    forall x | x in t + [e] ensures Fits(x, d') {
      if x in t && d' != d { FitsOn(x, d, d'); }
    }
  }

  lemma SaveKeeps(d: RunState, t: Trace, next: RunState)
    requires Inv(d, t) && Good(next) && Follows(d, next) && Allowed(t, Saved(next))
    ensures Inv(next, t + [Saved(next)])
  {
    AnsweredLasts(t, Saved(next));
    FitOn(t, d, next, Saved(next));
    BackedLasts(t, Saved(next), d);
  }

  lemma CallKeeps(d: RunState, t: Trace, e: Event)
    requires Inv(d, t) && !e.Saved? && Fits(e, d) && Backed(e, d) && Allowed(t, e)
    ensures Inv(d, t + [e])
  {
    AnsweredLasts(t, e);
    FitOn(t, d, d, e);
    BackedLasts(t, e, d);
  }

  /** Replaces the run file. The process may die before or after the rename. */
  method Save(d: RunState, t: Trace, next: RunState) returns (alive: bool, d': RunState, t': Trace)
    requires Inv(d, t) && Good(next) && Follows(d, next) && Allowed(t, Saved(next))
    ensures Inv(d', t') && t <= t' && (alive ==> d' == next) && (d' == next || d' == d)
  {
    var written: bool, survives: bool := *, *;
    if !written { return false, d, t; }
    SaveKeeps(d, t, next);
    return survives, next, t + [Saved(next)];
  }

  /** Makes one call; it may fail or the process may die, before or after the call takes effect. */
  method Call(d: RunState, t: Trace, e: Event) returns (alive: bool, t': Trace)
    requires Inv(d, t) && !e.Saved? && Fits(e, d) && Backed(e, d) && Allowed(t, e)
    ensures Inv(d, t') && t <= t' && (alive ==> t' == t + [e])
  {
    var sent: bool, survives: bool := *, *;
    if !sent { return false, t; }
    CallKeeps(d, t, e);
    return survives, t + [e];
  }

  /** The guard: a proof is taken only if its record is canonical and binds the captured process, and never replaced. */
  function RecordTermination(proofs: Proofs, p: Proof, w: World): (r: Option<Proofs>)
    requires forall m: Member :: m in w && w[m].member == m
    ensures r.Some? <==> Proves(p, w[p.of.member]) && (p.of.member in proofs ==> proofs[p.of.member] == p)
    ensures r.Some? ==> r.value == proofs[p.of.member := p]
  {
    if !p.Deleted() then None
    else if !ValidRecord(Seal(p), None) then None
    else if !Binds(p, w[p.of.member]) then None
    else if p.of.member in proofs && proofs[p.of.member] != p then None
    else Some(proofs[p.of.member := p])
  }

  /** Proofs the journal settled: observed, passed and never failed, one per member. */
  method JournalProofs(journal: Journal) returns (r: Option<Proofs>)
    ensures r.Some? ==> forall m: Member :: m in r.value ==>
              && r.value[m].of.member == m && Observed(r.value[m]) in journal
              && Verdict(r.value[m], true) in journal && Verdict(r.value[m], false) !in journal
    ensures r.Some? ==> forall p :: Observed(p) in journal && Verdict(p, true) in journal ==>
              p.of.member in r.value && r.value[p.of.member] == p
    ensures r.None? ==> Unsettled(journal)
  {
    var passed := set i | 0 <= i < |journal| && journal[i].Verdict? && journal[i].pass :: journal[i].proof;
    var failed := set i | 0 <= i < |journal| && journal[i].Verdict? && !journal[i].pass :: journal[i].proof;
    assert forall p :: p in passed <==> Verdict(p, true) in journal;
    assert forall p :: p in failed <==> Verdict(p, false) in journal;
    if passed * failed != {} {
      var p :| p in passed * failed;
      assert Verdict(p, true) in journal && Verdict(p, false) in journal;
      return None;
    }
    assert forall p :: p in passed ==> p !in failed by {
      forall p | p in passed ensures p !in failed { assert p !in passed * failed; }
    }
    var proofs: Proofs := map[];
    for n := 0 to |journal|
      invariant forall m: Member :: m in proofs ==>
                  proofs[m].of.member == m && Observed(proofs[m]) in journal && proofs[m] in passed
      invariant forall k :: 0 <= k < n && journal[k].Observed? && journal[k].proof in passed ==>
                  journal[k].proof.of.member in proofs && proofs[journal[k].proof.of.member] == journal[k].proof
    {
      if journal[n].Observed? && journal[n].proof in passed {
        var p := journal[n].proof;
        if p.of.member in proofs && proofs[p.of.member] != p {
          assert Observed(p) in journal && Verdict(p, true) in journal;
          return None;
        }
        proofs := proofs[p.of.member := p];
      }
    }
    r := Some(proofs);
  }

  /** The journal contradicts itself: two verdicts on one proof, or two passed proofs of one member. */
  ghost predicate Unsettled(journal: Journal) {
    || (exists p :: Verdict(p, true) in journal && Verdict(p, false) in journal)
    || (exists p: Proof, q: Proof :: p != q && p.of.member == q.of.member
          && Observed(p) in journal && Verdict(p, true) in journal
          && Observed(q) in journal && Verdict(q, true) in journal)
  }

  /** Takes one proof into the guard and the run file. */
  method Checkpoint1(d: RunState, t: Trace, proofs: Proofs, p: Proof)
    returns (alive: bool, d': RunState, t': Trace, proofs': Proofs)
    requires Inv(d, t) && 1 <= Rank(d.checkpoint) <= 6 && Observed(p) in d.journal
    ensures Inv(d', t') && t <= t' && d'.checkpoint == d.checkpoint && d'.journal == d.journal
    ensures d'.proofs == d.proofs || d'.proofs == d.proofs[p.of.member := p]
    ensures alive ==> proofs' == proofs[p.of.member := p] && d'.proofs == d.proofs[p.of.member := p]
  {
    var recorded := RecordTermination(proofs, p, d.captured);
    if recorded.None? || (p.of.member in d.proofs && d.proofs[p.of.member] != p) { return false, d, t, proofs; }
    proofs' := recorded.value;
    ProofKeepsGood(d, p);
    alive, d', t' := Save(d, t, d.(proofs := d.proofs[p.of.member := p]));
  }

  /** Rebuilds the guard after a restart from the run file and the journal, which must agree. */
  method RestoreProofs(d: RunState, t: Trace) returns (alive: bool, d': RunState, t': Trace)
    requires Inv(d, t) && 1 <= Rank(d.checkpoint) <= 6
    ensures Inv(d', t') && t <= t' && d'.checkpoint == d.checkpoint
  {
    d', t' := d, t;
    var settled := JournalProofs(d.journal);
    if settled.None? { return false, d, t; }
    var guard: Proofs := map[];
    for n := 0 to |MEMBERS|
      invariant Inv(d', t') && t <= t' && d'.checkpoint == d.checkpoint && d'.journal == d.journal
    {
      var m := MEMBERS[n];
      if m in d.proofs && m in settled.value && d.proofs[m] != settled.value[m] { return false, d', t'; }
      if m in d.proofs || m in settled.value {
        var p := if m in settled.value then settled.value[m] else d.proofs[m];
        alive, d', t', guard := Checkpoint1(d', t', guard, p);
        if !alive { return; }
      }
    }
    alive := true;
  }

  /** First life: capture the old world and write it down before anything is stopped. */
  method Capture(d: RunState, t: Trace) returns (alive: bool, d': RunState, t': Trace)
    requires Inv(d, t) && d.checkpoint.Created?
    ensures Inv(d', t') && t <= t' && (alive ==> d'.checkpoint.Captured?)
  {
    var world: World := *;
    if !WellCaptured(world, d.oldGeneration) { return false, d, t; }
    alive, d', t' := Save(d, t, d.(checkpoint := Captured, captured := world, proofs := map[]));
  }

  /** Scales every member down, then takes a proof of each one's end into the journal and the run file. */
  method StopAndObserve(d: RunState, t: Trace) returns (alive: bool, d': RunState, t': Trace)
    requires Inv(d, t) && d.checkpoint.Captured?
    ensures Inv(d', t') && t <= t' && (alive ==> d'.checkpoint.Terminated?)
  {
    d', t' := d, t;
    for n := 0 to |MEMBERS|
      invariant Inv(d', t') && t <= t' && d' == d
    {
      alive, t' := Call(d', t', Stopped(MEMBERS[n]));
      if !alive { return; }
    }
    for n := 0 to |MEMBERS|
      invariant Inv(d', t') && t <= t' && d'.checkpoint.Captured?
    {
      if MEMBERS[n] !in d'.proofs {
        alive, d', t' := ObserveOne(d', t', MEMBERS[n]);
        if !alive { return; }
      }
    }
    if !Four(d'.proofs) { return false, d', t'; }
    alive, d', t' := Save(d', t', d'.(checkpoint := Terminated));
  }

  /** Every observation among these entries is linked. */
  ghost predicate NewlyLinked(more: Journal, j: Journal, w: World) {
    forall e :: e in more && e.Observed? ==> e.proof.of.member in w && Linked(e.proof, j, w[e.proof.of.member])
  }

  lemma ObservedLasts(proofs: Proofs, j: Journal, w: World, more: Journal)
    requires AllObserved(proofs, j, w) && NewlyLinked(more, j + more, w)
    ensures AllObserved(proofs, j + more, w)
  {
    forall q | Observed(q) in j + more ensures q.of.member in w && Linked(q, j + more, w[q.of.member]) {
      if Observed(q) in j { LinkedLasts(q, j, j + more, w[q.of.member]); }
    }
  }

  method AppendToJournal(d: RunState, t: Trace, more: Journal) returns (alive: bool, d': RunState, t': Trace)
    requires Inv(d, t) && d.checkpoint.Captured? && NewlyLinked(more, d.journal + more, d.captured)
    ensures Inv(d', t') && t <= t' && d'.checkpoint.Captured?
    ensures alive ==> d' == d.(journal := d.journal + more)
  {
    ObservedLasts(d.proofs, d.journal, d.captured, more);
    alive, d', t' := Save(d, t, d.(journal := d.journal + more));
  }

  lemma OneMoreProof(proofs: Proofs, j: Journal, w: World, p: Proof)
    requires AllBind(proofs, w) && AllObserved(proofs, j, w) && Observed(p) in j
    requires p.of.member in w && Proves(p, w[p.of.member])
    ensures AllBind(proofs[p.of.member := p], w) && AllObserved(proofs[p.of.member := p], j, w)
  {
    var next := proofs[p.of.member := p];
    forall m: Member | m in next ensures m in w && next[m].of.member == m && Proves(next[m], w[m]) {
      if m != p.of.member { assert next[m] == proofs[m]; }
    }
  }

  lemma NewProofKeepsGood(d: RunState, p: Proof)
    requires Good(d) && 1 <= Rank(d.checkpoint) <= 6 && Observed(p) in d.journal && p.of.member in d.captured
    requires Proves(p, d.captured[p.of.member]) && p.of.member !in d.proofs
    ensures Good(d.(proofs := d.proofs[p.of.member := p]))
  {
    OneMoreProof(d.proofs, d.journal, d.captured, p);
    assert d.checkpoint.Captured?;
  }

  /** One more proof, observed and taken by the guard, keeps the state good. */
  lemma ProofKeepsGood(d: RunState, p: Proof)
    requires Good(d) && 1 <= Rank(d.checkpoint) <= 6 && Observed(p) in d.journal && p.of.member in d.captured
    requires Proves(p, d.captured[p.of.member]) && (p.of.member in d.proofs ==> d.proofs[p.of.member] == p)
    ensures Good(d.(proofs := d.proofs[p.of.member := p])) && Follows(d, d.(proofs := d.proofs[p.of.member := p]))
  {
    var next := d.(proofs := d.proofs[p.of.member := p]);
    if p.of.member in d.proofs {
      assert next.proofs == d.proofs;
      assert next == d;
    } else {
      NewProofKeepsGood(d, p);
    }
    assert Follows(d, next) by { FollowsWithProof(d, p); }
  }

  lemma FollowsWithProof(d: RunState, p: Proof)
    requires p.of.member in d.proofs ==> d.proofs[p.of.member] == p
    ensures Follows(d, d.(proofs := d.proofs[p.of.member := p]))
  {
  }

  /** Moving the checkpoint where nothing else is due keeps the state good. */
  lemma CheckpointKeepsGood(d: RunState, c: Checkpoint)
    requires Good(d) && 2 <= Rank(d.checkpoint) <= Rank(c)
    requires (Rank(d.checkpoint) >= 5 <==> Rank(c) >= 5) && (Rank(d.checkpoint) >= 7 <==> Rank(c) >= 7)
    ensures Good(d.(checkpoint := c)) && Follows(d, d.(checkpoint := c))
  {
    var next := d.(checkpoint := c);
    assert Proven(next);
    assert next.permit.Some? ==> GoodPermit(next.permit.value, next);
    assert next.evidence.Some? ==> GoodBody(next.evidence.value, next);
  }

  lemma BodyKeepsGood(d: RunState, e: Evidence)
    requires Good(d) && d.checkpoint.PermitPublished?
    requires e.runId == d.runId && e.newGeneration == d.newGeneration
    requires e.identities == d.permit.value.members && e.terminations == Some(d.proofs)
    ensures var next := d.(checkpoint := EvidenceReady, evidence := Some(e)); Good(next) && Follows(d, next)
  {
    var next := d.(checkpoint := EvidenceReady, evidence := Some(e));
    assert Proven(next);
    assert GoodPermit(next.permit.value, next);
    assert GoodBody(e, next);
  }

  /**
   One observation: raw events are journalled as they are read, and a life that
   ends in between has read fewer. The proof is journalled as seen, judged, the
   verdict journalled, then checkpointed.
   */
  method ObserveOne(d: RunState, t: Trace, m: Member) returns (alive: bool, d': RunState, t': Trace)
    requires Inv(d, t) && d.checkpoint.Captured?
    ensures Inv(d', t') && t <= t' && d'.checkpoint.Captured?
  {
    var items: seq<Item> := *;
    var x := d.captured[m];
    var observed, j, read := Consume(items, x, None, true, true, d.journal);
    if observed.Err? {
      alive, d', t' := AppendToJournal(d, t, j[|d.journal|..]);
      return false, d', t';
    }
    var p := observed.value;
    assert d.journal + j[|d.journal|..] == j;
    alive, d', t' := AppendToJournal(d, t, j[|d.journal|..]);
    if !alive { return; }
    LinkedLasts(p, j, j + [Observed(p)], x);
    ghost var before := t';
    alive, d', t' := AppendToJournal(d', t', [Observed(p)]);
    PrefixOn(t, before, t');
    if !alive { return; }
    before := t';
    alive, d', t' := JudgeAndCheckpoint(d', t', p);
    PrefixOn(t, before, t');
  }

  /** The journalled proof is judged against the journal and the captured process; only a pass is checkpointed. */
  method JudgeAndCheckpoint(d: RunState, t: Trace, p: Proof) returns (alive: bool, d': RunState, t': Trace)
    requires Inv(d, t) && d.checkpoint.Captured? && Observed(p) in d.journal
    ensures Inv(d', t') && t <= t' && d'.checkpoint.Captured?
    ensures alive ==> Verdict(p, true) in d'.journal && d'.proofs == d.proofs[p.of.member := p]
  {
    var pass := InJournal(p, d.journal) && RecordTermination(d.proofs, p, d.captured).Some?;
    alive, d', t' := AppendToJournal(d, t, [Verdict(p, pass)]);
    if !alive || !pass { return false, d', t'; }
    ghost var before := t';
    ProofKeepsGood(d', p);
    alive, d', t' := Save(d', t', d'.(proofs := d'.proofs[p.of.member := p]));
    PrefixOn(t, before, t');
  }

  /** New generation, then new workers; from whichever checkpoint was reached. */
  method BringUp(d: RunState, t: Trace) returns (alive: bool, d': RunState, t': Trace)
    requires Inv(d, t) && 2 <= Rank(d.checkpoint) <= 6
    ensures Inv(d', t') && t <= t' && (alive ==> 4 <= Rank(d'.checkpoint) <= 6)
  {
    d', t' := d, t;
    if d'.checkpoint.Terminated? {
      alive, t' := Call(d', t', PatchedGeneration(d'.newGeneration));
      if !alive { return; }
      alive, d', t' := Save(d', t', d'.(checkpoint := GenerationPatched));
      if !alive { return; }
    }
    if d'.checkpoint.GenerationPatched? {
      alive, t' := StartMembers(d', t');
      if !alive { return; }
      alive, d', t' := Save(d', t', d'.(checkpoint := Started));
      if !alive { return; }
    }
    alive := true;
  }

  method StartMembers(d: RunState, t: Trace) returns (alive: bool, t': Trace)
    requires Inv(d, t) && d.checkpoint.GenerationPatched?
    ensures Inv(d, t') && t <= t'
  {
    t' := t;
    for n := 0 to |MEMBERS|
      invariant Inv(d, t') && t <= t'
    {
      alive, t' := Call(d, t', StartedMember(MEMBERS[n]));
      if !alive { return; }
    }
    alive := true;
  }

  /** One permit for the new Pods, on disk before it is published. */
  method IssuePermit(d: RunState, t: Trace) returns (alive: bool, d': RunState, t': Trace)
    requires Inv(d, t) && 4 <= Rank(d.checkpoint) <= 6
    ensures Inv(d', t') && t <= t' && (alive ==> d'.checkpoint.PermitPublished?)
  {
    d', t' := d, t;
    if d'.checkpoint.Started? {
      var permit: Permit := *;
      if !GoodPermit(permit, d') { return false, d', t'; }
      alive, d', t' := Save(d', t', d'.(checkpoint := PermitReady, permit := Some(permit)));
      if !alive { return; }
    } else if d'.checkpoint.PermitReady? {
      var podsUnchanged: bool := *;
      if !podsUnchanged { return false, d', t'; }
    }
    if d'.checkpoint.PermitReady? {
      alive, t' := Call(d', t', PublishedPermit(d'.permit.value));
      if !alive { return; }
      alive, d', t' := Save(d', t', d'.(checkpoint := PermitPublished));
      if !alive { return; }
    }
    alive := true;
  }

  /** Collects the body of the accept call and writes it down before the first call. */
  method CollectEvidence(d: RunState, t: Trace) returns (alive: bool, d': RunState, t': Trace)
    requires Inv(d, t) && d.checkpoint.PermitPublished?
    ensures Inv(d', t') && t <= t' && (alive ==> d'.checkpoint.EvidenceReady?)
  {
    var arrived: bool, e: Evidence := *, *;
    if !arrived { return false, d, t; }
    if e.terminations != None && e.terminations != Some(d.proofs) { return false, d, t; }
    if e.newGeneration != d.newGeneration || e.runId != d.runId { return false, d, t; }
    if e.identities != d.permit.value.members { return false, d, t; }
    var body := e.(terminations := Some(d.proofs));
    BodyKeepsGood(d, body);
    alive, d', t' := Save(d, t, d.(checkpoint := EvidenceReady, evidence := Some(body)));
  }

  /** Calls accept with the stored body, however often it takes; only an accepted reply ends the run. */
  method Finish(d: RunState, t: Trace) returns (alive: bool, d': RunState, t': Trace)
    requires Inv(d, t) && d.checkpoint.EvidenceReady?
    ensures Inv(d', t') && t <= t' && (alive ==> d'.checkpoint.Accepted?)
    ensures alive ==> AcceptedReply(d.evidence.value) in t'
  {
    d', t' := d, t;
    var accepted: bool := *;
    alive, t' := Call(d, t', CalledAccept(d.evidence.value));
    if !alive || !accepted { return false, d', t'; }
    ghost var before := t';
    alive, t' := Call(d, t', AcceptedReply(d.evidence.value));
    PrefixOn(t, before, t');
    if !alive { return; }
    before := t';
    assert before[|before| - 1].AcceptedReply?;
    alive, d', t' := RecordAcceptance(d, t');
    PrefixOn(t, before, t');
    StillThere(before, t', AcceptedReply(d.evidence.value));
  }

  /** The accepted world becomes the deployed one, then the run is over. */
  method RecordAcceptance(d: RunState, t: Trace) returns (alive: bool, d': RunState, t': Trace)
    requires Inv(d, t) && d.checkpoint.EvidenceReady? && HasReply(t)
    ensures Inv(d', t') && t <= t' && (alive ==> d'.checkpoint.Accepted?)
  {
    d' := d;
    alive, t' := Call(d, t, PersistedWorld(d.permit.value));
    if !alive { return; }
    ghost var before := t';
    HasReplyLasts(t, before);
    CheckpointKeepsGood(d, Accepted);
    alive, d', t' := Save(d, t', d.(checkpoint := Accepted));
    PrefixOn(t, before, t');
  }

  lemma HasReplyLasts(t: Trace, t': Trace)
    requires HasReply(t) && t <= t'
    ensures HasReply(t')
  {
    var a :| 0 <= a < |t| && t[a].AcceptedReply?;
    assert t'[a] == t[a];
  }

  /** From the capture, or from what an earlier life left, to four proofs on disk. */
  method Terminate(d: RunState, t: Trace) returns (alive: bool, d': RunState, t': Trace)
    requires Inv(d, t) && Rank(d.checkpoint) <= 6
    ensures Inv(d', t') && t <= t' && (alive ==> 2 <= Rank(d'.checkpoint) <= 6)
  {
    if d.checkpoint.Created? {
      alive, d', t' := Capture(d, t);
    } else {
      alive, d', t' := RestoreProofs(d, t);
    }
    if alive && d'.checkpoint.Captured? {
      ghost var before := t';
      alive, d', t' := StopAndObserve(d', t');
      PrefixOn(t, before, t');
    }
  }

  /** From four proofs to the accept body on disk. */
  method Prepare(d: RunState, t: Trace) returns (alive: bool, d': RunState, t': Trace)
    requires Inv(d, t) && 2 <= Rank(d.checkpoint) <= 6
    ensures Inv(d', t') && t <= t' && (alive ==> d'.checkpoint.EvidenceReady?)
  {
    alive, d', t' := BringUp(d, t);
    if !alive { return; }
    ghost var before := t';
    alive, d', t' := IssuePermit(d', t');
    PrefixOn(t, before, t');
    if !alive { return; }
    before := t';
    alive, d', t' := CollectEvidence(d', t');
    PrefixOn(t, before, t');
  }

  lemma PrefixOn(a: Trace, b: Trace, c: Trace)
    requires a <= b <= c
    ensures a <= c
  {
  }

  /** One life of the controller, from the run file as it finds it. */
  method RestartOnce(d: RunState, t: Trace) returns (done: bool, d': RunState, t': Trace)
    requires Inv(d, t)
    ensures Inv(d', t') && t <= t' && (done ==> d'.checkpoint.Accepted?)
  {
    d', t' := d, t;
    if d'.checkpoint.Accepted? { return true, d', t'; }
    if !d'.checkpoint.EvidenceReady? {
      var alive;
      alive, d', t' := Terminate(d', t');
      if !alive { return false, d', t'; }
      ghost var before := t';
      alive, d', t' := Prepare(d', t');
      PrefixOn(t, before, t');
      if !alive { return false, d', t'; }
    }
    ghost var before := t';
    done, d', t' := Finish(d', t');
    PrefixOn(t, before, t');
  }

  /** All lives of one run, from the creation of its file. */
  method RestartUntilDone(runId: string, oldGeneration: string, newGeneration: string, lives: nat)
    returns (done: bool, d: RunState, t: Trace)
    ensures Inv(d, t) && (done ==> d.checkpoint.Accepted?)
    ensures d.runId == runId && d.oldGeneration == oldGeneration && d.newGeneration == newGeneration
  {
    d := RunState(runId, oldGeneration, newGeneration, Created, map[], [], map[], None, None);
    t := [Saved(d)];
    done := false;
    ghost var first := d;
    for n := 0 to lives
      invariant Inv(d, t) && Saved(first) in t
      invariant done ==> d.checkpoint.Accepted?
    {
      ghost var before := t;
      done, d, t := RestartOnce(d, t);
      StillThere(before, t, Saved(first));
      if done { break; }
    }
    assert Fits(Saved(first), d);
  }

  lemma StillThere(t: Trace, t': Trace, e: Event)
    requires t <= t' && e in t
    ensures e in t'
  {
  }

  // What the invariant means for a run.

  /** No generation patch or scale-up before four proofs on disk bind the captured processes. */
  lemma NothingStartsBeforeFourProofs(d: RunState, t: Trace, p: nat)
    requires Inv(d, t) && p < |t| && (t[p].PatchedGeneration? || t[p].StartedMember? || t[p].PersistedWorld?)
    ensures exists a :: 0 <= a < p && t[a].Saved? && Four(t[a].state.proofs)
              && WellCaptured(t[a].state.captured, d.oldGeneration) && AllBind(t[a].state.proofs, t[a].state.captured)
              && t[a].state.captured == d.captured
  {
    assert BackedAt(t, p);
    var a :| 0 <= a < p && t[a].Saved? && Good(t[a].state) && Backed(t[p], t[a].state);
    assert Fits(t[a], d);
  }

  /** Every permit sent anywhere is the one on disk when it was first sent, and they are all the same. */
  lemma OnePermit(d: RunState, t: Trace, p: nat, q: nat)
    requires Inv(d, t) && p < |t| && q < |t|
    requires (t[p].PublishedPermit? || t[p].PersistedWorld?) && (t[q].PublishedPermit? || t[q].PersistedWorld?)
    ensures t[p].permit == t[q].permit
    ensures exists a :: 0 <= a < p && t[a].Saved? && t[a].state.permit == Some(t[p].permit)
              && GoodPermit(t[p].permit, t[a].state)
  {
    assert Fits(t[p], d) && Fits(t[q], d);
    assert BackedAt(t, p);
  }

  /** Every accept call carries the same body, stored before the first one; it names the captured processes. */
  lemma OneAcceptBody(d: RunState, t: Trace, p: nat, q: nat)
    requires Inv(d, t) && p < |t| && q < |t| && t[p].CalledAccept? && t[q].CalledAccept?
    ensures t[p].body == t[q].body
    ensures exists a :: 0 <= a < p && t[a].Saved? && t[a].state.evidence == Some(t[p].body)
              && GoodBody(t[p].body, t[a].state)
              && AllBind(t[a].state.proofs, t[a].state.captured) && t[a].state.captured == d.captured
  {
    assert Fits(t[p], d) && Fits(t[q], d);
    assert BackedAt(t, p);
    var a :| 0 <= a < p && t[a].Saved? && Good(t[a].state) && Backed(t[p], t[a].state);
    assert Fits(t[a], d);
  }

  /** Whatever the controller sends carries four termination records that pass the joint check. */
  lemma EveryAcceptBodyIsValid(d: RunState, t: Trace, p: nat)
    requires Inv(d, t) && p < |t| && t[p].CalledAccept?
    ensures t[p].body.terminations.Some? && Four(t[p].body.terminations.value)
            && ValidRecords(Records(t[p].body.terminations.value), d.oldGeneration, {P0, P1, D0, D1})
  {
    assert Fits(t[p], d);
    AcceptBodyIsValid(d);
  }

  /** The deployed world is upgraded, and the run reported accepted, only after the Gateway accepted the stored body. */
  lemma EndsAfterAcceptance(d: RunState, t: Trace, p: nat)
    requires Inv(d, t) && p < |t| && IsEnd(t[p])
    ensures d.evidence.Some?
    ensures exists a, b :: 0 <= a < b < p && t[a] == CalledAccept(d.evidence.value)
              && t[b] == AcceptedReply(d.evidence.value)
  {
    var b :| 0 <= b < p && t[b].AcceptedReply?;
    assert Fits(t[b], d);
    var a :| 0 <= a < b && t[a] == CalledAccept(t[b].body);
  }

  /** The four termination records of a stored body pass the checks made of a whole set of them. */
  lemma AcceptBodyIsValid(d: RunState)
    requires Good(d) && d.evidence.Some?
    ensures d.evidence.value.terminations == Some(d.proofs) && Four(d.proofs)
            && ValidRecords(Records(d.proofs), d.oldGeneration, {P0, P1, D0, D1})
  {
    FourAreValid(d.proofs, d.captured, d.journal, d.oldGeneration);
  }

  lemma ProcessesAreDistinct(w: World, generation: string)
    requires WellCaptured(w, generation)
    ensures forall i, k :: 0 <= i < k < 4 ==>
              InOrder(w)[i].podUid != InOrder(w)[k].podUid && InOrder(w)[i].containerId != InOrder(w)[k].containerId
    ensures (set i | 0 <= i < 4 :: InOrder(w)[i].member) == {P0, P1, D0, D1}
  {
    var captured := InOrder(w);
    forall i, k | 0 <= i < k < 4
      ensures captured[i].podUid != captured[k].podUid && captured[i].containerId != captured[k].containerId
    {
      assert MEMBERS[i] != MEMBERS[k];
    }
    assert captured[0].member == P0 && captured[1].member == P1 && captured[2].member == D0 && captured[3].member == D1;
  }

  lemma OneIsGood(proofs: Proofs, w: World, j: Journal, generation: string, m: Member)
    requires WellCaptured(w, generation) && AllBind(proofs, w) && AllObserved(proofs, j, w) && m in proofs
    ensures Linked(proofs[m], j, w[m]) && GoodValues(proofs[m], generation)
  {
    assert Observed(proofs[m]) in j;
    LinkedIsGood(proofs[m], j, w[m], generation);
  }

  lemma FourAreValid(proofs: Proofs, w: World, j: Journal, generation: string)
    requires WellCaptured(w, generation) && AllBind(proofs, w) && AllObserved(proofs, j, w) && Four(proofs)
    ensures ValidRecords(Records(proofs), generation, {P0, P1, D0, D1})
  {
    var ps, xs := InOrder(proofs), InOrder(w);
    forall i | 0 <= i < 4 ensures Linked(ps[i], j, xs[i]) && GoodValues(ps[i], generation) {
      OneIsGood(proofs, w, j, generation, MEMBERS[i]);
    }
    ProcessesAreDistinct(w, generation);
    FourWatchesAccepted(ps, xs, j, generation, {P0, P1, D0, D1});
  }

  lemma LinkedIsGood(p: Proof, j: Journal, x: Identity, generation: string)
    requires Linked(p, j, x) && ValidRecord(Seal(p), None) && x.topologyGeneration == generation
    ensures GoodValues(p, generation)
  {
    assert ValidRecord(Seal(p), Some(generation));
    WatchProofAcceptedIff(p, j, x, generation);
  }

  /** Four proofs that bind a well captured world are of four different Pods and containers. */
  lemma FourProofsAreDistinct(proofs: Proofs, w: World, generation: string)
    requires WellCaptured(w, generation) && AllBind(proofs, w) && Four(proofs)
    ensures forall m: Member, n: Member :: m != n ==>
              && m in proofs && n in proofs
              && proofs[m].of.podUid != proofs[n].of.podUid && proofs[m].of.containerId != proofs[n].of.containerId
  {
  }
}
