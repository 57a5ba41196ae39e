/**
 First start of a world. Any number of initializers race on one ConfigMap with
 JSON Patch documents whose `test` operations make them compare-and-swap. A
 patch that was sent may be applied at any later time, any number of times, so
 replies carry no weight; initializers may crash anywhere and keep only their
 run file.
 */
module Initialize {
  import opened Wrappers

  datatype Identity = Identity(run: string, permit: string, generation: string)

  datatype InitState = Uninitialized | Initializing(id: Identity) | Accepted(id: Identity)

  datatype Permit = Permit(permitId: string, generation: string, members: map<string, string>)

  datatype ConfigMap = ConfigMap(uid: string, version: nat, state: InitState, permit: Option<Permit>)

  // JSON Patch (RFC 6902) on the parts of the ConfigMap that matter here.

  datatype Path = UidPath | VersionPath | StatePath | PermitPath

  /** Canonical text, one constructor per kind of content. */
  datatype Value =
    | UidText(uid: string) | VersionText(version: nat) | StateText(state: InitState) | PermitText(permit: Permit)

  datatype Op = Test(path: Path, value: Value) | Add(path: Path, value: Value) | Replace(path: Path, value: Value)

  type Document = map<Path, Value>

  /** `test` and `replace` need the target to exist (sections 4.6 and 4.3); `add` sets it (section 4.1). */
  function ApplyOp(doc: Document, op: Op): Option<Document> {
    match op
    case Test(path, value) => if path in doc && doc[path] == value then Some(doc) else None
    case Add(path, value) => Some(doc[path := value])
    case Replace(path, value) => if path in doc then Some(doc[path := value]) else None
  }

  /** Operations in order; one failure fails the whole patch (section 5). */
  function ApplyPatch(doc: Document, ops: seq<Op>): Option<Document>
    decreases |ops|
  {
    if ops == [] then Some(doc)
    else
      match ApplyOp(doc, ops[0])
      case None => None
      case Some(next) => ApplyPatch(next, ops[1..])
  }

  function DocumentOf(cm: ConfigMap): Document {
    var base := map[UidPath := UidText(cm.uid), VersionPath := VersionText(cm.version),
                    StatePath := StateText(cm.state)];
    if cm.permit.None? then base else base[PermitPath := PermitText(cm.permit.value)]
  }

  /** What the server stores after a patch: the document under a new version. */
  function Stored(cm: ConfigMap, doc: Document): ConfigMap {
    ConfigMap(
      cm.uid,
      cm.version + 1,
      if StatePath in doc && doc[StatePath].StateText? then doc[StatePath].state else cm.state,
      if PermitPath in doc && doc[PermitPath].PermitText? then Some(doc[PermitPath].permit) else None)
  }

  function Server(cm: ConfigMap, ops: seq<Op>): ConfigMap {
    match ApplyPatch(DocumentOf(cm), ops)
    case None => cm
    case Some(doc) => Stored(cm, doc)
  }

  // The three patches an initializer sends.

  datatype Change = Claim(id: Identity) | Publish(permit: Permit) | Accept(id: Identity)

  datatype Patch = Patch(base: ConfigMap, change: Change)

  function Guarded(base: ConfigMap, ops: seq<Op>): seq<Op> {
    [Test(UidPath, UidText(base.uid)), Test(VersionPath, VersionText(base.version)),
     Test(StatePath, StateText(base.state))] + ops
  }

  function OpsOf(p: Patch): seq<Op> {
    Guarded(p.base,
      match p.change
      case Claim(id) => [Replace(StatePath, StateText(Initializing(id)))]
      case Publish(permit) => [Add(PermitPath, PermitText(permit))]
      case Accept(id) =>
        (if p.base.permit.None? then [] else [Test(PermitPath, PermitText(p.base.permit.value))])
        + [Replace(StatePath, StateText(Accepted(id)))])
  }

  /** What a patch means: it changes the version it was computed from and no other. */
  function Effect(cm: ConfigMap, p: Patch): ConfigMap {
    if cm.uid != p.base.uid || cm.version != p.base.version || cm.state != p.base.state then cm
    else
      match p.change
      case Claim(id) => ConfigMap(cm.uid, cm.version + 1, Initializing(id), cm.permit)
      case Publish(permit) => ConfigMap(cm.uid, cm.version + 1, cm.state, Some(permit))
      case Accept(id) =>
        if p.base.permit.Some? && cm.permit != p.base.permit then cm
        else ConfigMap(cm.uid, cm.version + 1, Accepted(id), cm.permit)
  }

  lemma PatchFrom(doc: Document, op: Op, rest: seq<Op>)
    ensures ApplyPatch(doc, [op] + rest)
            == match ApplyOp(doc, op) { case None => None case Some(next) => ApplyPatch(next, rest) }
  {
    assert ([op] + rest)[1..] == rest;
  }

  lemma GuardsHoldOrFail(cm: ConfigMap, base: ConfigMap, ops: seq<Op>)
    ensures ApplyPatch(DocumentOf(cm), Guarded(base, ops))
            == if cm.uid == base.uid && cm.version == base.version && cm.state == base.state
               then ApplyPatch(DocumentOf(cm), ops) else None
  {
    var doc := DocumentOf(cm);
    var t1, t2 := Test(UidPath, UidText(base.uid)), Test(VersionPath, VersionText(base.version));
    var t3 := Test(StatePath, StateText(base.state));
    assert Guarded(base, ops) == [t1] + ([t2] + ([t3] + ops));
    PatchFrom(doc, t1, [t2] + ([t3] + ops));
    PatchFrom(doc, t2, [t3] + ops);
    PatchFrom(doc, t3, ops);
  }

  /** The patch document, applied operation by operation, does exactly its effect. */
  lemma PatchMeans(cm: ConfigMap, p: Patch)
    ensures Server(cm, OpsOf(p)) == Effect(cm, p)
  {
    var doc := DocumentOf(cm);
    match p.change
    case Claim(id) => GuardsHoldOrFail(cm, p.base, [Replace(StatePath, StateText(Initializing(id)))]);
    case Publish(permit) => GuardsHoldOrFail(cm, p.base, [Add(PermitPath, PermitText(permit))]);
    case Accept(id) =>
      var change := Replace(StatePath, StateText(Accepted(id)));
      var tests := if p.base.permit.None? then [] else [Test(PermitPath, PermitText(p.base.permit.value))];
      GuardsHoldOrFail(cm, p.base, tests + [change]);
      if p.base.permit.None? {
        assert tests + [change] == [change];
      } else {
        PatchFrom(doc, tests[0], [change]);
        assert tests + [change] == [tests[0]] + [change];
      }
  }

  // One initializer.

  datatype Phase = Created | Claimed | PermitReady | PhaseAccepted

  /** The run file: survives crashes. */
  datatype RunFile = RunFile(id: Identity, uid: Option<string>, phase: Phase, permit: Option<Permit>)

  datatype Local =
    | Idle
    | Claiming(base: ConfigMap)
    | ClaimSent(base: ConfigMap)
    | Working(base: ConfigMap)
    | Publishing(base: ConfigMap, permit: Permit)
    | PublishSent(base: ConfigMap, permit: Permit)
    | Ready(uid: string, permit: Permit)
    | Accepting(base: ConfigMap, permit: Permit)
    | AcceptSent(base: ConfigMap, permit: Permit)
    | Succeeded
    | Failed

  predicate Bound(permit: Permit, id: Identity) { permit.permitId == id.permit && permit.generation == id.generation }

  /** A permit found in the ConfigMap: of this identity, and the one this run stored if it stored one. */
  predicate OwnPermit(permit: Option<Permit>, file: RunFile) {
    permit.Some? && Bound(permit.value, file.id) && (file.permit.None? || file.permit == permit)
  }

  datatype Node = Node(file: RunFile, at: Local)

  /** First read after a start or restart, and where it leads. */
  function Begin(n: Node, cm: ConfigMap): Node {
    if n.file.uid.Some? && n.file.uid.value != cm.uid then Node(n.file, Failed)
    else
      var file := n.file.(uid := Some(cm.uid));
      if file.phase.PhaseAccepted? && !cm.state.Accepted? then Node(file, Failed)
      else
        match cm.state
        case Uninitialized =>
          if !file.phase.Created? || cm.permit.Some? then Node(file, Failed) else Node(file, Claiming(cm))
        case Initializing(id) => if id == file.id then Node(file, Working(cm)) else Node(file, Failed)
        case Accepted(id) =>
          if id != file.id || !OwnPermit(cm.permit, file) then Node(file, Failed)
          else Node(file.(phase := PhaseAccepted, permit := cm.permit), Succeeded)
  }

  /** The workers are up with these Pod UIDs: build the permit, or check the one already there. */
  function Observe(n: Node, members: map<string, string>): Node
    requires n.at.Working?
  {
    var sn := n.at.base;
    if sn.permit.None? then
      var permit := Permit(n.file.id.permit, n.file.id.generation, members);
      Node(n.file.(phase := PermitReady, permit := Some(permit)), Publishing(sn, permit))
    else if !OwnPermit(sn.permit, n.file) then Node(n.file, Failed)
    else
      var file := n.file.(phase := PermitReady, permit := sn.permit);
      if sn.permit.value.members != members then Node(file, Failed) else Node(file, Ready(sn.uid, sn.permit.value))
  }

  /** Every wait passed; the last read before acceptance. */
  function Confirm(n: Node, ok: bool, cm: ConfigMap): Node
    requires n.at.Ready?
  {
    if ok && cm.uid == n.at.uid && cm.state == Initializing(n.file.id) && cm.permit == Some(n.at.permit)
    then Node(n.file, Accepting(cm, n.at.permit)) else Node(n.file, Failed)
  }

  /** Read back after a patch was sent, whatever its reply said. */
  function ReadBack(n: Node, cm: ConfigMap): Node {
    match n.at
    case ClaimSent(base) =>
      if cm.uid == base.uid && cm.state == Initializing(n.file.id) && cm.permit.None?
      then Node(n.file.(phase := Claimed), Working(cm)) else Node(n.file, Failed)
    case PublishSent(base, permit) =>
      if cm.uid == base.uid && cm.state == base.state && cm.permit == Some(permit)
      then Node(n.file, Ready(cm.uid, permit)) else Node(n.file, Failed)
    case AcceptSent(base, permit) =>
      if cm.uid == base.uid && cm.state == Accepted(n.file.id) && cm.permit == Some(permit)
      then Node(n.file.(phase := PhaseAccepted), Succeeded) else Node(n.file, Failed)
    case _ => n
  }

  /** The patch an initializer is about to send, and where it waits afterwards. */
  function Outgoing(n: Node): Option<(Patch, Local)> {
    match n.at
    case Claiming(base) => Some((Patch(base, Claim(n.file.id)), ClaimSent(base)))
    case Publishing(base, permit) => Some((Patch(base, Publish(permit)), PublishSent(base, permit)))
    case Accepting(base, permit) => Some((Patch(base, Accept(n.file.id)), AcceptSent(base, permit)))
    case _ => None
  }

  // All of them together.

  /** `log` holds every version of the ConfigMap, the current one last. */
  datatype World = World(nodes: seq<Node>, sent: set<Patch>, log: seq<ConfigMap>)

  datatype Step =
    | Start(i: nat)
    | SendPatch(i: nat)
    | ReadAgain(i: nat)
    | PodsSeen(i: nat, members: map<string, string>)
    | WaitsOver(i: nat, ok: bool)
    | Crash(i: nat)
    | Deliver(p: Patch)
    | Touch

  function Now(w: World): ConfigMap
    requires w.log != []
  {
    w.log[|w.log| - 1]
  }

  function Put(w: World, i: nat, n: Node): World
    requires i < |w.nodes|
  {
    w.(nodes := w.nodes[i := n])
  }

  function NodeStep(n: Node, s: Step, cm: ConfigMap): Node {
    match s
    case Start(_) => if n.at.Idle? || n.at.Failed? || n.at.Succeeded? then Begin(n, cm) else n
    case ReadAgain(_) => ReadBack(n, cm)
    case PodsSeen(_, members) => if n.at.Working? then Observe(n, members) else n
    case WaitsOver(_, ok) => if n.at.Ready? then Confirm(n, ok, cm) else n
    case Crash(_) => Node(n.file, Idle)
    case _ => n
  }

  function Apply(w: World, s: Step): World
    requires w.log != []
  {
    match s
    case Deliver(p) =>
      if p !in w.sent then w
      else
        var cm := Server(Now(w), OpsOf(p));
        if cm == Now(w) then w else w.(log := w.log + [cm])
    case Touch => w.(log := w.log + [Now(w).(version := Now(w).version + 1)])
    case SendPatch(i) =>
      if i >= |w.nodes| || Outgoing(w.nodes[i]).None? then w
      else
        var (p, next) := Outgoing(w.nodes[i]).value;
        Put(w, i, Node(w.nodes[i].file, next)).(sent := w.sent + {p})
    case _ => if s.i >= |w.nodes| then w else Put(w, s.i, NodeStep(w.nodes[s.i], s, Now(w)))
  }

  function Run(w: World, steps: seq<Step>): (r: World)
    requires w.log != []
    ensures r.log != []
  {
    if steps == [] then w else Apply(Run(w, steps[..|steps| - 1]), steps[|steps| - 1])
  }

  // What every run keeps.

  /** Later versions keep the identity, the permit and the progress of earlier ones. */
  predicate Leads(a: ConfigMap, b: ConfigMap) {
    && a.uid == b.uid && a.version <= b.version
    && (a.version == b.version ==> a == b)
    && (a.state.Initializing? ==> b.state == a.state || b.state == Accepted(a.state.id))
    && (a.state.Accepted? ==> b.state == a.state)
    && (a.permit.Some? ==> b.permit == a.permit)
  }

  /** What one new version may be: untouched, claimed, given its bound permit, or accepted under that permit. */
  predicate LegalStep(a: ConfigMap, b: ConfigMap) {
    && b.uid == a.uid && b.version == a.version + 1
    && (|| (b.state == a.state && b.permit == a.permit)
        || (a.state.Uninitialized? && b.state.Initializing? && a.permit.None? && b.permit.None?)
        || (a.state.Initializing? && b.state == a.state
            && a.permit.None? && b.permit.Some? && Bound(b.permit.value, a.state.id))
        || (a.state.Initializing? && b.state == Accepted(a.state.id) && a.permit.Some? && b.permit == a.permit))
  }

  /** Each version is one legal step from the one before it. */
  ghost predicate AllLegal(log: seq<ConfigMap>) {
    forall j, k :: 0 <= j && k == j + 1 && k < |log| ==> LegalStep(log[j], log[k])
  }

  /** A permit is there only under its own identity, and always once accepted. */
  predicate Sound(cm: ConfigMap) {
    match cm.state
    case Uninitialized => cm.permit.None?
    case Initializing(id) => cm.permit.Some? ==> Bound(cm.permit.value, id)
    case Accepted(id) => cm.permit.Some? && Bound(cm.permit.value, id)
  }

  /** A patch computed from a version that existed, for a change that version allows. */
  predicate GoodPatch(p: Patch, cm: ConfigMap) {
    && Leads(p.base, cm)
    && match p.change {
         case Claim(id) => p.base.state.Uninitialized? && p.base.permit.None?
         case Publish(permit) => p.base.state.Initializing? && p.base.permit.None? && Bound(permit, p.base.state.id)
         case Accept(id) => p.base.state == Initializing(id) && p.base.permit.Some?
       }
  }

  predicate GoodNode(n: Node, cm: ConfigMap) {
    && (n.file.phase.PhaseAccepted? || n.at.Succeeded? ==> cm.state == Accepted(n.file.id))
    && match n.at {
         case Claiming(base) => Leads(base, cm) && base.state.Uninitialized? && base.permit.None?
         case Working(base) => Leads(base, cm) && base.state == Initializing(n.file.id)
         case Publishing(base, permit) =>
           Leads(base, cm) && base.state == Initializing(n.file.id) && base.permit.None? && Bound(permit, n.file.id)
         case Accepting(base, permit) =>
           Leads(base, cm) && base.state == Initializing(n.file.id) && base.permit == Some(permit)
         case _ => true
       }
  }

  ghost predicate Inv(w: World) {
    && w.log != [] && Sound(Now(w)) && AllLegal(w.log)
    && (forall k :: 0 <= k < |w.log| ==> Leads(w.log[k], Now(w)))
    && (forall a, b :: 0 <= a <= b < |w.log| ==> Leads(w.log[a], w.log[b]))
    && (forall p :: p in w.sent ==> GoodPatch(p, Now(w)))
    && (forall i :: 0 <= i < |w.nodes| ==> GoodNode(w.nodes[i], Now(w)))
  }

  lemma LeadsOn(a: ConfigMap, b: ConfigMap, c: ConfigMap)
    requires Leads(a, b) && Leads(b, c)
    ensures Leads(a, c)
  {
  }

  /** A patch that applies moves the ConfigMap one legal step forward; any other changes nothing. */
  lemma DeliveryLeads(cm: ConfigMap, p: Patch)
    requires Sound(cm) && GoodPatch(p, cm)
    ensures var next := Server(cm, OpsOf(p));
            Sound(next) && (next == cm || (LegalStep(cm, next) && Leads(cm, next)))
  {
    PatchMeans(cm, p);
  }

  lemma NewVersionKeeps(w: World, cm: ConfigMap)
    requires Inv(w) && Sound(cm) && LegalStep(Now(w), cm) && Leads(Now(w), cm)
    ensures Inv(w.(log := w.log + [cm]))
  {
    var w' := w.(log := w.log + [cm]);
    assert AllLegal(w'.log);
    forall k | 0 <= k < |w'.log| ensures Leads(w'.log[k], cm) {
      if k < |w.log| { LeadsOn(w.log[k], Now(w), cm); }
    }
    forall p | p in w.sent ensures GoodPatch(p, cm) { LeadsOn(p.base, Now(w), cm); }
    forall i | 0 <= i < |w.nodes| ensures GoodNode(w.nodes[i], cm) { GoodNodeLasts(w.nodes[i], Now(w), cm); }
  }

  lemma GoodNodeLasts(n: Node, cm: ConfigMap, cm': ConfigMap)
    requires GoodNode(n, cm) && Leads(cm, cm')
    ensures GoodNode(n, cm')
  {
    match n.at
    case Claiming(base) => LeadsOn(base, cm, cm');
    case Working(base) => LeadsOn(base, cm, cm');
    case Publishing(base, permit) => LeadsOn(base, cm, cm');
    case Accepting(base, permit) => LeadsOn(base, cm, cm');
    case _ =>
  }

  lemma NodeStepKeeps(n: Node, s: Step, cm: ConfigMap)
    requires Sound(cm) && GoodNode(n, cm)
    ensures GoodNode(NodeStep(n, s, cm), cm)
  {
  }

  lemma StepKeeps(w: World, s: Step)
    requires Inv(w)
    ensures Inv(Apply(w, s))
  {
    match s
    case Deliver(p) =>
      if p in w.sent {
        DeliveryLeads(Now(w), p);
        var cm := Server(Now(w), OpsOf(p));
        if cm != Now(w) { NewVersionKeeps(w, cm); }
      }
    case Touch => NewVersionKeeps(w, Now(w).(version := Now(w).version + 1));
    case SendPatch(i) =>
    case _ => if s.i < |w.nodes| { NodeStepKeeps(w.nodes[s.i], s, Now(w)); }
  }

  /** Before anything happened: any sound ConfigMap and fresh run files. */
  ghost predicate Initial(w: World) {
    && |w.log| == 1 && Sound(w.log[0]) && w.sent == {}
    && forall i :: 0 <= i < |w.nodes| ==>
         w.nodes[i].at.Idle? && w.nodes[i].file.phase.Created? && w.nodes[i].file.permit.None?
  }

  lemma {:induction false} EveryRunKeepsInv(w: World, steps: seq<Step>)
    requires Initial(w)
    ensures Inv(Run(w, steps))
  {
    if steps != [] {
      EveryRunKeepsInv(w, steps[..|steps| - 1]);
      StepKeeps(Run(w, steps[..|steps| - 1]), steps[|steps| - 1]);
    }
  }

  /**
   Over every interleaving, lost reply, late or repeated patch and crash: each
   version of the ConfigMap is one legal step from the one before, so it moves
   from uninitialized over initializing to accepted with one identity and one
   permit, and whoever reports success owns the accepted identity and its permit.
   */
  lemma OneIdentityForever(w: World, steps: seq<Step>)
    requires Initial(w)
    ensures var r := Run(w, steps);
            && AllLegal(r.log)
            && (forall a, b :: 0 <= a <= b < |r.log| ==> Leads(r.log[a], r.log[b]))
            && (forall i :: 0 <= i < |r.nodes| && r.nodes[i].at.Succeeded? ==>
                  && Now(r).state == Accepted(r.nodes[i].file.id)
                  && Now(r).permit.Some? && Bound(Now(r).permit.value, r.nodes[i].file.id))
            && (forall i, j :: 0 <= i < j < |r.nodes| && r.nodes[i].at.Succeeded? && r.nodes[j].at.Succeeded? ==>
                  r.nodes[i].file.id == r.nodes[j].file.id)
  {
    EveryRunKeepsInv(w, steps);
    var r := Run(w, steps);
    assert forall i :: 0 <= i < |r.nodes| ==> GoodNode(r.nodes[i], Now(r));
  }
}
