/**
 Routing to the longest cached prefix. Decisions come from one block count
 only: the greatest for which any fresh, current, permitted candidate exists.
 */
module Router {
  import opened Wrappers
  import opened Fingerprint
  import opened PrefixIndex

  datatype Link = Link(gbps: real, overheadMs: real)

  /** A missing link makes the transfer infinitely slow. */
  datatype Gain = NegativeInfinity | Finite(ms: real)

  predicate Exceeds(g: Gain, margin: real) { g.Finite? && g.ms > margin }

  predicate AtLeast(a: Gain, b: Gain) { b.NegativeInfinity? || (a.Finite? && a.ms >= b.ms) }

  datatype Decision = Decision(
    source: Owner, target: string, blocks: nat, prefixTokens: nat, transferBytes: nat, gain: Gain)

  /** What a caller may pin; pinning anything waives the safety margin. */
  datatype Required = Required(source: Option<string>, target: Option<string>, blocks: Option<int>) {
    predicate Forced() { source.Some? || target.Some? || blocks.Some? }

    predicate Allows(from: string, to: string, b: int) {
      && (source.None? || source.value == from)
      && (target.None? || target.value == to)
      && (blocks.None? || blocks.value == b)
    }
  }

  datatype Costs = Costs(links: map<(string, string), Link>, blockBytes: nat, margin: real,
                         fullPrefillMs: real, perTokenMs: real)
  {
    function TransferBytes(from: string, to: string, blocks: nat): nat {
      if to == from then 0 else blocks * blockBytes
    }

    function TransferMs(from: string, to: string, bytes: nat): Option<real> {
      if from == to then Some(0.0)
      else if (from, to) !in links || links[(from, to)].gbps <= 0.0 then None
      else
        var link := links[(from, to)];
        var bytesPerMs := link.gbps * 1_000_000_000.0 / 8.0 / 1000.0;
        Some(link.overheadMs + bytes as real / bytesPerMs)
    }

    function Decide(fp: PromptFingerprint, l: Location, to: string, blocks: nat): Decision {
      var prefix := blocks * fp.blockSize;
      var bytes := TransferBytes(l.owner.instance, to, blocks);
      var suffixMs := (|fp.tokens| - prefix) as real * perTokenMs;
      var gain :=
        match TransferMs(l.owner.instance, to, bytes)
        case None => NegativeInfinity
        case Some(ms) => Finite(fullPrefillMs - (ms + suffixMs));
      Decision(l.owner, to, blocks, prefix, bytes, gain)
    }
  }

  /** A candidate that may be returned: current, permitted, and worth it unless forced. */
  predicate Eligible(costs: Costs, fp: PromptFingerprint, current: Owner -> bool, required: Required,
                     l: Location, to: string, blocks: nat)
  {
    && current(l.owner)
    && required.Allows(l.owner.instance, to, blocks)
    && (required.Forced() || Exceeds(costs.Decide(fp, l, to, blocks).gain, costs.margin))
  }

  /** `d` is what some eligible candidate among `locations` and `targets` yields. */
  ghost predicate Offered(d: Decision, costs: Costs, fp: PromptFingerprint, current: Owner -> bool,
                          required: Required, locations: set<Location>, targets: seq<string>, blocks: nat)
  {
    exists l, to :: l in locations && to in targets
      && Eligible(costs, fp, current, required, l, to, blocks) && d == costs.Decide(fp, l, to, blocks)
  }

  /** One decision per eligible candidate, and no other. */
  ghost predicate Exactly(ds: seq<Decision>, costs: Costs, fp: PromptFingerprint, current: Owner -> bool,
                          required: Required, locations: set<Location>, targets: seq<string>, blocks: nat)
  {
    && |ds| == |Candidates(costs, fp, current, required, locations, targets, blocks)|
    && forall d :: d in ds <==> Offered(d, costs, fp, current, required, locations, targets, blocks)
  }

  /** The eligible candidates: a location with a position in the target list. */
  ghost function Candidates(costs: Costs, fp: PromptFingerprint, current: Owner -> bool, required: Required,
                            locations: set<Location>, targets: seq<string>, blocks: nat): set<(Location, int)>
  {
    set l, i | l in locations && 0 <= i < |targets|
               && Eligible(costs, fp, current, required, l, targets[i], blocks) :: (l, i)
  }

  lemma CandidatesNext(costs: Costs, fp: PromptFingerprint, current: Owner -> bool, required: Required,
                       l: Location, targets: seq<string>, to: string, blocks: nat)
    ensures |Candidates(costs, fp, current, required, {l}, targets + [to], blocks)|
            == |Candidates(costs, fp, current, required, {l}, targets, blocks)|
               + if Eligible(costs, fp, current, required, l, to, blocks) then 1 else 0
  {
    var before := Candidates(costs, fp, current, required, {l}, targets, blocks);
    var after := Candidates(costs, fp, current, required, {l}, targets + [to], blocks);
    var last := (l, |targets|);
    if Eligible(costs, fp, current, required, l, to, blocks) {
      assert after == before + {last} && last !in before;
    } else {
      assert after == before;
    }
  }

  lemma CandidatesUnion(costs: Costs, fp: PromptFingerprint, current: Owner -> bool, required: Required,
                        s: set<Location>, t: set<Location>, targets: seq<string>, blocks: nat)
    requires s !! t
    ensures |Candidates(costs, fp, current, required, s + t, targets, blocks)|
            == |Candidates(costs, fp, current, required, s, targets, blocks)|
               + |Candidates(costs, fp, current, required, t, targets, blocks)|
  {
    var a := Candidates(costs, fp, current, required, s, targets, blocks);
    var b := Candidates(costs, fp, current, required, t, targets, blocks);
    assert Candidates(costs, fp, current, required, s + t, targets, blocks) == a + b && a !! b;
  }

  ghost predicate Descending(ds: seq<Decision>) {
    forall i, j :: 0 <= i < j < |ds| ==> AtLeast(ds[i].gain, ds[j].gain)
  }

  function Insert(d: Decision, ds: seq<Decision>): seq<Decision> {
    if ds == [] || !AtLeast(ds[0].gain, d.gain) then [d] + ds else [ds[0]] + Insert(d, ds[1..])
  }

  /** Sorted by descending gain, equal gains in their first order. */
  function ByGain(ds: seq<Decision>): seq<Decision> {
    if ds == [] then [] else Insert(ds[|ds| - 1], ByGain(ds[..|ds| - 1]))
  }

  lemma {:induction false} InsertKeeps(d: Decision, ds: seq<Decision>)
    requires Descending(ds)
    ensures Descending(Insert(d, ds)) && multiset(Insert(d, ds)) == multiset(ds) + multiset{d}
  {
    if ds != [] && AtLeast(ds[0].gain, d.gain) {
      InsertKeeps(d, ds[1..]);
      var rest := Insert(d, ds[1..]);
      assert ds == [ds[0]] + ds[1..];
      forall j | 0 <= j < |rest| ensures AtLeast(ds[0].gain, rest[j].gain) {
        assert rest[j] in multiset(rest);
        assert rest[j] in ds[1..] || rest[j] == d;
      }
    }
  }

  /** The result holds the same decisions, each as often, in descending gain. */
  lemma {:induction false} ByGainSorts(ds: seq<Decision>)
    ensures Descending(ByGain(ds)) && multiset(ByGain(ds)) == multiset(ds)
  {
    if ds != [] {
      var n := |ds| - 1;
      ByGainSorts(ds[..n]);
      InsertKeeps(ds[n], ByGain(ds[..n]));
      assert ds == ds[..n] + [ds[n]];
    }
  }

  lemma SortedHasSame(ds: seq<Decision>)
    ensures Descending(ByGain(ds)) && |ByGain(ds)| == |ds|
    ensures forall d :: d in ByGain(ds) <==> d in ds
  {
    ByGainSorts(ds);
    assert |multiset(ByGain(ds))| == |multiset(ds)|;
    assert forall d :: d in ByGain(ds) <==> d in multiset(ByGain(ds));
  }

  class AffinityRouter {
    const index: Directory
    const costs: Costs

    constructor (index: Directory, costs: Costs)
      ensures this.index == index && this.costs == costs
    {
      this.index, this.costs := index, costs;
    }

    /** All decisions that one location offers, over every target. */
    method FromLocation(fp: PromptFingerprint, targets: seq<string>, current: Owner -> bool,
                        required: Required, l: Location, blocks: nat)
      returns (ds: seq<Decision>)
      ensures Exactly(ds, costs, fp, current, required, {l}, targets, blocks)
    {
      ds := [];
      if !current(l.owner) || (required.source.Some? && l.owner.instance != required.source.value) { return; }
      if required.blocks.Some? && blocks != required.blocks.value { return; }
      for i := 0 to |targets|
        invariant Exactly(ds, costs, fp, current, required, {l}, targets[..i], blocks)
      {
        ghost var before := ds;
        var d := costs.Decide(fp, l, targets[i], blocks);
        if (required.target.None? || targets[i] == required.target.value)
           && (required.Forced() || Exceeds(d.gain, costs.margin)) {
          ds := ds + [d];
        }
        assert targets[..i + 1] == targets[..i] + [targets[i]];
        assert forall x :: x in ds <==> x in before || (x == d && ds != before);
        OfferedByNext(ds, before, costs, fp, current, required, l, targets[..i], targets[i], blocks);
      }
      assert targets[..|targets|] == targets;
    }

    /** All decisions that a set of locations offers. */
    method FromLocations(fp: PromptFingerprint, targets: seq<string>, current: Owner -> bool,
                         required: Required, locations: set<Location>, blocks: nat)
      returns (ds: seq<Decision>)
      ensures Exactly(ds, costs, fp, current, required, locations, targets, blocks)
    {
      ds := [];
      var left := locations;
      while left != {}
        invariant left <= locations
        invariant Exactly(ds, costs, fp, current, required, locations - left, targets, blocks)
        decreases left
      {
        var l :| l in left;
        var more := FromLocation(fp, targets, current, required, l, blocks);
        ghost var seen := locations - left;
        OfferedByUnion(ds, more, costs, fp, current, required, seen, {l}, targets, blocks);
        left := left - {l};
        assert locations - left == seen + {l};
        ds := ds + more;
      }
      assert locations - left == locations;
    }

    /**
     The decisions of the greatest reusable length that offers any, in
     descending gain; none exactly when no length offers one.
     */
    method IterDecisions(fp: PromptFingerprint, targets: seq<string>, current: Owner -> bool,
                         required: Required, now: real)
      returns (ds: seq<Decision>, blocks: nat)
      requires fp.blockSize > 0
      ensures Descending(ds) && blocks <= fp.MaxReusableBlocks()
      ensures ds == [] <==> blocks == 0
      ensures blocks > 0 ==> Exactly(ds, costs, fp, current, required, index.Fresh(fp, blocks, now), targets, blocks)
      ensures forall b, d :: blocks < b <= fp.MaxReusableBlocks() ==>
                !Offered(d, costs, fp, current, required, index.Fresh(fp, b, now), targets, b)
    {
      var matches := index.IterMatches(fp, now);
      for n := 0 to |matches|
        invariant forall i, d :: 0 <= i < n ==>
                    !Offered(d, costs, fp, current, required, matches[i].1, targets, matches[i].0)
      {
        assert index.MatchAt(fp, now, matches[n]);
        blocks := matches[n].0;
        ds := FromLocations(fp, targets, current, required, matches[n].1, blocks);
        if ds != [] {
          assert ds[0] in ds;
          NoneAbove(matches, n, costs, fp, current, required, targets, index, now);
          SortedHasSame(ds);
          ds := ByGain(ds);
          return;
        }
      }
      NoneAbove(matches, |matches|, costs, fp, current, required, targets, index, now);
      ds, blocks := [], 0;
    }
  }

  /** Lengths above the `n`-th match offer nothing when the first `n` matches do not. */
  lemma NoneAbove(matches: seq<(nat, set<Location>)>, n: nat, costs: Costs, fp: PromptFingerprint,
                  current: Owner -> bool, required: Required, targets: seq<string>, index: Directory, now: real)
    requires fp.blockSize > 0 && n <= |matches|
    requires index.MatchesAbove(fp, now, matches, 0)
    requires forall i, d :: 0 <= i < n ==>
               !Offered(d, costs, fp, current, required, matches[i].1, targets, matches[i].0)
    ensures forall b, d :: (if n < |matches| then matches[n].0 else 0) < b <= fp.MaxReusableBlocks() ==>
              !Offered(d, costs, fp, current, required, index.Fresh(fp, b, now), targets, b)
  {
    forall b, d | (if n < |matches| then matches[n].0 else 0) < b <= fp.MaxReusableBlocks()
      ensures !Offered(d, costs, fp, current, required, index.Fresh(fp, b, now), targets, b)
    {
      if index.Fresh(fp, b, now) != {} {
        assert Listed(matches, b);
        var i :| 0 <= i < |matches| && matches[i].0 == b;
        assert i < n && index.MatchAt(fp, now, matches[i]);
        assert !Offered(d, costs, fp, current, required, matches[i].1, targets, matches[i].0);
      }
    }
  }

  lemma OfferedByNext(ds: seq<Decision>, before: seq<Decision>, costs: Costs, fp: PromptFingerprint,
                      current: Owner -> bool, required: Required, l: Location,
                      targets: seq<string>, to: string, blocks: nat)
    requires Exactly(before, costs, fp, current, required, {l}, targets, blocks)
    requires forall x :: x in ds <==>
               (x in before
                || (x == costs.Decide(fp, l, to, blocks) && Eligible(costs, fp, current, required, l, to, blocks)))
    requires |ds| == |before| + if Eligible(costs, fp, current, required, l, to, blocks) then 1 else 0
    ensures Exactly(ds, costs, fp, current, required, {l}, targets + [to], blocks)
  {
    CandidatesNext(costs, fp, current, required, l, targets, to, blocks);
    forall d ensures d in ds <==> Offered(d, costs, fp, current, required, {l}, targets + [to], blocks) {
      if d in before {
        var l', t :| l' in {l} && t in targets
          && Eligible(costs, fp, current, required, l', t, blocks) && d == costs.Decide(fp, l', t, blocks);
        assert t in targets + [to];
      }
      if Eligible(costs, fp, current, required, l, to, blocks) && d == costs.Decide(fp, l, to, blocks) {
        assert l in {l} && to in targets + [to];
      }
    }
  }

  lemma OfferedByUnion(a: seq<Decision>, b: seq<Decision>, costs: Costs, fp: PromptFingerprint,
                       current: Owner -> bool, required: Required, s: set<Location>, t: set<Location>,
                       targets: seq<string>, blocks: nat)
    requires Exactly(a, costs, fp, current, required, s, targets, blocks)
    requires Exactly(b, costs, fp, current, required, t, targets, blocks) && s !! t
    ensures Exactly(a + b, costs, fp, current, required, s + t, targets, blocks)
  {
    CandidatesUnion(costs, fp, current, required, s, t, targets, blocks);
    forall d ensures d in a + b <==> Offered(d, costs, fp, current, required, s + t, targets, blocks) {
      if d in a {
        var l, to :| l in s && to in targets
          && Eligible(costs, fp, current, required, l, to, blocks) && d == costs.Decide(fp, l, to, blocks);
        assert l in s + t;
      }
      if d in b {
        var l, to :| l in t && to in targets
          && Eligible(costs, fp, current, required, l, to, blocks) && d == costs.Decide(fp, l, to, blocks);
        assert l in s + t;
      }
    }
  }

  /**
   A matched length means the cached tokens are the prompt's own: whatever
   token sequence produced the matched hash agrees with the prompt on exactly
   the reused blocks, and a token is left to prefill.
   */
  lemma MatchIsThePromptsPrefix(step: HashStep, fp: PromptFingerprint, blocks: nat, cached: seq<int>, k: nat)
    requires CollisionFree(step, fp.blockSize) && fp.Valid(step) && 0 < blocks <= fp.MaxReusableBlocks()
    requires Offset(k, fp.blockSize) <= |cached|
    requires blocks <= |fp.chainHashes| && ChainHash(step, cached, fp.blockSize, k) == fp.chainHashes[blocks - 1]
    ensures k == blocks && blocks * fp.blockSize < |fp.tokens| && blocks * fp.blockSize <= |cached|
    ensures cached[..blocks * fp.blockSize] == fp.tokens[..blocks * fp.blockSize]
  {
    assert IsChainHash(step, fp.tokens, fp.blockSize, blocks - 1 + 1, fp.chainHashes[blocks - 1]);
    ChainHashIdentifiesPrefix(step, cached, fp.tokens, fp.blockSize, k, blocks);
    OffsetIsProduct(blocks, fp.blockSize);
    ReusableLeavesSuffix(step, fp);
    OffsetGrows(blocks, fp.MaxReusableBlocks(), fp.blockSize);
  }

  lemma {:induction false} OffsetGrows(a: nat, b: nat, blockSize: nat)
    requires a <= b
    ensures Offset(a, blockSize) <= Offset(b, blockSize)
  {
    if a < b { OffsetGrows(a, b - 1, blockSize); }
  }
}
