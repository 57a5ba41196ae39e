/**
 Routing over a directory that is being reconciled: from the events of the
 workers' logs to the tokens a decision reuses.
 */
module Affinity {
  import opened Fingerprint
  import opened PrefixIndex
  import opened Reconciler
  import opened Router

  function KeyOf(fp: PromptFingerprint, blocks: nat): Key
    requires 0 < blocks <= |fp.chainHashes|
  {
    Key(fp.namespace, fp.compatibility, fp.context, fp.chainHashes[blocks - 1])
  }

  /** What a worker's log, as far as the directory has followed it, leaves in its cache. */
  ghost function Followed(o: Owner, lastSeq: map<Owner, int>, logs: Logs): set<Location> {
    if o in lastSeq && 0 <= lastSeq[o] <= |LogOf(logs, o)| then Fold(LogOf(logs, o)[..lastSeq[o]]) else {}
  }

  /** The source's followed log shows the prompt's first blocks as cached. */
  ghost predicate Reported(d: Decision, fp: PromptFingerprint, lastSeq: map<Owner, int>, logs: Logs) {
    && 0 < d.blocks <= |fp.chainHashes|
    && exists l :: l in Followed(d.source, lastSeq, logs) && l.owner == d.source && l.key == KeyOf(fp, d.blocks)
  }

  /** The tokens behind a cached block, up to its end, and the number of blocks they fill. */
  type Cache = Location -> (seq<int>, nat)

  /** Workers announce a block under the chain hash of the tokens it holds. */
  ghost predicate Hashes(step: HashStep, logs: Logs, blockSize: nat, cache: Cache) {
    forall o, i :: o in logs && 0 <= i < |logs[o]| && logs[o][i].kind.HashAdded? ==>
      Hashed(step, logs[o][i].location, blockSize, cache)
  }

  ghost predicate Hashed(step: HashStep, l: Location, blockSize: nat, cache: Cache) {
    IsChainHash(step, cache(l).0, blockSize, cache(l).1, l.key.chainHash)
  }

  /** The source announced, and has not been seen to evict, a block whose tokens are the prompt's own. */
  ghost predicate ReusesPrompt(d: Decision, fp: PromptFingerprint, lastSeq: map<Owner, int>, logs: Logs, cache: Cache) {
    && d.prefixTokens < |fp.tokens|
    && exists l :: l in Followed(d.source, lastSeq, logs) && SameTokens(cache(l), d, fp)
  }

  ghost predicate SameTokens(held: (seq<int>, nat), d: Decision, fp: PromptFingerprint) {
    && held.1 == d.blocks && d.prefixTokens <= |held.0| && d.prefixTokens <= |fp.tokens|
    && held.0[..d.prefixTokens] == fp.tokens[..d.prefixTokens]
  }

  lemma {:induction false} CachedWasAdded(log: seq<Event>, l: Location) returns (i: nat)
    requires l in Fold(log)
    ensures i < |log| && log[i].kind.HashAdded? && log[i].location == l
  {
    var n := |log| - 1;
    if l in Fold(log[..n]) { i := CachedWasAdded(log[..n], l); } else { i := n; }
  }

  /** Whatever the directory shows for an owner, its followed log shows. */
  lemma ShownIsFollowed(contents: set<Location>, lastSeq: map<Owner, int>, logs: Logs, l: Location)
    requires Coherent(contents, lastSeq, logs) && l in contents
    ensures Bare(l) in Followed(l.owner, lastSeq, logs)
  {
    assert Bare(l) in View(contents, l.owner);
    assert l.owner in lastSeq && InStep(contents, l.owner, lastSeq[l.owner], logs);
  }

  lemma OfferedIsReported(d: Decision, index: Directory, lastSeq: map<Owner, int>, logs: Logs, costs: Costs,
                          fp: PromptFingerprint, current: Owner -> bool, required: Required, now: real,
                          targets: seq<string>, blocks: nat)
    requires index.Valid() && Coherent(index.Contents(), lastSeq, logs)
    requires fp.blockSize > 0 && 0 < blocks <= fp.MaxReusableBlocks() && blocks <= |fp.chainHashes|
    requires Offered(d, costs, fp, current, required, index.Fresh(fp, blocks, now), targets, blocks)
    ensures Reported(d, fp, lastSeq, logs) && d.blocks == blocks && d.prefixTokens == blocks * fp.blockSize
  {
    var l, to :| l in index.Fresh(fp, blocks, now) && to in targets
      && Eligible(costs, fp, current, required, l, to, blocks) && d == costs.Decide(fp, l, to, blocks);
    assert KeyOf(fp, blocks) in index.index && l in index.index[KeyOf(fp, blocks)];
    ShownIsFollowed(index.Contents(), lastSeq, logs, l);
    assert Bare(l).key == KeyOf(fp, blocks) && Bare(l).owner == d.source;
  }

  lemma ReportedIsThePrompts(d: Decision, fp: PromptFingerprint, lastSeq: map<Owner, int>, logs: Logs,
                             step: HashStep, cache: Cache)
    requires Reported(d, fp, lastSeq, logs) && d.prefixTokens == d.blocks * fp.blockSize
    requires fp.Valid(step) && d.blocks <= fp.MaxReusableBlocks()
    requires CollisionFree(step, fp.blockSize) && Hashes(step, logs, fp.blockSize, cache)
    ensures ReusesPrompt(d, fp, lastSeq, logs, cache)
  {
    var l :| l in Followed(d.source, lastSeq, logs) && l.owner == d.source && l.key == KeyOf(fp, d.blocks);
    var i := CachedWasAdded(LogOf(logs, d.source)[..lastSeq[d.source]], l);
    assert logs[d.source][i].location == l;
    assert Hashed(step, l, fp.blockSize, cache);
    MatchIsThePromptsPrefix(step, fp, d.blocks, cache(l).0, cache(l).1);
    assert SameTokens(cache(l), d, fp);
  }

  /**
   Routing after any amount of reconciliation by other tasks. Each decision
   names a worker whose log, up to the directory's cursor, has the prompt's first
   blocks in its cache; if workers hash what they cache, the tokens there are the
   prompt's own and at least one is left to prefill.
   */
  method RouteWhileReconciling(sync: PrefixReconciler, router: AffinityRouter, fp: PromptFingerprint,
                               targets: seq<string>, current: Owner -> bool, required: Required, now: real,
                               ghost step: HashStep, ghost cache: Cache)
    returns (ds: seq<Decision>)
    requires sync.Steady() && router.index == sync.index && fp.Valid(step)
    modifies sync, sync.index, sync.workers
    ensures sync.Steady() && Descending(ds)
    ensures forall d :: d in ds ==> Reported(d, fp, sync.index.lastSeq, sync.workers.logs)
    ensures CollisionFree(step, fp.blockSize) && Hashes(step, sync.workers.logs, fp.blockSize, cache) ==>
              forall d :: d in ds ==> ReusesPrompt(d, fp, sync.index.lastSeq, sync.workers.logs, cache)
  {
    sync.Await();
    var blocks;
    ds, blocks := router.IterDecisions(fp, targets, current, required, now);
    forall d | d in ds
      ensures Reported(d, fp, sync.index.lastSeq, sync.workers.logs)
      ensures CollisionFree(step, fp.blockSize) && Hashes(step, sync.workers.logs, fp.blockSize, cache) ==>
                ReusesPrompt(d, fp, sync.index.lastSeq, sync.workers.logs, cache)
    {
      OfferedIsReported(d, sync.index, sync.index.lastSeq, sync.workers.logs, router.costs, fp, current, required,
                        now, targets, blocks);
      if CollisionFree(step, fp.blockSize) && Hashes(step, sync.workers.logs, fp.blockSize, cache) {
        ReportedIsThePrompts(d, fp, sync.index.lastSeq, sync.workers.logs, step, cache);
      }
    }
  }
}
