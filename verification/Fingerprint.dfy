/**
 Chained block hashes of a prompt and how many of its blocks may be reused.
 The hash step is a parameter; `CollisionFree` is the assumption under which a
 chain hash identifies a token prefix.
 */
module Fingerprint {
  /** Seed of the chain: the first block is hashed without a predecessor. */
  const NO_PREVIOUS := -1

  type HashStep = (int, seq<int>) -> int

  /** On blocks of one length, the step never yields the seed and determines the predecessor and the block. */
  ghost predicate CollisionFree(step: HashStep, blockSize: nat) {
    && (forall p, b :: |b| == blockSize ==> step(p, b) != NO_PREVIOUS)
    && (forall p, b, p', b' :: |b| == |b'| == blockSize && step(p, b) == step(p', b') ==> p == p' && b == b')
  }

  /** What a step digests: the words of the block, after its predecessor if it has one. */
  function Layout(previous: int, block: seq<int>): seq<int> {
    if previous == NO_PREVIOUS then block else [previous] + block
  }

  /** A digest of word lists without collisions, used with this layout, meets the assumption. */
  lemma LayoutIsCollisionFree(digest: seq<int> -> int, blockSize: nat)
    requires forall x :: digest(x) != NO_PREVIOUS
    requires forall x, y :: digest(x) == digest(y) ==> x == y
    ensures CollisionFree((p, b) => digest(Layout(p, b)), blockSize)
  {
    forall p, b, p', b' | |b| == |b'| == blockSize && digest(Layout(p, b)) == digest(Layout(p', b'))
      ensures p == p' && b == b'
    {
      var x, y := Layout(p, b), Layout(p', b');
      assert x == y && |x| == |y|;
      if p != NO_PREVIOUS { assert x[0] == p && x[1..] == b && y[0] == p' && y[1..] == b'; }
    }
  }

  /** Over blocks of different lengths the layout is ambiguous, so no digest could meet it there. */
  lemma LengthsMustAgree()
    ensures Layout(NO_PREVIOUS, [5, 7]) == Layout(5, [7])
  {
  }

  /** Where block `k` starts: `k * blockSize`, see `OffsetIsProduct`. */
  function Offset(k: nat, blockSize: nat): nat {
    if k == 0 then 0 else Offset(k - 1, blockSize) + blockSize
  }

  lemma {:induction false} OffsetIsProduct(k: nat, blockSize: nat)
    ensures Offset(k, blockSize) == k * blockSize
  {
    if k > 0 {
      OffsetIsProduct(k - 1, blockSize);
      assert k * blockSize == (k - 1) * blockSize + blockSize;
    }
  }

  /** Division by the block size, from the block that contains position `n`. */
  lemma DivisionByBlocks(n: nat, blockSize: nat, k: nat)
    requires Offset(k, blockSize) <= n < Offset(k, blockSize) + blockSize
    ensures n / blockSize == k && n % blockSize == n - Offset(k, blockSize)
  {
    OffsetIsProduct(k, blockSize);
    QuotientIsUnique(n, blockSize, k, n - k * blockSize);
  }

  lemma MultiplesAreApart(d: int, b: int)
    requires b > 0
    ensures d >= 1 ==> d * b >= b
    ensures d <= -1 ==> d * b <= -b
  {
    if d >= 1 { assert d * b == (d - 1) * b + b; }
    if d <= -1 { assert d * b == (d + 1) * b - b; }
  }

  lemma QuotientIsUnique(n: int, b: int, k: int, r: int)
    requires 0 <= r < b && n == k * b + r
    ensures n / b == k && n % b == r
  {
    var q := n / b;
    assert n == q * b + n % b;
    assert (q - k) * b == q * b - k * b;
    MultiplesAreApart(q - k, b);
  }

  /** The hash after `k` complete blocks; `NO_PREVIOUS` for none. */
  function ChainHash(step: HashStep, tokens: seq<int>, blockSize: nat, k: nat): int
    requires Offset(k, blockSize) <= |tokens|
  {
    if k == 0 then NO_PREVIOUS
    else step(ChainHash(step, tokens, blockSize, k - 1), tokens[Offset(k - 1, blockSize)..Offset(k, blockSize)])
  }

  ghost predicate IsChainHash(step: HashStep, tokens: seq<int>, blockSize: nat, k: nat, hash: int) {
    Offset(k, blockSize) <= |tokens| && hash == ChainHash(step, tokens, blockSize, k)
  }

  /** Entry `k` is the hash after `k + 1` blocks. */
  ghost predicate Chained(step: HashStep, tokens: seq<int>, blockSize: nat, hashes: seq<int>) {
    forall k :: 0 <= k < |hashes| ==> IsChainHash(step, tokens, blockSize, k + 1, hashes[k])
  }

  lemma ChainedAppend(step: HashStep, tokens: seq<int>, blockSize: nat, hashes: seq<int>)
    requires Chained(step, tokens, blockSize, hashes) && Offset(|hashes| + 1, blockSize) <= |tokens|
    ensures Chained(step, tokens, blockSize, hashes + [ChainHash(step, tokens, blockSize, |hashes| + 1)])
  {
    var longer := hashes + [ChainHash(step, tokens, blockSize, |hashes| + 1)];
    forall k | 0 <= k < |longer| ensures IsChainHash(step, tokens, blockSize, k + 1, longer[k]) {
      if k < |hashes| { assert longer[k] == hashes[k]; }
    }
    assert Chained(step, tokens, blockSize, longer);
  }

  /** One hash per complete block, each chained to the one before. */
  method ComputeChainHashes(step: HashStep, tokens: seq<int>, blockSize: nat) returns (result: seq<int>)
    requires blockSize > 0
    ensures |result| == |tokens| / blockSize
    ensures Chained(step, tokens, blockSize, result)
  {
    result := [];
    var previous := NO_PREVIOUS;
    var start := 0;
    while start + blockSize <= |tokens|
      invariant start == Offset(|result|, blockSize) <= |tokens|
      invariant previous == ChainHash(step, tokens, blockSize, |result|)
      invariant Chained(step, tokens, blockSize, result)
      decreases |tokens| - start
    {
      var n := |result|;
      previous := step(previous, tokens[start..start + blockSize]);
      assert previous == ChainHash(step, tokens, blockSize, n + 1);
      ChainedAppend(step, tokens, blockSize, result);
      result := result + [previous];
      start := start + blockSize;
    }
    DivisionByBlocks(|tokens|, blockSize, |result|);
  }

  /** Under a collision-free step a chain hash determines its depth and every token below it. */
  lemma {:induction false} ChainHashIdentifiesPrefix(
    step: HashStep, a: seq<int>, b: seq<int>, blockSize: nat, i: nat, j: nat)
    requires CollisionFree(step, blockSize)
    requires Offset(i, blockSize) <= |a| && Offset(j, blockSize) <= |b|
    requires ChainHash(step, a, blockSize, i) == ChainHash(step, b, blockSize, j)
    ensures i == j && a[..Offset(i, blockSize)] == b[..Offset(j, blockSize)]
    decreases i
  {
    if i > 0 && j > 0 {
      var x, x' := Offset(i - 1, blockSize), Offset(i, blockSize);
      ChainHashIdentifiesPrefix(step, a, b, blockSize, i - 1, j - 1);
      assert a[..x'] == a[..x] + a[x..x'];
      assert b[..x'] == b[..x] + b[x..x'];
    }
  }

  /** Conversely, equal prefixes hash alike. */
  lemma {:induction false} PrefixDeterminesChainHash(
    step: HashStep, a: seq<int>, b: seq<int>, blockSize: nat, k: nat)
    requires Offset(k, blockSize) <= |a| && Offset(k, blockSize) <= |b|
    requires a[..Offset(k, blockSize)] == b[..Offset(k, blockSize)]
    ensures ChainHash(step, a, blockSize, k) == ChainHash(step, b, blockSize, k)
  {
    if k > 0 {
      var x, x' := Offset(k - 1, blockSize), Offset(k, blockSize);
      assert a[..x] == a[..x'][..x] && b[..x] == b[..x'][..x];
      assert a[x..x'] == a[..x'][x..] && b[x..x'] == b[..x'][x..];
      PrefixDeterminesChainHash(step, a, b, blockSize, k - 1);
    }
  }

  datatype PromptFingerprint = PromptFingerprint(
    namespace: string, compatibility: string, context: string,
    tokens: seq<int>, chainHashes: seq<int>, blockSize: nat)
  {
    ghost predicate Valid(step: HashStep) {
      && blockSize > 0
      && |chainHashes| == |tokens| / blockSize
      && Chained(step, tokens, blockSize, chainHashes)
    }

    /** Complete blocks, less the last one when it would leave no token to prefill. */
    function MaxReusableBlocks(): nat
      requires blockSize > 0
    {
      var complete := |tokens| / blockSize;
      var kept := if |tokens| % blockSize == 0 then 1 else 0;
      var limit := if |chainHashes| < complete - kept then |chainHashes| else complete - kept;
      if limit < 0 then 0 else limit
    }
  }

  /** Every position lies in some block. */
  lemma BlockOf(n: nat, blockSize: nat) returns (k: nat)
    requires blockSize > 0
    ensures Offset(k, blockSize) <= n < Offset(k, blockSize) + blockSize
  {
    k := 0;
    while Offset(k, blockSize) + blockSize <= n
      invariant Offset(k, blockSize) <= n
      decreases n - Offset(k, blockSize)
    {
      k := k + 1;
    }
  }

  /** Exactly (n - 1) div blockSize blocks are reusable, so a suffix token always remains. */
  lemma ReusableLeavesSuffix(step: HashStep, fp: PromptFingerprint)
    requires fp.Valid(step)
    ensures fp.MaxReusableBlocks() == if fp.tokens == [] then 0 else (|fp.tokens| - 1) / fp.blockSize
    ensures fp.tokens != [] ==> Offset(fp.MaxReusableBlocks(), fp.blockSize) < |fp.tokens|
    ensures fp.MaxReusableBlocks() <= |fp.chainHashes|
  {
    var n, b := |fp.tokens|, fp.blockSize;
    if n > 0 {
      var k := BlockOf(n - 1, b);
      DivisionByBlocks(n - 1, b, k);
      if n == Offset(k, b) + b { DivisionByBlocks(n, b, k + 1); } else { DivisionByBlocks(n, b, k); }
    } else {
      DivisionByBlocks(0, b, 0);
    }
  }
}
