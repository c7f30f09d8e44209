// What the memory pool promises about its blocks, as relations on values: which block an
// allocation may hand out, and where every block is between operations.

module PoolSpec {

  // `size` knows every block ever created; `free` is keyed by payload size.
  datatype Pool<!B> = Pool(free: map<nat, seq<B>>, size: map<B, nat>, inUse: set<B>)

  function Bucket<B>(p: Pool<B>, n: nat): seq<B> {
    if n in p.free then p.free[n] else []
  }

  predicate BucketFits<B>(p: Pool<B>, n: nat, bucket: seq<B>) {
    && bucket != []
    && forall x | x in bucket :: x in p.size && p.size[x] == n && x !in p.inUse && multiset(bucket)[x] == 1
  }

  // Every block is in use, or is listed exactly once, in the bucket of its own size; no bucket is empty.
  predicate WellFormed<B>(p: Pool<B>) {
    && p.inUse <= p.size.Keys
    && (forall n | n in p.free :: BucketFits(p, n, p.free[n]))
    && (forall x | x in p.size && x !in p.inUse :: p.size[x] in p.free && x in p.free[p.size[x]])
  }

  function Without<B>(p: Pool<B>, n: nat): map<nat, seq<B>> {
    p.free - {n}
  }

  // `bucket` is what is left of bucket `n` (nothing is stored for an empty one).
  predicate BucketBecomes<B>(p: Pool<B>, p': Pool<B>, n: nat, bucket: multiset<B>) {
    && Without(p', n) == Without(p, n)
    && multiset(Bucket(p', n)) == bucket
    && (n in p'.free <==> |bucket| > 0)
  }

  // `allocate(n)`: the scan tried the bucket in order, `tried` recording which claims went through.
  // The first success is handed out; a block is created only if every candidate was refused.
  predicate Allocates<B>(p: Pool<B>, n: nat, tried: seq<bool>, b: B, p': Pool<B>) {
    var bucket := Bucket(p, n);
    && |tried| <= |bucket|
    && p'.inUse == p.inUse + {b}
    && (forall i | 0 <= i < |tried| - 1 :: !tried[i])
    && if tried != [] && tried[|tried| - 1] then
         b == bucket[|tried| - 1] && p'.size == p.size && BucketBecomes(p, p', n, multiset(bucket) - multiset{b})
       else
         |tried| == |bucket| && b !in p.size && p'.size == p.size[b := n] && p'.free == p.free
  }

  // `free(b)`: a block not in use is left alone, so a second free is harmless.
  predicate Frees<B>(p: Pool<B>, b: B, p': Pool<B>) {
    b in p.size &&
    if b in p.inUse then
      p'.size == p.size && p'.inUse == p.inUse - {b} &&
      BucketBecomes(p, p', p.size[b], multiset(Bucket(p, p.size[b])) + multiset{b})
    else p' == p
  }

  lemma InBucket<B>(s: seq<B>, x: B)
    ensures x in s <==> multiset(s)[x] > 0
  {
    if x in s {
      assert x in multiset(s);
    }
  }

  lemma AllocatesKeepsBuckets<B>(p: Pool<B>, n: nat, tried: seq<bool>, b: B, p': Pool<B>)
    requires WellFormed(p) && Allocates(p, n, tried, b, p')
    ensures forall m | m in p'.free :: BucketFits(p', m, p'.free[m])
  {
    var bucket, bucket' := Bucket(p, n), Bucket(p', n);
    forall m | m in p'.free
      ensures BucketFits(p', m, p'.free[m])
    {
      if m != n {
        assert m in Without(p', n) && Without(p', n)[m] == p'.free[m];
        assert BucketFits(p, m, p.free[m]);
      } else {
        forall x | x in p'.free[n]
          ensures x in p'.size && p'.size[x] == n && x !in p'.inUse && multiset(p'.free[n])[x] == 1
        {
          InBucket(bucket', x);
          InBucket(bucket, x);
        }
      }
    }
  }

  lemma AllocatesKeepsWellFormed<B>(p: Pool<B>, n: nat, tried: seq<bool>, b: B, p': Pool<B>)
    requires WellFormed(p) && Allocates(p, n, tried, b, p')
    ensures WellFormed(p')
    ensures b !in p.inUse && p'.size[b] == n
  {
    var bucket, bucket' := Bucket(p, n), Bucket(p', n);
    AllocatesKeepsBuckets(p, n, tried, b, p');
    forall x | x in p'.size && x !in p'.inUse
      ensures p'.size[x] in p'.free && x in p'.free[p'.size[x]]
    {
      assert x in p.size && x !in p.inUse && p.size[x] == p'.size[x];
      if p.size[x] != n {
        assert p.size[x] in Without(p, n) && Without(p', n)[p.size[x]] == p'.free[p.size[x]];
      } else {
        InBucket(bucket, x);
        InBucket(bucket', x);
      }
    }
  }

  lemma FreesKeepsWellFormed<B>(p: Pool<B>, b: B, p': Pool<B>)
    requires WellFormed(p) && Frees(p, b, p')
    ensures WellFormed(p')
  {
    if b in p.inUse {
      var n := p.size[b];
      var bucket, bucket' := Bucket(p, n), Bucket(p', n);
      forall m | m in p'.free
        ensures BucketFits(p', m, p'.free[m])
      {
        if m != n {
          assert m in Without(p', n) && Without(p', n)[m] == p'.free[m];
          assert BucketFits(p, m, p.free[m]);
        } else {
          forall x | x in p'.free[n]
            ensures x in p'.size && p'.size[x] == n && x !in p'.inUse && multiset(p'.free[n])[x] == 1
          {
            InBucket(bucket', x);
            InBucket(bucket, x);
          }
        }
      }
      forall x | x in p'.size && x !in p'.inUse
        ensures p'.size[x] in p'.free && x in p'.free[p'.size[x]]
      {
        if p.size[x] != n {
          assert p.size[x] in Without(p, n) && Without(p', n)[p.size[x]] == p'.free[p.size[x]];
        } else {
          InBucket(bucket, x);
          InBucket(bucket', x);
        }
      }
    }
  }

  // ---- Whole runs of a pool ----

  datatype Op<B> = Allocate(n: nat, tried: seq<bool>, b: B) | Free(b: B)

  predicate Performs<B>(p: Pool<B>, op: Op<B>, p': Pool<B>) {
    match op
    case Allocate(n, tried, b) => Allocates(p, n, tried, b, p')
    case Free(b) => Frees(p, b, p')
  }

  predicate IsRun<B>(states: seq<Pool<B>>, ops: seq<Op<B>>) {
    && |states| == |ops| + 1
    && states[0] == Pool(map[], map[], {})
    && forall i | 0 <= i < |ops| :: Performs(states[i], ops[i], states[i + 1])
  }

  lemma {:induction false} RunKeepsWellFormed<B>(states: seq<Pool<B>>, ops: seq<Op<B>>, i: nat)
    requires IsRun(states, ops) && i < |states|
    ensures WellFormed(states[i])
  {
    if i > 0 {
      RunKeepsWellFormed(states, ops, i - 1);
      match ops[i - 1]
      case Allocate(n, tried, b) => AllocatesKeepsWellFormed(states[i - 1], n, tried, b, states[i]);
      case Free(b) => FreesKeepsWellFormed(states[i - 1], b, states[i]);
    }
  }

  // A block handed out stays in use until it is freed.
  lemma {:induction false} InUseUntilFreed<B>(states: seq<Pool<B>>, ops: seq<Op<B>>, i: nat, j: nat, b: B)
    requires IsRun(states, ops) && i <= j < |states| && b in states[i].inUse
    requires forall k | i <= k < j :: ops[k] != Free(b)
    ensures b in states[j].inUse
  {
    if i < j {
      InUseUntilFreed(states, ops, i, j - 1, b);
      assert Performs(states[j - 1], ops[j - 1], states[j]);
    }
  }

  // No block is handed to two live buffers: between two allocations of it, it was freed.
  lemma NeverHandedOutTwice<B>(states: seq<Pool<B>>, ops: seq<Op<B>>, i: nat, j: nat)
    requires IsRun(states, ops) && i < j < |ops| && ops[i].Allocate? && ops[j].Allocate? && ops[i].b == ops[j].b
    ensures exists k | i < k < j :: ops[k] == Free(ops[i].b)
  {
    var b := ops[i].b;
    assert Performs(states[i], ops[i], states[i + 1]) && Performs(states[j], ops[j], states[j + 1]);
    if forall k | i < k < j :: ops[k] != Free(b) {
      InUseUntilFreed(states, ops, i + 1, j, b);
      RunKeepsWellFormed(states, ops, j);
      AllocatesKeepsWellFormed(states[j], ops[j].n, ops[j].tried, b, states[j + 1]);
      assert false;
    }
  }

  // Each free is made on behalf of one earlier allocation of the same block, and no allocation is
  // freed twice: what releasing every buffer's deleter exactly once amounts to.
  ghost predicate PairsReleases<B>(ops: seq<Op<B>>, releases: map<nat, nat>) {
    && (forall k | 0 <= k < |ops| && ops[k].Free? ::
          k in releases && releases[k] < k && ops[releases[k]].Allocate? && ops[releases[k]].b == ops[k].b)
    && (forall j, k | j in releases && k in releases && releases[j] == releases[k] :: j == k)
  }

  // Then no late free ever hits a block another buffer already owns: a free always ends the last
  // allocation of its block, which nothing has freed in between.
  lemma {:induction false} EveryFreeEndsItsOwnAllocation<B>(states: seq<Pool<B>>, ops: seq<Op<B>>, releases: map<nat, nat>, k: nat)
    requires IsRun(states, ops) && PairsReleases(ops, releases) && k < |ops| && ops[k].Free?
    ensures forall m | releases[k] < m < k :: ops[m].b != ops[k].b
    ensures ops[k].b in states[k].inUse
  {
    var b, i := ops[k].b, releases[k];
    if exists m | i < m < k :: ops[m].b == b {
      var m := FirstUse(ops, b, i + 1, k);
      if ops[m].Allocate? {
        NeverHandedOutTwice(states, ops, i, m);
      } else {
        EveryFreeEndsItsOwnAllocation(states, ops, releases, m);
      }
      assert false;
    }
    assert Performs(states[i], ops[i], states[i + 1]);
    InUseUntilFreed(states, ops, i + 1, k, b);
  }

  // An allocation that was not freed still stands: nothing happened to its block since.
  lemma UnfreedStands<B>(states: seq<Pool<B>>, ops: seq<Op<B>>, releases: map<nat, nat>, i: nat)
    requires IsRun(states, ops) && PairsReleases(ops, releases) && i < |ops| && ops[i].Allocate?
    requires forall k | k in releases :: releases[k] != i
    ensures forall m | i < m < |ops| :: ops[m].b != ops[i].b
    ensures ops[i].b in states[|ops|].inUse
  {
    var b := ops[i].b;
    if exists m | i < m < |ops| :: ops[m].b == b {
      var m := FirstUse(ops, b, i + 1, |ops|);
      if ops[m].Allocate? {
        NeverHandedOutTwice(states, ops, i, m);
      } else {
        EveryFreeEndsItsOwnAllocation(states, ops, releases, m);
      }
      assert false;
    }
    assert Performs(states[i], ops[i], states[i + 1]);
    InUseUntilFreed(states, ops, i + 1, |ops|, b);
  }

  // If every allocation was freed, nothing is in use.
  lemma {:induction false} AllFreed<B>(states: seq<Pool<B>>, ops: seq<Op<B>>, b: B)
    requires IsRun(states, ops)
    requires forall i | 0 <= i < |ops| && ops[i].Allocate? && ops[i].b == b :: exists k | i < k < |ops| :: ops[k] == Free(b)
    ensures b !in states[|ops|].inUse
  {
    if b in states[|ops|].inUse {
      var i := LastUse(states, ops, b, |ops|);
      assert false;
    }
  }

  // The allocation that put `b` in use, after which nothing freed it.
  lemma {:induction false} LastUse<B>(states: seq<Pool<B>>, ops: seq<Op<B>>, b: B, j: nat) returns (i: nat)
    requires IsRun(states, ops) && j <= |ops| && b in states[j].inUse
    ensures i < j && ops[i].Allocate? && ops[i].b == b && forall k | i < k < j :: ops[k] != Free(b)
  {
    assert Performs(states[j - 1], ops[j - 1], states[j]);
    if ops[j - 1].Allocate? && ops[j - 1].b == b {
      i := j - 1;
    } else {
      assert b in states[j - 1].inUse && ops[j - 1] != Free(b);
      i := LastUse(states, ops, b, j - 1);
    }
  }

  lemma FirstUse<B>(ops: seq<Op<B>>, b: B, first: nat, end: nat) returns (m: nat)
    requires end <= |ops| && exists x | first <= x < end :: ops[x].b == b
    ensures first <= m < end && ops[m].b == b && forall x | first <= x < m :: ops[x].b != b
  {
    m := first;
    while ops[m].b != b
      invariant first <= m < end && forall x | first <= x < m :: ops[x].b != b
      decreases end - m
    {
      m := m + 1;
    }
  }

  // ---- How far a pool grows ----

  function BlocksOf<B>(p: Pool<B>, n: nat): set<B> {
    set x | x in p.size && p.size[x] == n
  }

  function InUseOf<B>(p: Pool<B>, n: nat): set<B> {
    set x | x in p.inUse && x in p.size && p.size[x] == n
  }

  function Refused(tried: seq<bool>): nat {
    if tried == [] then 0 else Refused(tried[..|tried| - 1]) + (if tried[|tried| - 1] then 0 else 1)
  }

  // After an allocation of size `n`: blocks of that size in use, plus free ones that scan could not claim.
  function Demand<B>(p': Pool<B>, op: Op<B>, n: nat): nat {
    if op.Allocate? && op.n == n then |InUseOf(p', n)| + Refused(op.tried) else 0
  }

  function Peak<B>(states: seq<Pool<B>>, ops: seq<Op<B>>, n: nat): nat
    requires |states| == |ops| + 1
  {
    if ops == [] then 0
    else
      var before, now := Peak(states[..|ops|], ops[..|ops| - 1], n), Demand(states[|ops|], ops[|ops| - 1], n);
      if now > before then now else before
  }

  lemma {:induction false} DistinctCount<B>(s: seq<B>)
    requires forall x | x in s :: multiset(s)[x] == 1
    ensures |set x | x in s| == |s|
  {
    if s != [] {
      var init, last := s[..|s| - 1], s[|s| - 1];
      assert s == init + [last];
      forall x | x in init ensures multiset(init)[x] == 1 && x != last {
        InBucket(init, x);
        assert multiset(s)[x] == multiset(init)[x] + multiset{last}[x];
      }
      DistinctCount(init);
      assert (set x | x in s) == (set x | x in init) + {last};
    } else {
      assert (set x | x in s) == {};
    }
  }

  // Every block of size `n` is in use or in bucket `n`.
  lemma BlocksAreUsedOrListed<B>(p: Pool<B>, n: nat)
    requires WellFormed(p)
    ensures |BlocksOf(p, n)| == |InUseOf(p, n)| + |Bucket(p, n)|
  {
    var listed := set x | x in Bucket(p, n);
    if n in p.free {
      assert BucketFits(p, n, p.free[n]);
    }
    DistinctCount(Bucket(p, n));
    assert BlocksOf(p, n) == InUseOf(p, n) + listed;
    assert InUseOf(p, n) !! listed;
  }

  lemma {:induction false} RefusedAll(tried: seq<bool>)
    requires forall i | 0 <= i < |tried| - 1 :: !tried[i]
    ensures Refused(tried) == if tried != [] && tried[|tried| - 1] then |tried| - 1 else |tried|
  {
    if |tried| > 1 {
      RefusedAll(tried[..|tried| - 1]);
    }
  }

  lemma OneMoreInUse<B>(p: Pool<B>, n: nat, tried: seq<bool>, b: B, p': Pool<B>)
    requires WellFormed(p) && Allocates(p, n, tried, b, p')
    ensures |InUseOf(p', n)| == |InUseOf(p, n)| + 1
  {
    AllocatesKeepsWellFormed(p, n, tried, b, p');
    assert InUseOf(p', n) == InUseOf(p, n) + {b};
    assert b !in InUseOf(p, n);
  }

  lemma AllocationGrowsToDemand<B>(p: Pool<B>, n: nat, tried: seq<bool>, b: B, p': Pool<B>)
    requires WellFormed(p) && Allocates(p, n, tried, b, p')
    ensures
      var demand := |InUseOf(p', n)| + Refused(tried);
      if p'.size == p.size then |BlocksOf(p', n)| == |BlocksOf(p, n)| >= demand
      else |BlocksOf(p', n)| == |BlocksOf(p, n)| + 1 == demand
  {
    OneMoreInUse(p, n, tried, b, p');
    BlocksAreUsedOrListed(p, n);
    RefusedAll(tried);
    if p'.size != p.size {
      assert BlocksOf(p', n) == BlocksOf(p, n) + {b};
    }
  }

  lemma OtherSizesStay<B>(p: Pool<B>, n: nat, tried: seq<bool>, b: B, p': Pool<B>, m: nat)
    requires WellFormed(p) && Allocates(p, n, tried, b, p') && m != n
    ensures BlocksOf(p', m) == BlocksOf(p, m)
  {
  }

  // For each size, the pool owns exactly as many blocks as the greatest demand any allocation met:
  // it never creates a block it could have avoided, and never drops one.
  lemma {:induction false} GrowthIsPeakDemand<B>(states: seq<Pool<B>>, ops: seq<Op<B>>, n: nat)
    requires IsRun(states, ops)
    ensures |BlocksOf(states[|ops|], n)| == Peak(states, ops, n)
    decreases |ops|
  {
    if ops != [] {
      var k := |ops| - 1;
      assert IsRun(states[..|ops|], ops[..k]);
      GrowthIsPeakDemand(states[..|ops|], ops[..k], n);
      RunKeepsWellFormed(states, ops, k);
      assert Performs(states[k], ops[k], states[k + 1]);
      match ops[k]
      case Allocate(m, tried, b) =>
        if m == n {
          AllocationGrowsToDemand(states[k], m, tried, b, states[k + 1]);
        } else {
          OtherSizesStay(states[k], m, tried, b, states[k + 1], n);
        }
      case Free(b) =>
        assert states[k + 1].size == states[k].size;
    }
  }

  // The most blocks of size `n` ever in use at once.
  function PeakUse<B>(states: seq<Pool<B>>, n: nat): nat {
    if states == [] then 0
    else
      var before, now := PeakUse(states[..|states| - 1], n), |InUseOf(states[|states| - 1], n)|;
      if now > before then now else before
  }

  predicate Uncontended<B>(ops: seq<Op<B>>, n: nat) {
    forall i | 0 <= i < |ops| && ops[i].Allocate? && ops[i].n == n :: forall k | 0 <= k < |ops[i].tried| :: ops[i].tried[k]
  }

  lemma OtherUseStays<B>(p: Pool<B>, op: Op<B>, p': Pool<B>, n: nat)
    requires WellFormed(p) && Performs(p, op, p') && !(op.Allocate? && op.n == n)
    ensures |InUseOf(p', n)| <= |InUseOf(p, n)|
  {
    if op.Allocate? {
      assert InUseOf(p', n) <= InUseOf(p, n) by {
        AllocatesKeepsWellFormed(p, op.n, op.tried, op.b, p');
      }
    }
    Fewer(InUseOf(p', n), InUseOf(p, n));
  }

  lemma Fewer<B>(a: set<B>, b: set<B>)
    requires a <= b
    ensures |a| <= |b|
  {
    assert a + (b - a) == b;
  }

  // One more operation raises demand and use to the same level.
  lemma RisesAlike<B>(p: Pool<B>, op: Op<B>, p': Pool<B>, n: nat, before: nat)
    requires WellFormed(p) && Performs(p, op, p') && |InUseOf(p, n)| <= before
    requires op.Allocate? && op.n == n ==> Refused(op.tried) == 0
    ensures Demand(p', op, n) > before || |InUseOf(p', n)| > before ==> Demand(p', op, n) == |InUseOf(p', n)|
  {
    if !(op.Allocate? && op.n == n) {
      OtherUseStays(p, op, p', n);
    }
  }

  lemma NothingRefused<B>(p: Pool<B>, op: Op<B>, p': Pool<B>)
    requires Performs(p, op, p') && op.Allocate? && forall k | 0 <= k < |op.tried| :: op.tried[k]
    ensures Refused(op.tried) == 0
  {
    RefusedAll(op.tried);
  }

  lemma {:induction false} UncontendedPeak<B>(states: seq<Pool<B>>, ops: seq<Op<B>>, n: nat)
    requires IsRun(states, ops) && Uncontended(ops, n)
    ensures Peak(states, ops, n) == PeakUse(states, n)
    decreases |ops|
  {
    if ops != [] {
      var k := |ops| - 1;
      assert IsRun(states[..|ops|], ops[..k]);
      UncontendedPeak(states[..|ops|], ops[..k], n);
      RunKeepsWellFormed(states, ops, k);
      assert Performs(states[k], ops[k], states[k + 1]);
      if ops[k].Allocate? && ops[k].n == n {
        NothingRefused(states[k], ops[k], states[k + 1]);
      }
      RisesAlike(states[k], ops[k], states[k + 1], n, PeakUse(states[..|ops|], n));
    } else {
      assert PeakUse(states[..0], n) == 0 && InUseOf(states[0], n) == {};
    }
  }

  // With nothing published or leased, the pool owns exactly as many blocks as were ever in use at once.
  lemma UncontendedGrowthIsPeakUse<B>(states: seq<Pool<B>>, ops: seq<Op<B>>, n: nat)
    requires IsRun(states, ops) && Uncontended(ops, n)
    ensures |BlocksOf(states[|ops|], n)| == PeakUse(states, n)
  {
    GrowthIsPeakDemand(states, ops, n);
    UncontendedPeak(states, ops, n);
  }
}
