// The publisher-side memory pool: size buckets, the claim loop with swap-removal, block creation,
// the idempotent free and the pointer lookup.

module MemoryPool {
  import opened Bytes
  import opened ControlWord
  import opened Grace
  import opened Outcome
  import opened SharedHeader
  import PoolSpec

  // What the operating system answers a mapping request with: a handle and a base address.
  datatype Platform = Denied | Granted(handle: int, base: U64)

  class Block {
    const nativeHandle: int
    const mapping: U64
    const mappedSize: U64
    const payloadSize: U64
    const blockId: U32
    const control: ControlHeader
    const payload: array<Byte>
    var currentUid: U64
    var inUse: bool

    constructor (nativeHandle: int, mapping: U64, mappedSize: U64, payloadSize: U64, blockId: U32)
      ensures this.nativeHandle == nativeHandle && this.mapping == mapping && this.mappedSize == mappedSize
      ensures this.payloadSize == payloadSize && this.blockId == blockId
      ensures fresh(control) && fresh(payload) && payload.Length == payloadSize
      ensures control.magic == CONTROL_MAGIC && control.abiVersion == CONTROL_ABI_VERSION && control.payloadSize == payloadSize
      ensures control.ipcUid == 0 && control.readerState == 0 && control.publishTimestampUs == 0 && control.pending == 0
      ensures currentUid == 0 && !inUse
    {
      this.nativeHandle, this.mapping, this.mappedSize := nativeHandle, mapping, mappedSize;
      this.payloadSize, this.blockId := payloadSize, blockId;
      control := new ControlHeader(payloadSize);
      payload := new Byte[payloadSize](_ => 0);
      currentUid, inUse := 0, false;
    }

    // The payload bytes in the publisher's address space.
    predicate Contains(address: nat) {
      mapping + PAYLOAD_OFFSET <= address < mapping + mappedSize
    }
  }

  // A block's layout and header, as `create_block` sets them for good.
  ghost predicate BlockFits(x: Block, controls: set<ControlHeader>) {
    && x.payloadSize > 0 && x.mappedSize == PAYLOAD_OFFSET + x.payloadSize && x.mapping + x.mappedSize <= U64_MAX
    && x.payload.Length == x.payloadSize && x.control in controls
    && x.control.magic == CONTROL_MAGIC && x.control.abiVersion == CONTROL_ABI_VERSION
    && x.control.payloadSize == x.payloadSize
  }

  // What an onlooker of a header knows of it.
  datatype Observed = Observed(pending: nat, stamp: U64, word: Word)

  ghost function Observe(c: ControlHeader): Observed
    reads c
  {
    Observed(c.pending, c.publishTimestampUs, c.readerState)
  }

  // Nobody holds it and its grace period is over.
  predicate Claimable(header: Observed, now: U64) {
    header.word == 0 && GraceElapsed(header.stamp, now)
  }

  // The verdict on a candidate whose header was quiet.
  predicate VerdictFits(ok: bool, header: Observed, now: U64) {
    header.pending == 0 ==> (ok <==> Claimable(header, now))
  }

  ghost function Headers(controls: set<ControlHeader>): (headers: map<ControlHeader, Observed>)
    reads controls
    ensures headers.Keys == controls
  {
    map c | c in controls :: Observe(c)
  }

  // Quiet headers stay quiet and keep their word, except that one may have been claimed from zero.
  ghost predicate QuietKept(headers: map<ControlHeader, Observed>, claimed: Option<ControlHeader>)
    reads headers.Keys
  {
    forall c: ControlHeader | c in headers && headers[c].pending == 0 ::
      c.pending == 0 && if claimed == Some(c) then headers[c].word == 0 else c.readerState == headers[c].word
  }

  lemma NewcomerClaimed(headers: map<ControlHeader, Observed>, c: ControlHeader)
    requires QuietKept(headers, None) && c !in headers
    ensures QuietKept(headers, Some(c))
  {
  }

  lemma HeaderListed(controls: set<ControlHeader>, c: ControlHeader)
    requires c in controls
    ensures Headers(controls)[c] == Observe(c)
  {
  }

  ghost predicate AllQuiet(controls: set<ControlHeader>)
    reads controls
  {
    forall c: ControlHeader | c in controls :: c.pending == 0
  }

  lemma QuietHeaders(controls: set<ControlHeader>)
    requires AllQuiet(controls)
    ensures forall c | c in Headers(controls) :: Headers(controls)[c].pending == 0
  {
  }

  lemma WordKept(headers: map<ControlHeader, Observed>, c: ControlHeader)
    requires QuietKept(headers, None) && c in headers && headers[c].pending == 0
    ensures c.pending == 0 && c.readerState == headers[c].word
  {
  }

  lemma QuietAtFirst(controls: set<ControlHeader>)
    ensures QuietKept(Headers(controls), None)
  {
  }

  predicate DistinctMemory(blocks: seq<Block>) {
    forall i, j | 0 <= i < j < |blocks| :: blocks[i].control != blocks[j].control && blocks[i].payload != blocks[j].payload
  }

  lemma Distinct(blocks: seq<Block>, i: nat)
    requires DistinctMemory(blocks) && i < |blocks|
    ensures forall k | 0 <= k < |blocks| && k != i :: blocks[k].control != blocks[i].control
  {
  }

  // Block ids are the creation attempts, modulo 2^32, so they are distinct below 2^32 attempts.
  ghost predicate BlocksAgree(blocks: seq<Block>, attempts: nat, controls: set<ControlHeader>) {
    && (forall x | x in blocks :: BlockFits(x, controls))
    && DistinctMemory(blocks)
    && (attempts <= 0x1_0000_0000 ==>
          && (forall i | 0 <= i < |blocks| :: blocks[i].blockId < attempts)
          && (forall i, j | 0 <= i < j < |blocks| :: blocks[i].blockId != blocks[j].blockId))
  }

  lemma Appended(blocks: seq<Block>, attempts: nat, controls: set<ControlHeader>, x: Block)
    requires BlocksAgree(blocks, attempts, controls)
    requires BlockFits(x, controls + {x.control}) && x.control !in controls && (forall y | y in blocks :: y.payload != x.payload)
    requires x.blockId == attempts % 0x1_0000_0000
    ensures BlocksAgree(blocks + [x], attempts + 1, controls + {x.control})
  {
    forall y | y in blocks + [x] ensures BlockFits(y, controls + {x.control}) {
      assert y != x ==> y in blocks;
    }
    forall i | 0 <= i < |blocks| ensures blocks[i].control in controls {
      assert BlockFits(blocks[i], controls);
    }
  }

  // ---- Verdicts of a scan ----

  predicate Succeeded(tried: seq<bool>) {
    tried != [] && tried[|tried| - 1]
  }

  ghost function HeadersOf(blocks: seq<Block>): seq<Observed>
    reads set x | x in blocks :: x.control
  {
    if blocks == [] then [] else HeadersOf(blocks[..|blocks| - 1]) + [Observe(blocks[|blocks| - 1].control)]
  }

  lemma {:induction false} HeadersAreListed(blocks: seq<Block>)
    ensures |HeadersOf(blocks)| == |blocks| && forall i | 0 <= i < |blocks| :: HeadersOf(blocks)[i] == Observe(blocks[i].control)
  {
    if blocks != [] {
      HeadersAreListed(blocks[..|blocks| - 1]);
    }
  }

  lemma NothingScanned(clock: nat -> U64)
    ensures Scanned([], HeadersOf([]), clock)
  {
  }

  // A scan tries the candidates in order up to the first that is claimed; each verdict fits the header
  // the candidate had.
  predicate Scanned(tried: seq<bool>, headers: seq<Observed>, clock: nat -> U64) {
    && |tried| <= |headers| && (forall i | 0 <= i < |tried| - 1 :: !tried[i])
    && (Succeeded(tried) || |tried| == |headers|)
    && forall i | 0 <= i < |tried| :: VerdictFits(tried[i], headers[i], clock(i))
  }

  // What comes of a scan of quiet candidates: it succeeds exactly if one of them is claimable.
  predicate ClaimedFits(claimed: bool, headers: seq<Observed>, clock: nat -> U64) {
    (forall i | 0 <= i < |headers| :: headers[i].pending == 0) ==>
      (claimed <==> exists i | 0 <= i < |headers| :: Claimable(headers[i], clock(i)))
  }

  lemma ScanIsExact(tried: seq<bool>, headers: seq<Observed>, clock: nat -> U64)
    requires Scanned(tried, headers, clock)
    ensures ClaimedFits(Succeeded(tried), headers, clock)
  {
    if (forall i | 0 <= i < |headers| :: headers[i].pending == 0) && !Succeeded(tried) {
      forall i | 0 <= i < |headers| ensures !Claimable(headers[i], clock(i)) {
        assert VerdictFits(tried[i], headers[i], clock(i)) && !tried[i];
      }
    }
  }

  predicate AllRefused(p: PoolSpec.Pool<Block>, n: nat, tried: seq<bool>) {
    |tried| == |PoolSpec.Bucket(p, n)| && !Succeeded(tried) && forall i | 0 <= i < |tried| - 1 :: !tried[i]
  }

  // The last candidate tried, and nothing else, left its bucket.
  predicate TookLast(p: PoolSpec.Pool<Block>, n: nat, tried: seq<bool>, b: Block, q: PoolSpec.Pool<Block>) {
    var bucket := PoolSpec.Bucket(p, n);
    && 0 < |tried| <= |bucket| && b == bucket[|tried| - 1] && (forall i | 0 <= i < |tried| - 1 :: !tried[i])
    && q.size == p.size && q.inUse == p.inUse
    && PoolSpec.BucketBecomes(p, q, n, multiset(bucket) - multiset{b})
  }

  // Block `b` was taken off the pool for an allocation of `n`, but is not marked in use yet.
  ghost predicate Reserves(p: PoolSpec.Pool<Block>, n: nat, tried: seq<bool>, b: Block, q: PoolSpec.Pool<Block>) {
    var q' := q.(inUse := q.inUse + {b});
    PoolSpec.Allocates(p, n, tried, b, q') && PoolSpec.WellFormed(q') && b !in q.inUse && q.inUse == p.inUse
  }

  class SharedBufferMemoryPool {
    var nextBlockId: U32
    var freeBlocks: map<nat, seq<Block>>
    var allBlocks: seq<Block>
    var ipcCapable: bool

    // How many blocks this pool has tried to create, and the headers of those it has.
    ghost var attempts: nat
    ghost var controls: set<ControlHeader>

    constructor ()
      ensures Valid() && View() == PoolSpec.Pool(map[], map[], {}) && attempts == 0
    {
      nextBlockId, freeBlocks, allBlocks, ipcCapable, attempts, controls := 0, map[], [], false, 0, {};
    }

    ghost function View(): PoolSpec.Pool<Block>
      reads this`freeBlocks, this`allBlocks, allBlocks`inUse
    {
      PoolSpec.Pool(freeBlocks, map x | x in allBlocks :: x.payloadSize, set x | x in allBlocks && x.inUse)
    }

    // The headers a scan of bucket `n` will meet, in order.
    ghost function Candidates(n: nat): seq<Observed>
      requires Valid()
      reads this, allBlocks, controls
    {
      BucketIsOwned(n);
      HeadersOf(PoolSpec.Bucket(View(), n))
    }

    lemma BucketIsOwned(n: nat)
      requires Valid()
      ensures forall x | x in PoolSpec.Bucket(View(), n) :: x in allBlocks && BlockFits(x, controls) && x.payloadSize == n
      ensures DistinctMemory(PoolSpec.Bucket(View(), n))
    {
      BucketIsListed(View(), n);
      BucketMemoryDistinct(allBlocks, PoolSpec.Bucket(View(), n));
    }

    // What holds of the blocks themselves, even while one is being handed out.
    ghost predicate BlocksFit()
      reads this`nextBlockId, this`allBlocks, this`attempts, this`controls
    {
      nextBlockId == attempts % 0x1_0000_0000 && BlocksAgree(allBlocks, attempts, controls)
    }

    ghost predicate Valid()
      reads this, allBlocks`inUse
    {
      BlocksFit() && PoolSpec.WellFormed(View())
    }

    // One candidate: the stamp is loaded, the clock read, and the claim attempted, with other threads
    // running in between. `published` and `word` are the values those operations met.
    method TryClaimBlock(block: Block, now: U64) returns (ok: bool, ghost published: U64, ghost word: Word)
      modifies block.control
      ensures ok <==> (published == 0 || now >= published + 100000) && word == 0
      ensures ok ==> block.control.readerState == 0x8000_0000
      ensures old(block.control.pending) == 0 ==>
        && published == old(block.control.publishTimestampUs) && word == old(block.control.readerState)
        && block.control.publishTimestampUs == published && (!ok ==> block.control.readerState == word)
        && block.control.pending == 0 && block.control.ipcUid == old(block.control.ipcUid)
      ensures block.control.taken == old(block.control.taken)
      ensures VerdictFits(ok, old(Observe(block.control)), now)
    {
      block.control.Interfere();
      var stamp := block.control.publishTimestampUs;
      published := stamp;
      block.control.Interfere();
      word := block.control.readerState;
      if stamp != 0 {
        if now < stamp {
          return false, published, word;
        }
        var age: U64 := now - stamp;
        if age < GRACE_PERIOD_US {
          return false, published, word;
        }
      }
      ok := block.control.TryClaimReuse();
    }

    // The same, seen among other headers.
    method TryCandidate(block: Block, now: U64, ghost headers: map<ControlHeader, Observed>) returns (ok: bool)
      requires block.control in headers && QuietKept(headers, None)
      modifies block.control
      ensures ok ==> block.control.readerState == REUSE_CLAIMED
      ensures VerdictFits(ok, old(Observe(block.control)), now)
      ensures QuietKept(headers, if ok then Some(block.control) else None)
    {
      ghost var published, word;
      ok, published, word := TryClaimBlock(block, now);
    }

    // Swap-removal: the last entry takes the place of entry `i`, and an emptied bucket is erased.
    method RemoveCandidate(n: U64, i: nat)
      requires n in freeBlocks && i < |freeBlocks[n]|
      modifies this`freeBlocks
      ensures
        PoolSpec.BucketBecomes(old(View()), View(), n, multiset(old(freeBlocks)[n]) - multiset{old(freeBlocks)[n][i]})
      ensures PoolSpec.Bucket(View(), n) == SwapRemove(old(freeBlocks)[n], i)
    {
      var candidates := freeBlocks[n];
      candidates := candidates[i := candidates[|candidates| - 1]];
      candidates := candidates[..|candidates| - 1];
      SwapRemoved(freeBlocks[n], i, candidates);
      if candidates == [] {
        freeBlocks := freeBlocks - {n};
      } else {
        freeBlocks := freeBlocks[n := candidates];
      }
      BucketReplaced(old(View()), View(), n, candidates);
    }

    // The scan of a bucket, in order, up to the first candidate whose claim goes through.
    method ScanBucket(candidates: seq<Block>, clock: nat -> U64) returns (ghost tried: seq<bool>, taken: Option<nat>)
      requires DistinctMemory(candidates) && forall x | x in candidates :: x.control in controls
      modifies set x | x in candidates :: x.control
      ensures |tried| <= |candidates| && forall i | 0 <= i < |tried| - 1 :: !tried[i]
      ensures match taken
        case Some(i) => i < |candidates| && i == |tried| - 1 && tried[i] && candidates[i].control.readerState == REUSE_CLAIMED
        case None => |tried| == |candidates| && (tried == [] || !tried[|tried| - 1])
      ensures Scanned(tried, old(HeadersOf(candidates)), clock)
      ensures QuietKept(old(Headers(controls)), if taken.Some? then Some(candidates[taken.value].control) else None)
    {
      hide VerdictFits, Claimable, QuietKept, Observe, HeadersOf, Headers, DistinctMemory;
      tried := [];
      var i := 0;
      ghost var headers := HeadersOf(candidates);
      QuietAtFirst(controls);
      HeadersAreListed(candidates);
      while i < |candidates|
        invariant 0 <= i <= |candidates| && |tried| == i
        invariant forall k | 0 <= k < i :: !tried[k] && VerdictFits(tried[k], headers[k], clock(k))
        invariant forall k | i <= k < |candidates| :: Observe(candidates[k].control) == headers[k]
        invariant QuietKept(old(Headers(controls)), None)
      {
        Distinct(candidates, i);
        var ok := TryCandidate(candidates[i], clock(i), old(Headers(controls)));
        tried := tried + [ok];
        if ok {
          return tried, Some(i);
        }
        i := i + 1;
      }
      taken := None;
    }

    // A claimed candidate leaves its bucket.
    method TakeFromBucket(n: U64, clock: nat -> U64) returns (block: Option<Block>, ghost tried: seq<bool>)
      requires forall x | x in PoolSpec.Bucket(View(), n) :: x in allBlocks && x.control in controls
      requires DistinctMemory(PoolSpec.Bucket(View(), n))
      modifies this`freeBlocks, controls
      ensures block.Some? <==> Succeeded(tried)
      ensures block.None? ==> View() == old(View()) && AllRefused(old(View()), n, tried)
      ensures forall x | x in old(allBlocks) :: x.currentUid == old(x.currentUid)
      ensures block.Some? ==> TookLast(old(View()), n, tried, block.value, View())
      ensures Scanned(tried, old(HeadersOf(PoolSpec.Bucket(View(), n))), clock)
      ensures QuietKept(old(Headers(controls)), if block.Some? then Some(block.value.control) else None)
    {
      hide QuietKept, Headers, Scanned, DistinctMemory, VerdictFits, Claimable, HeadersOf, SwapRemove;
      tried := [];
      if n !in freeBlocks {
        QuietAtFirst(controls);
        NothingScanned(clock);
        return None, tried;
      }
      var candidates := freeBlocks[n];
      var taken;
      tried, taken := ScanBucket(candidates, clock);
      if taken.None? {
        return None, tried;
      }
      RemoveCandidate(n, taken.value);
      block := Some(candidates[taken.value]);
    }

    // Whether a mapping for `n` payload bytes can be had; an address range never wraps.
    static predicate CanMap(n: U64, platform: Platform) {
      n <= U64_MAX - PAYLOAD_OFFSET && platform.Granted? && platform.base + PAYLOAD_OFFSET + n <= U64_MAX
    }

    // A new block joins the others.
    method AddBlock(block: Block)
      requires attempts > 0 && nextBlockId == attempts % 0x1_0000_0000 && BlocksAgree(allBlocks, attempts - 1, controls)
      requires BlockFits(block, controls + {block.control}) && block.control !in controls
      requires forall y | y in allBlocks :: y.payload != block.payload
      requires block.blockId == (attempts - 1) % 0x1_0000_0000 && !block.inUse
      modifies this`allBlocks, this`controls, this`ipcCapable
      ensures BlocksFit() && allBlocks == old(allBlocks) + [block] && controls == old(controls) + {block.control}
      ensures View() == old(View()).(size := old(View()).size[block := block.payloadSize])
    {
      Appended(allBlocks, attempts - 1, controls, block);
      allBlocks, controls := allBlocks + [block], controls + {block.control};
      ipcCapable := true;
    }

    // A new mapping of 64 + `n` bytes.
    method CreateBlock(n: U64, platform: Platform) returns (r: Result<Block>)
      requires BlocksFit() && n > 0
      modifies this`nextBlockId, this`allBlocks, this`ipcCapable, this`attempts, this`controls
      ensures BlocksFit() && controls >= old(controls) && fresh(controls - old(controls))
      ensures r.Ok? <==> CanMap(n, platform)
      ensures r.Ok? <==> platform.Granted? && platform.base + 64 + n <= U64_MAX
      ensures r.Ok? ==> r.value.mapping == platform.base && r.value.nativeHandle == platform.handle && r.value.mappedSize == 64 + n
      ensures r.Err? ==> View() == old(View()) && allBlocks == old(allBlocks)
      ensures n > U64_MAX - PAYLOAD_OFFSET ==> r == Err(LengthError) && attempts == old(attempts)
      ensures r.Ok? ==>
        && fresh(r.value) && fresh(r.value.control) && fresh(r.value.payload)
        && allBlocks == old(allBlocks) + [r.value] && View() == old(View()).(size := old(View()).size[r.value := n])
        && r.value.payloadSize == n && r.value.mappedSize == PAYLOAD_OFFSET + n && !r.value.inUse
        && r.value.blockId == old(nextBlockId) && r.value.control.pending == 0
    {
      if n > U64_MAX - PAYLOAD_OFFSET {
        return Err(LengthError);
      }
      var mappedSize: U64 := PAYLOAD_OFFSET + n;
      var blockId := nextBlockId;
      nextBlockId := (nextBlockId + 1) % 0x1_0000_0000;
      attempts := attempts + 1;
      if !CanMap(n, platform) {
        return Err(RuntimeError);
      }
      var block := new Block(platform.handle, platform.base, mappedSize, n, blockId);
      AddBlock(block);
      r := Ok(block);
    }

    // The first claimable free block, out of its bucket.
    method ReserveFree(n: U64, clock: nat -> U64) returns (block: Option<Block>, ghost tried: seq<bool>)
      requires Valid()
      modifies this`freeBlocks, controls
      ensures BlocksFit()
      ensures block.Some? <==> Succeeded(tried)
      ensures block.None? ==> View() == old(View()) && AllRefused(old(View()), n, tried)
      ensures block.Some? ==>
        && block.value in allBlocks && BlockFits(block.value, controls) && block.value.payloadSize == n
        && Reserves(old(View()), n, tried, block.value, View())
      ensures forall x | x in allBlocks :: x.currentUid == old(x.currentUid)
      ensures Scanned(tried, old(Candidates(n)), clock)
      ensures QuietKept(old(Headers(controls)), if block.Some? then Some(block.value.control) else None)
    {
      hide SharedBufferMemoryPool.View, SharedBufferMemoryPool.BlocksFit, QuietKept, Headers, Scanned, DistinctMemory, AllRefused, TookLast, Reserves;
      ghost var before := View();
      BucketIsOwned(n);
      block, tried := TakeFromBucket(n, clock);
      if block.Some? {
        ReuseAllocates(before, n, tried, block.value, View());
      }
    }

    // A new block, when no free one could be claimed.
    method ReserveNew(n: U64, platform: Platform, ghost tried: seq<bool>) returns (r: Result<Block>)
      requires Valid() && n > 0 && AllRefused(View(), n, tried)
      modifies this`nextBlockId, this`allBlocks, this`ipcCapable, this`attempts, this`controls
      ensures BlocksFit() && controls >= old(controls) && fresh(controls - old(controls))
      ensures r.Ok? <==> CanMap(n, platform)
      ensures r.Err? ==> View() == old(View())
      ensures allBlocks == if r.Ok? then old(allBlocks) + [r.value] else old(allBlocks)
      ensures r.Ok? ==> platform.Granted? && r.value.mapping == platform.base && r.value.nativeHandle == platform.handle
      ensures r.Ok? ==>
        && r.value in allBlocks && BlockFits(r.value, controls) && r.value.payloadSize == n
        && fresh(r.value) && fresh(r.value.payload) && fresh(r.value.control) && r.value.control.pending == 0
        && Reserves(old(View()), n, tried, r.value, View())
    {
      ghost var before := View();
      r := CreateBlock(n, platform);
      if r.Ok? {
        CreationAllocates(before, n, tried, r.value, View());
      }
    }

    // The block an allocation will hand out: the first claimable free one, else a new one.
    method ReserveBlock(n: U64, clock: nat -> U64, platform: Platform) returns (r: Result<Block>, ghost tried: seq<bool>)
      requires Valid() && n > 0
      modifies this, controls
      ensures BlocksFit() && controls >= old(controls) && fresh(controls - old(controls))
      ensures r.Ok? <==> Succeeded(tried) || CanMap(n, platform)
      ensures r.Err? ==> View() == old(View())
      ensures allBlocks == if r.Ok? && r.value !in old(allBlocks) then old(allBlocks) + [r.value] else old(allBlocks)
      ensures r.Ok? && r.value !in old(allBlocks) ==>
        platform.Granted? && r.value.mapping == platform.base && r.value.nativeHandle == platform.handle
      ensures r.Ok? ==>
        && r.value in allBlocks && BlockFits(r.value, controls) && r.value.payloadSize == n
        && ((r.value in old(allBlocks) && r.value.control in old(controls)) ||
            (fresh(r.value) && fresh(r.value.payload) && fresh(r.value.control) && r.value.control.pending == 0))
        && Reserves(old(View()), n, tried, r.value, View())
      ensures forall x | x in old(allBlocks) :: x in allBlocks && x.currentUid == old(x.currentUid)
      ensures Scanned(tried, old(Candidates(n)), clock)
      ensures QuietKept(old(Headers(controls)), if r.Ok? then Some(r.value.control) else None)
    {
      hide SharedBufferMemoryPool.View, SharedBufferMemoryPool.BlocksFit, SharedBufferMemoryPool.Candidates;
      hide QuietKept, Headers, Scanned, Reserves, AllRefused;
      var found;
      found, tried := ReserveFree(n, clock);
      if found.Some? {
        r := Ok(found.value);
      } else {
        r := ReserveNew(n, platform, tried);
        if r.Ok? {
          NewcomerClaimed(old(Headers(controls)), r.value.control);
        }
      }
    }

    // A fresh generation on a reserved block: uid drawn, header cleared, claim released.
    method StartGeneration(block: Block, draw: U64, ghost headers: map<ControlHeader, Observed>)
      requires BlocksFit() && block in allBlocks && QuietKept(headers, Some(block.control))
      modifies block, block.control`ipcUid, block.control`publishTimestampUs, block.control`readerState
      ensures BlocksFit() && View() == old(View()).(inUse := old(View()).inUse + {block})
      ensures forall x | x in allBlocks && x != block :: x.currentUid == old(x.currentUid)
      ensures block.control.pending == old(block.control.pending)
      ensures QuietKept(headers, None)
      ensures block.inUse && block.currentUid == if draw == 0 then 1 else draw
      ensures block.control.ipcUid == 0 && block.control.publishTimestampUs == 0 && block.control.readerState == 0
    {
      block.inUse := true;
      block.currentUid := if draw == 0 then 1 else draw;
      block.control.ipcUid := 0;
      block.control.publishTimestampUs := 0;
      block.control.ReleaseReuseClaim();
    }

    // Exact-size allocation. `draw` is what the random generator yields.
    method Allocate(n: U64, clock: nat -> U64, draw: U64, platform: Platform)
      returns (r: Result<Block>, ghost tried: seq<bool>)
      requires Valid()
      modifies this, allBlocks, controls
      ensures Valid() && controls >= old(controls) && fresh(controls - old(controls))
      ensures n == 0 ==> r == Err(InvalidArgument)
      ensures n > 0 ==> (r.Ok? <==> Succeeded(tried) || CanMap(n, platform))
      ensures r.Err? ==> View() == old(View())
      ensures allBlocks == if r.Ok? && r.value !in old(allBlocks) then old(allBlocks) + [r.value] else old(allBlocks)
      ensures r.Ok? && r.value !in old(allBlocks) ==>
        platform.Granted? && r.value.mapping == platform.base && r.value.nativeHandle == platform.handle
      ensures forall x | x in old(allBlocks) :: x in allBlocks && (!(r.Ok? && x == r.value) ==> x.currentUid == old(x.currentUid))
      ensures r.Ok? ==>
        && PoolSpec.Allocates(old(View()), n, tried, r.value, View())
        && r.value !in old(View()).inUse && View().inUse == old(View()).inUse + {r.value} && r.value in allBlocks && BlockFits(r.value, controls) && r.value.payloadSize == n
        && ((r.value in old(allBlocks) && r.value.control in old(controls)) ||
            (fresh(r.value) && fresh(r.value.payload) && fresh(r.value.control) && r.value.control.pending == 0))
        && r.value.currentUid == (if draw == 0 then 1 else draw)
        && r.value.control.ipcUid == 0 && r.value.control.publishTimestampUs == 0 && r.value.control.readerState == 0
      ensures n > 0 ==> Scanned(tried, old(Candidates(n)), clock)
      ensures QuietKept(old(Headers(controls)), None)
    {
      hide SharedBufferMemoryPool.BlocksFit, QuietKept, Headers, VerdictFits;
      tried := [];
      if n == 0 {
        QuietAtFirst(controls);
        return Err(InvalidArgument), tried;
      }
      ghost var headers := Headers(controls);
      r, tried := ReserveBlock(n, clock, platform);
      if r.Ok? {
        StartGeneration(r.value, draw, headers);
      }
    }

    // Back to the bucket of its size, once.
    method Free(block: Block)
      requires Valid() && block in allBlocks
      modifies this`freeBlocks, block`inUse
      ensures Valid() && PoolSpec.Frees(old(View()), block, View())
      ensures freeBlocks ==
        if old(block.inUse) then old(freeBlocks)[block.payloadSize := old(PoolSpec.Bucket(View(), block.payloadSize)) + [block]]
        else old(freeBlocks)
    {
      hide SharedBufferMemoryPool.BlocksFit;
      if !block.inUse {
        return;
      }
      ghost var before := View();
      block.inUse := false;
      var bucket := if block.payloadSize in freeBlocks then freeBlocks[block.payloadSize] else [];
      freeBlocks := freeBlocks[block.payloadSize := bucket + [block]];
      BucketReplaced(before, View(), block.payloadSize, bucket + [block]);
      PoolSpec.FreesKeepsWellFormed(before, block, View());
    }

    // The generation's uid, drawn on demand when there is none yet.
    method AssignUid(block: Block, draw: U64) returns (uid: U64)
      modifies block`currentUid
      ensures uid == block.currentUid && uid != 0
      ensures old(block.currentUid) != 0 ==> uid == old(block.currentUid)
    {
      if block.currentUid == 0 {
        block.currentUid := if draw == 0 then 1 else draw;
      }
      uid := block.currentUid;
    }

    // Publication: first the uid, then the stamp, which is stored when the header names the generation.
    method MarkPublished(block: Block, now: U64)
      modifies block.control`ipcUid, block.control`publishTimestampUs, block.control`stampedUid
      ensures block.control.ipcUid == block.currentUid && block.control.publishTimestampUs == now
      ensures block.control.stampedUid == block.currentUid
    {
      block.control.ipcUid := block.currentUid;
      RefreshPublishTimestamp(block.control, now);
    }

    method RefreshPublishTimestamp(control: ControlHeader, now: U64)
      modifies control`publishTimestampUs, control`stampedUid
      ensures control.publishTimestampUs == now && control.stampedUid == control.ipcUid
    {
      control.publishTimestampUs, control.stampedUid := now, control.ipcUid;
    }

    method FindBlockForPtr(address: nat) returns (r: Option<Block>)
      ensures r.Some? ==> r.value in allBlocks && r.value.Contains(address)
      ensures r.Some? ==> r.value.mapping + 64 <= address < r.value.mapping + r.value.mappedSize
      ensures r.None? ==> forall x | x in allBlocks :: !(x.mapping + 64 <= address < x.mapping + x.mappedSize)
      ensures r.None? ==> forall x | x in allBlocks :: !x.Contains(address)
    {
      var i := 0;
      while i < |allBlocks|
        invariant 0 <= i <= |allBlocks|
        invariant forall k | 0 <= k < i :: !allBlocks[k].Contains(address)
      {
        if allBlocks[i].Contains(address) {
          return Some(allBlocks[i]);
        }
        i := i + 1;
      }
      r := None;
    }
  }

  // Two mappings of one process never overlap.
  predicate DisjointMappings(blocks: seq<Block>) {
    forall i, j | 0 <= i < j < |blocks| :: Apart(blocks[i], blocks[j])
  }

  predicate Apart(x: Block, y: Block) {
    x.mapping + x.mappedSize <= y.mapping || y.mapping + y.mappedSize <= x.mapping
  }

  // A mapping granted apart from the others keeps them all apart.
  lemma GrantKeepsDisjoint(blocks: seq<Block>, x: Block)
    requires DisjointMappings(blocks) && forall y | y in blocks :: Apart(x, y)
    ensures DisjointMappings(blocks + [x])
  {
    forall i, j | 0 <= i < j < |blocks + [x]| ensures Apart((blocks + [x])[i], (blocks + [x])[j]) {
      assert j == |blocks| ==> blocks[i] in blocks;
    }
  }

  // Over disjoint mappings at most one block contains an address, so the lookup inverts the payload
  // address `allocate_raw` computes, and the address of any byte behind it.
  lemma LookupInvertsPayloadAddress(blocks: seq<Block>, x: Block, y: Block, offset: nat)
    requires DisjointMappings(blocks) && x in blocks && y in blocks
    requires x.mappedSize == PAYLOAD_OFFSET + x.payloadSize && x.mapping + x.mappedSize <= U64_MAX && offset < x.payloadSize
    ensures y.Contains(x.mapping + PAYLOAD_OFFSET + offset) <==> y == x
  {
    var i :| 0 <= i < |blocks| && blocks[i] == x;
    var j :| 0 <= j < |blocks| && blocks[j] == y;
  }

  lemma BucketIsListed(p: PoolSpec.Pool<Block>, n: nat)
    requires PoolSpec.WellFormed(p)
    ensures forall x | x in PoolSpec.Bucket(p, n) :: x in p.size && p.size[x] == n && multiset(PoolSpec.Bucket(p, n))[x] == 1
  {
    if n in p.free {
      assert PoolSpec.BucketFits(p, n, p.free[n]);
    }
  }

  lemma BucketMemoryDistinct(blocks: seq<Block>, bucket: seq<Block>)
    requires DistinctMemory(blocks)
    requires forall x | x in bucket :: x in blocks && multiset(bucket)[x] == 1
    ensures DistinctMemory(bucket)
  {
    forall i, j | 0 <= i < j < |bucket| ensures bucket[i].control != bucket[j].control && bucket[i].payload != bucket[j].payload {
      ListedOnceIsDistinct(bucket, i, j);
      assert bucket[i] in blocks && bucket[j] in blocks;
    }
  }

  lemma ListedOnceIsDistinct<B>(s: seq<B>, i: nat, j: nat)
    requires i < j < |s| && multiset(s)[s[i]] == 1
    ensures s[i] != s[j]
  {
    assert s == s[..j] + s[j..];
    assert s[i] in s[..j] && s[j] in s[j..];
    assert multiset(s) == multiset(s[..j]) + multiset(s[j..]);
    PoolSpec.InBucket(s[..j], s[i]);
    PoolSpec.InBucket(s[j..], s[j]);
  }

  lemma ReuseAllocates(p: PoolSpec.Pool<Block>, n: nat, tried: seq<bool>, b: Block, q: PoolSpec.Pool<Block>)
    requires PoolSpec.WellFormed(p) && Succeeded(tried) && TookLast(p, n, tried, b, q)
    ensures Reserves(p, n, tried, b, q) && b in PoolSpec.Bucket(p, n)
  {
    PoolSpec.AllocatesKeepsWellFormed(p, n, tried, b, q.(inUse := q.inUse + {b}));
  }

  lemma CreationAllocates(p: PoolSpec.Pool<Block>, n: nat, tried: seq<bool>, b: Block, q: PoolSpec.Pool<Block>)
    requires PoolSpec.WellFormed(p) && AllRefused(p, n, tried) && b !in p.size && q == p.(size := p.size[b := n])
    ensures Reserves(p, n, tried, b, q)
  {
    PoolSpec.AllocatesKeepsWellFormed(p, n, tried, b, q.(inUse := q.inUse + {b}));
  }

  lemma BucketReplaced<B>(p: PoolSpec.Pool<B>, p': PoolSpec.Pool<B>, n: nat, t: seq<B>)
    requires p'.free == if t == [] then p.free - {n} else p.free[n := t]
    ensures PoolSpec.BucketBecomes(p, p', n, multiset(t))
  {
    assert PoolSpec.Without(p', n) == PoolSpec.Without(p, n);
  }

  // The last entry takes the place of entry `i`.
  function SwapRemove<B>(s: seq<B>, i: nat): seq<B>
    requires i < |s|
  {
    s[i := s[|s| - 1]][..|s| - 1]
  }

  // Overwriting entry `i` by the last one and dropping the last removes exactly entry `i`.
  lemma SwapRemoved<B>(s: seq<B>, i: nat, t: seq<B>)
    requires i < |s| && t == SwapRemove(s, i)
    ensures multiset(t) == multiset(s) - multiset{s[i]}
  {
    var last := s[|s| - 1];
    assert s[i := last] == t + [last];
    assert multiset(s[i := last]) == multiset(t) + multiset{last};
    Cancel(multiset(t), multiset(s) - multiset{s[i]}, last);
  }

  lemma Cancel<B>(a: multiset<B>, b: multiset<B>, x: B)
    requires a + multiset{x} == b + multiset{x}
    ensures a == b
  {
    forall y ensures a[y] == b[y] {
      assert (a + multiset{x})[y] == (b + multiset{x})[y];
    }
  }

  // ---- Nothing published, nothing leased ----

  predicate Idle(header: Observed) {
    header == Observed(0, 0, 0)
  }

  // The scans of a run: what headers each met, by what clock.
  predicate ScansFit<B>(ops: seq<PoolSpec.Op<B>>, n: nat, headers: seq<seq<Observed>>, clocks: seq<nat -> U64>) {
    && |headers| == |clocks| == |ops|
    && forall i | 0 <= i < |ops| && ops[i].Allocate? && ops[i].n == n :: Scanned(ops[i].tried, headers[i], clocks[i])
  }

  // As long as the free blocks of a size are never published nor held by anyone, the pool owns exactly as
  // many blocks of that size as were ever in use at once.
  lemma UnpublishedGrowthIsPeakUse<B>(
    states: seq<PoolSpec.Pool<B>>, ops: seq<PoolSpec.Op<B>>, n: nat, headers: seq<seq<Observed>>, clocks: seq<nat -> U64>)
    requires PoolSpec.IsRun(states, ops) && ScansFit(ops, n, headers, clocks)
    requires forall i, k | 0 <= i < |ops| && ops[i].Allocate? && ops[i].n == n && 0 <= k < |headers[i]| :: Idle(headers[i][k])
    ensures |PoolSpec.BlocksOf(states[|ops|], n)| == PoolSpec.PeakUse(states, n)
  {
    forall i, k | 0 <= i < |ops| && ops[i].Allocate? && ops[i].n == n && 0 <= k < |ops[i].tried| ensures ops[i].tried[k] {
      assert Scanned(ops[i].tried, headers[i], clocks[i]);
      assert VerdictFits(ops[i].tried[k], headers[i][k], clocks[i](k)) && Idle(headers[i][k]);
    }
    PoolSpec.UncontendedGrowthIsPeakUse(states, ops, n);
  }
}
