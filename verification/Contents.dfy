// Contents of shared buffers: allocation behind a typed buffer, resizing, cloning, and the promotion
// of an ordinary buffer. Copies are of bytes; `width` is the size of an element.

module Contents {
  import opened WriteState
  import opened Bytes
  import opened ControlWord
  import opened Outcome
  import opened HandleSpec
  import opened SharedHeader
  import opened Handles
  import opened MemoryPool

  // ---- Sizes ----

  // The bytes of `count` elements laid end to end.
  function Extent(count: nat, width: nat): nat {
    if count == 0 then 0 else Extent(count - 1, width) + width
  }

  lemma {:induction false} ExtentIsProduct(count: nat, width: nat)
    ensures Extent(count, width) == count * width
  {
    if count > 0 {
      ExtentIsProduct(count - 1, width);
      assert (count - 1) * width + width == count * width;
    }
  }

  lemma ProductFits(count: nat, width: nat)
    requires width > 0
    ensures count > U64_MAX / width <==> count * width > U64_MAX
  {
    var q := U64_MAX / width;
    if count > q {
      assert count * width >= (q + 1) * width > U64_MAX;
    } else {
      assert count * width <= q * width <= U64_MAX;
    }
  }

  lemma {:induction false} ExtentCovers(count: nat, width: nat)
    requires width > 0
    ensures Extent(count, width) >= count
  {
    if count > 0 {
      ExtentCovers(count - 1, width);
    }
  }

  lemma {:induction false} ExtentGrows(a: nat, b: nat, width: nat)
    requires a <= b
    ensures Extent(a, width) <= Extent(b, width)
  {
    if a < b {
      ExtentGrows(a, b - 1, width);
    }
  }

  // The overflow test divides; it is exact.
  method ByteCount(count: nat, width: U64) returns (r: Result<U64>)
    requires width > 0
    ensures r == if Extent(count, width) <= U64_MAX then Ok(Extent(count, width)) else Err(RuntimeError)
    ensures r == if count * width <= 0xFFFF_FFFF_FFFF_FFFF then Ok(count * width) else Err(RuntimeError)
  {
    ExtentIsProduct(count, width);
    ProductFits(count, width);
    if count > U64_MAX / width {
      return Err(RuntimeError);
    }
    r := Ok(count * width);
  }

  // Two contents agree on every byte that both have.
  predicate Agree(a: seq<Byte>, b: seq<Byte>) {
    forall i | 0 <= i < |a| && i < |b| :: a[i] == b[i]
  }

  lemma AgreeingWhole(a: seq<Byte>, b: seq<Byte>)
    requires Agree(a, b) && |a| == |b|
    ensures a == b
  {
  }

  lemma AgreeMeans(a: seq<Byte>, b: seq<Byte>)
    requires Agree(a, b)
    ensures forall i | 0 <= i < |a| && i < |b| :: a[i] == b[i]
  {
  }

  lemma AgreeOnPrefix(a: seq<Byte>, b: seq<Byte>, n: nat)
    requires n <= |a| && n <= |b| && (n == |a| || n == |b|) && a[..n] == b[..n]
    ensures Agree(a, b)
  {
    forall i | 0 <= i < |a| && i < |b| ensures a[i] == b[i] {
      assert a[i] == a[..n][i] && b[i] == b[..n][i];
    }
  }

  lemma NothingToAgreeOn(a: seq<Byte>, b: seq<Byte>)
    requires a == [] || b == []
    ensures Agree(a, b)
  {
  }

  // `std::min`.
  function Min(a: nat, b: nat): (m: nat)
    ensures m <= a && m <= b && (m == a || m == b)
  {
    if a < b then a else b
  }

  // `memcpy`.
  method CopyBytes(target: array<Byte>, source: array<Byte>, n: nat)
    requires n <= target.Length && n <= source.Length
    modifies target
    ensures target[..n] == old(source[..n])
    ensures target[n..] == old(target[n..])
    ensures source[..] == old(source[..])
  {
    forall i | 0 <= i < n {
      target[i] := source[i];
    }
    assert forall i | 0 <= i < source.Length :: source[i] == old(source[i]);
  }

  // ---- A typed buffer ----

  // What a buffer's data pointer points into, and what its deleter gives back.
  datatype Source = Nothing | Pooled(block: Block) | Imported(payload: array<Byte>)

  datatype Allocation = Allocation(buffer: SharedBuffer, block: Block)

  // A buffer over a pool block, as allocation makes it.
  ghost predicate Fronts(buffer: SharedBuffer, block: Block)
    reads buffer
  {
    && buffer.Valid() && buffer.writable && buffer.deleter.Some? && buffer.control == block.control
    && buffer.dataPtr == Some(block.mapping + PAYLOAD_OFFSET) && buffer.size == block.payloadSize
    && buffer.identity == Identity(block.blockId, block.mappedSize, 0, "", 0) && buffer.owner.None? && buffer.deleter.value.captured.None?
    && block.payload.Length == block.payloadSize
  }

  method MakeFront(block: Block, ticket: nat) returns (buffer: SharedBuffer)
    requires block.payload.Length == block.payloadSize && block.mapping + block.mappedSize <= U64_MAX
    ensures fresh(buffer) && Fronts(buffer, block) && buffer.handleState == null && buffer.heldControl == null
  {
    buffer := new SharedBuffer(Some(block.mapping + PAYLOAD_OFFSET), block.payloadSize, Some(Deleter(ticket, None)), block.control, None, true,
      Identity(block.blockId, block.mappedSize, 0, "", 0));
  }

  // Whether a block of so many bytes can be had: a free one was claimed, or a new one can be mapped.
  predicate Obtainable(bytes: nat, claimed: bool, platform: Platform) {
    0 < bytes <= U64_MAX && (claimed || SharedBufferMemoryPool.CanMap(bytes, platform))
  }

  lemma ObtainableMeans(bytes: nat, claimed: bool, platform: Platform)
    ensures Obtainable(bytes, claimed, platform) <==>
      && 0 < bytes <= 0xFFFF_FFFF_FFFF_FFFF
      && (claimed || (platform.Granted? && platform.base + 64 + bytes <= 0xFFFF_FFFF_FFFF_FFFF))
  {
  }

  // The pool has its old blocks and, if the block handed out is a new one, that one, placed where the
  // platform granted it.
  ghost predicate Placed(before: seq<Block>, after: seq<Block>, block: Option<Block>, platform: Platform) {
    && after == (if block.Some? && block.value !in before then before + [block.value] else before)
    && (block.Some? && block.value !in before ==>
          platform.Granted? && block.value.mapping == platform.base && block.value.nativeHandle == platform.handle)
  }

  lemma NothingPlaced(blocks: seq<Block>, platform: Platform)
    ensures Placed(blocks, blocks, None, platform)
  {
  }

  // Allocation as a buffer sees it: some block nobody uses, of exactly the size asked for.
  method TakeBlock(pool: SharedBufferMemoryPool, bytes: U64, clock: nat -> U64, draw: U64, platform: Platform)
    returns (r: Result<Block>, ghost claimed: bool)
    requires pool.Valid()
    modifies pool, pool.allBlocks, pool.controls
    ensures pool.Valid()
    ensures r.Ok? <==> Obtainable(bytes, claimed, platform)
    ensures bytes > 0 ==> ClaimedFits(claimed, old(pool.Candidates(bytes)), clock)
    ensures QuietKept(old(Headers(pool.controls)), None)
    ensures r.Err? ==> pool.View().inUse == old(pool.View().inUse)
    ensures r.Ok? ==> Taken(r.value, bytes, pool) && pool.View().inUse == old(pool.View().inUse) + {r.value} && r.value !in old(pool.View().inUse)
    ensures r.Ok? ==> r.value.control.readerState == 0
    ensures Placed(old(pool.allBlocks), pool.allBlocks, if r.Ok? then Some(r.value) else None, platform)
    ensures fresh(pool.controls - old(pool.controls))
    ensures r.Ok? ==>
      || (r.value in old(pool.allBlocks) && r.value.control in old(pool.controls))
      || (fresh(r.value) && fresh(r.value.payload) && fresh(r.value.control) && r.value.control.pending == 0)
  {
    hide Headers, QuietKept, ClaimedFits, Scanned, SharedBufferMemoryPool.Candidates;
    ghost var candidates := if bytes > 0 then pool.Candidates(bytes) else [];
    ghost var tried;
    r, tried := pool.Allocate(bytes, clock, draw, platform);
    claimed := Succeeded(tried);
    if bytes > 0 {
      ScanIsExact(tried, candidates, clock);
    }
  }

  lemma UsedIsOwned(pool: SharedBufferMemoryPool)
    ensures forall x | x in pool.View().inUse :: x in pool.allBlocks
  {
  }

  // Blocks do not share memory.
  lemma MemoryIsDisjoint(pool: SharedBufferMemoryPool, block: Block)
    requires block in pool.allBlocks && pool.Valid()
    ensures forall x | x in pool.View().inUse && x != block :: x.payload != block.payload
  {
    var i :| 0 <= i < |pool.allBlocks| && pool.allBlocks[i] == block;
    forall x | x in pool.View().inUse && x != block ensures x.payload != block.payload {
      var j :| 0 <= j < |pool.allBlocks| && pool.allBlocks[j] == x;
    }
  }

  ghost predicate Taken(block: Block, bytes: nat, pool: SharedBufferMemoryPool)
    reads pool`controls, pool`allBlocks
  {
    block in pool.allBlocks && BlockFits(block, pool.controls) && block.payloadSize == bytes
  }

  // A block that was not in `used` was taken from the pool and fronted by a buffer.
  ghost predicate Allocated(a: Allocation, bytes: nat, pool: SharedBufferMemoryPool, used: set<Block>)
    reads pool, pool.allBlocks, a.buffer
  {
    && Fronts(a.buffer, a.block) && a.buffer.handleState == null && a.buffer.heldControl == null
    && Taken(a.block, bytes, pool)
    && pool.View().inUse == used + {a.block} && a.block !in used
  }

  method AllocateBytes(pool: SharedBufferMemoryPool, bytes: U64, ticket: nat, clock: nat -> U64, draw: U64, platform: Platform)
    returns (r: Result<Allocation>, ghost claimed: bool)
    requires pool.Valid()
    modifies pool, pool.allBlocks, pool.controls
    ensures pool.Valid()
    ensures r.Ok? <==> Obtainable(bytes, claimed, platform)
    ensures bytes > 0 ==> ClaimedFits(claimed, old(pool.Candidates(bytes)), clock)
    ensures QuietKept(old(Headers(pool.controls)), None)
    ensures r.Err? ==> pool.View().inUse == old(pool.View().inUse)
    ensures r.Ok? ==> fresh(r.value.buffer) && Allocated(r.value, bytes, pool, old(pool.View().inUse))
    ensures r.Ok? ==>
      || (r.value.block in old(pool.allBlocks) && r.value.block.control in old(pool.controls))
      || (fresh(r.value.block) && fresh(r.value.block.payload) && fresh(r.value.block.control) && r.value.block.control.pending == 0)
    ensures r.Ok? ==> r.value.block.control.readerState == 0
    ensures Placed(old(pool.allBlocks), pool.allBlocks, if r.Ok? then Some(r.value.block) else None, platform)
    ensures fresh(pool.controls - old(pool.controls))
  {
    hide SharedBufferMemoryPool.Valid, SharedBufferMemoryPool.View, SharedBufferMemoryPool.Candidates, Headers;
    hide QuietKept, ClaimedFits, Obtainable, Placed;
    var block;
    block, claimed := TakeBlock(pool, bytes, clock, draw, platform);
    if block.Ok? {
      var buffer := MakeFront(block.value, ticket);
      r := Ok(Allocation(buffer, block.value));
    } else {
      r := Err(block.error);
    }
  }

  method AllocateRaw(pool: SharedBufferMemoryPool, count: nat, width: U64, ticket: nat, clock: nat -> U64, draw: U64, platform: Platform)
    returns (r: Result<Allocation>, ghost claimed: bool)
    requires pool.Valid() && width > 0
    modifies pool, pool.allBlocks, pool.controls
    ensures pool.Valid()
    ensures r.Ok? <==> Obtainable(Extent(count, width), claimed, platform)
    ensures 0 < Extent(count, width) <= U64_MAX ==> ClaimedFits(claimed, old(pool.Candidates(Extent(count, width))), clock)
    ensures QuietKept(old(Headers(pool.controls)), None)
    ensures r.Err? ==> pool.View().inUse == old(pool.View().inUse)
    ensures r.Ok? ==> fresh(r.value.buffer) && Allocated(r.value, Extent(count, width), pool, old(pool.View().inUse))
    ensures r.Ok? ==>
      || (r.value.block in old(pool.allBlocks) && r.value.block.control in old(pool.controls))
      || (fresh(r.value.block) && fresh(r.value.block.payload) && fresh(r.value.block.control) && r.value.block.control.pending == 0)
    ensures r.Ok? ==> r.value.block.control.readerState == 0
    ensures Placed(old(pool.allBlocks), pool.allBlocks, if r.Ok? then Some(r.value.block) else None, platform)
    ensures fresh(pool.controls - old(pool.controls))
  {
    hide SharedBufferMemoryPool.Valid, SharedBufferMemoryPool.View, SharedBufferMemoryPool.Candidates, Headers, QuietKept, ClaimedFits, Taken, Placed;
    claimed := false;
    QuietAtFirst(pool.controls);
    NothingPlaced(pool.allBlocks, platform);
    var bytes := ByteCount(count, width);
    if bytes.Ok? {
      r, claimed := AllocateBytes(pool, bytes.value, ticket, clock, draw, platform);
    } else {
      r := Err(bytes.error);
    }
  }

  function BlockSet(source: Source): set<Block> {
    if source.Pooled? then {source.block} else {}
  }

  // A write handle on a new buffer, one copy under it, and the handle dropped: the buffer is finalised.
  method WriteOnce(target: Allocation, payload: array<Byte>, n: nat, releases: Releases)
    requires Fronts(target.buffer, target.block) && target.buffer.handleState == null
    requires 0 < n <= target.block.payload.Length && n <= payload.Length
    modifies target.buffer`handleState, target.block.payload, releases
    ensures target.block.payload[..n] == old(payload[..n]) && payload[..] == old(payload[..])
    ensures target.buffer.Local() == Local(Finalized, 0) && fresh(target.buffer.handleState)
  {
    var write := target.buffer.GetWriteHandle();
    CopyBytes(target.block.payload, payload, n);
    write.value.Release(releases);
  }

  // The copy at the heart of resizing and cloning: under a read handle on the source and a write handle
  // on the new buffer, both dropped again. A refused read handle leaves everything as it was; a copy
  // leaves the new buffer finalised.
  method CopyThrough(source: SharedBuffer, payload: array<Byte>, target: Allocation, n: nat, ticket: nat, releases: Releases)
    returns (r: Result<()>, ghost seen: Word)
    requires source.Valid() && source != target.buffer
    requires Fronts(target.buffer, target.block) && target.buffer.handleState == null
    requires 0 < n <= target.block.payload.Length && n <= payload.Length
    modifies source`handleState, StateSet(source.handleState), HeaderSet(source.control), target.buffer`handleState, target.block.payload, releases
    ensures r.Ok? <==> old(source.Local()).writing != InUse && !AcquireRefused(seen)
    ensures if source.control == null then seen == 0 else old(source.control.pending) == 0 ==> seen == old(source.control.readerState)
    ensures source.Local() == old(source.Local()) && (source.control != null ==> source.control.taken == old(source.control.taken))
    ensures if old(source.handleState) == null then fresh(source.handleState) else source.handleState == old(source.handleState)
    ensures r.Ok? ==> target.block.payload[..n] == old(payload[..n]) && target.buffer.Local() == Local(Finalized, 0)
    ensures payload[..] == old(payload[..])
    ensures r.Err? ==> target.block.payload[..] == old(target.block.payload[..]) && target.buffer.handleState == null
  {
    var read;
    read, seen := source.GetReadHandle(ticket);
    if read.Err? {
      return Err(read.error), seen;
    }
    WriteOnce(target, payload, n, releases);
    read.value.Release(releases);
    r := Ok(());
  }

  // The same copy into ordinary memory.
  method CopyOut(source: SharedBuffer, payload: array<Byte>, target: array<Byte>, ticket: nat, releases: Releases)
    returns (r: Result<array<Byte>>, ghost seen: Word)
    requires source.Valid() && target != payload && target.Length == payload.Length
    modifies source`handleState, StateSet(source.handleState), HeaderSet(source.control), target, releases
    ensures r.Ok? <==> old(source.Local()).writing != InUse && !AcquireRefused(seen)
    ensures if source.control == null then seen == 0 else old(source.control.pending) == 0 ==> seen == old(source.control.readerState)
    ensures source.Local() == old(source.Local()) && (source.control != null ==> source.control.taken == old(source.control.taken))
    ensures r.Ok? ==> r.value == target && target[..] == payload[..]
  {
    var read;
    read, seen := source.GetReadHandle(ticket);
    if read.Err? {
      return Err(read.error), seen;
    }
    CopyBytes(target, payload, target.Length);
    read.value.Release(releases);
    assert target[..target.Length] == target[..] && payload[..target.Length] == payload[..];
    r := Ok(target);
  }

  // The deleter, run on behalf of a buffer that is being reset: a pool block goes back to its pool, an
  // imported buffer drops its reader reference.
  method GiveBack(source: Source, control: ControlHeader?, pool: SharedBufferMemoryPool)
    requires pool.Valid() && BlockSet(source) <= pool.View().inUse && (source.Imported? ==> control != null)
    modifies pool`freeBlocks, BlockSet(source)`inUse, HeaderSet(control)
    ensures pool.Valid() && pool.View().inUse == old(pool.View().inUse) - BlockSet(source)
    ensures source.Imported? ==> control.taken == old(control.taken) - 1 && control.readerState == MinusOne(old(control.readerState))
  {
    match source
    case Nothing =>
    case Pooled(block) => pool.Free(block);
    case Imported(_) => control.ReleaseReader();
  }

  // A buffer that dies before anyone else saw it.
  method Discard(a: Allocation, pool: SharedBufferMemoryPool, releases: Releases)
    requires pool.Valid() && a.block in pool.View().inUse && a.buffer.Valid() && a.buffer.heldControl == null
    modifies a.buffer, releases, pool`freeBlocks, a.block`inUse
    ensures pool.Valid() && pool.View().inUse == old(pool.View().inUse) - {a.block}
  {
    hide SharedBufferMemoryPool.Valid, SharedBufferMemoryPool.View;
    a.buffer.Reset(releases);
    GiveBack(Pooled(a.block), null, pool);
  }

  // Copies into a new buffer; if that is refused, the new block goes straight back to the pool.
  method FillOrDiscard(source: SharedBuffer, payload: array<Byte>, target: Allocation, n: nat, ticket: nat, pool: SharedBufferMemoryPool, releases: Releases)
    returns (r: Result<Allocation>, ghost seen: Word)
    requires source.Valid() && source != target.buffer
    requires Fronts(target.buffer, target.block) && target.buffer.handleState == null && target.buffer.heldControl == null
    requires pool.Valid() && target.block in pool.View().inUse && 0 < n <= target.block.payload.Length && n <= payload.Length
    modifies source`handleState, StateSet(source.handleState), HeaderSet(source.control), target.buffer, target.block.payload, releases
    modifies pool`freeBlocks, target.block`inUse
    ensures r.Ok? <==> old(source.Local()).writing != InUse && !AcquireRefused(seen)
    ensures if source.control == null then seen == 0 else old(source.control.pending) == 0 ==> seen == old(source.control.readerState)
    ensures source.Local() == old(source.Local()) && (source.control != null ==> source.control.taken == old(source.control.taken))
    ensures if old(source.handleState) == null then fresh(source.handleState) else source.handleState == old(source.handleState)
    ensures payload[..] == old(payload[..])
    ensures pool.Valid() && pool.View().inUse == old(pool.View().inUse) - (if r.Ok? then {} else {target.block})
    ensures r.Ok? ==>
      && r.value == target && target.block.payload[..n] == old(payload[..n])
      && Fronts(target.buffer, target.block) && target.buffer.heldControl == null && target.buffer.Local() == Local(Finalized, 0)
    ensures r.Err? ==> target.block.payload[..] == old(target.block.payload[..])
  {
    hide SharedBufferMemoryPool.Valid, SharedBufferMemoryPool.View;
    var copied;
    copied, seen := CopyThrough(source, payload, target, n, ticket, releases);
    if copied.Ok? {
      r := Ok(target);
    } else {
      r := Err(copied.error);
      Discard(target, pool, releases);
    }
  }

  lemma {:induction false} BytesAreElements(n: nat)
    ensures Extent(n, 1) == n
  {
    ExtentIsProduct(n, 1);
  }

  // Writes a new buffer once.
  method Fill(target: Allocation, elements: seq<Byte>, releases: Releases)
    requires Fronts(target.buffer, target.block) && target.buffer.handleState == null
    requires 0 < |elements| == target.block.payload.Length
    modifies target.buffer`handleState, target.block.payload, releases
    ensures target.block.payload[..] == elements
    ensures target.buffer.Local() == Local(Finalized, 0) && fresh(target.buffer.handleState)
  {
    var write := target.buffer.GetWriteHandle();
    forall i | 0 <= i < |elements| {
      target.block.payload[i] := elements[i];
    }
    write.value.Release(releases);
  }

  datatype Promotion = Promotion(read: ReadHandle, buffer: SharedBuffer, block: Block)

  // Fills a new buffer and takes a read handle on it; if that is refused the buffer dies and its block
  // goes back.
  method FillAndRead(target: Allocation, elements: seq<Byte>, ticket: nat, pool: SharedBufferMemoryPool, releases: Releases)
    returns (r: Result<Promotion>, ghost seen: Word)
    requires Fronts(target.buffer, target.block) && target.buffer.handleState == null && target.buffer.heldControl == null
    requires pool.Valid() && target.block in pool.View().inUse && 0 < |elements| == target.block.payload.Length
    modifies target.buffer, target.block.payload, target.block.control, releases, pool`freeBlocks, target.block`inUse
    ensures pool.Valid() && pool.View().inUse == old(pool.View().inUse) - (if r.Ok? then {} else {target.block})
    ensures r.Ok? <==> !AcquireRefused(seen)
    ensures old(target.block.control.pending) == 0 ==> seen == old(target.block.control.readerState)
    ensures r.Ok? ==> Promoted(r.value, elements) && r.value.block == target.block
  {
    hide SharedBufferMemoryPool.Valid, SharedBufferMemoryPool.View;
    Fill(target, elements, releases);
    var read;
    read, seen := target.buffer.GetReadHandle(ticket);
    if read.Ok? {
      r := Ok(Promotion(read.value, target.buffer, target.block));
    } else {
      Discard(target, pool, releases);
      r := Err(read.error);
    }
  }

  // A finalised shared copy of `elements` with one read handle on it.
  ghost predicate Promoted(p: Promotion, elements: seq<Byte>)
    reads p.buffer, StateSet(p.buffer.handleState), p.read, p.block.payload
  {
    && Fronts(p.buffer, p.block) && p.block.payload[..] == elements
    && p.read.Value().data == p.buffer.dataPtr && p.buffer.Local() == Local(Finalized, 1)
  }

  // Promotion of an ordinary buffer: a shared copy of its bytes, finalised, with a read handle that goes
  // with it.
  method Promote(elements: seq<Byte>, count: nat, width: U64, pool: SharedBufferMemoryPool, ticket: nat, clock: nat -> U64, draw: U64, platform: Platform, releases: Releases)
    returns (r: Result<Promotion>, ghost claimed: bool, ghost seen: Word)
    requires pool.Valid() && width > 0 && |elements| == Extent(count, width)
    modifies pool, pool.allBlocks, pool.controls, releases, set x | x in pool.allBlocks :: x.payload
    ensures pool.Valid()
    ensures r.Ok? <==> Obtainable(|elements|, claimed, platform) && !AcquireRefused(seen)
    ensures 0 < |elements| <= U64_MAX ==> ClaimedFits(claimed, old(pool.Candidates(|elements|)), clock)
    ensures old(AllQuiet(pool.controls)) ==> seen == 0
    ensures r.Err? ==> pool.View().inUse == old(pool.View().inUse)
    ensures r.Ok? ==>
      && Promoted(r.value, elements)
      && r.value.block !in old(pool.View().inUse) && pool.View().inUse == old(pool.View().inUse) + {r.value.block}
    ensures forall x | x in old(pool.View().inUse) :: x.payload[..] == old(x.payload[..])
  {
    hide SharedBufferMemoryPool.Valid, SharedBufferMemoryPool.View, SharedBufferMemoryPool.Candidates, SharedBufferMemoryPool.CanMap;
    hide Headers, QuietKept, ClaimedFits, AllQuiet, Promoted, Placed;
    claimed, seen := false, 0;
    UsedIsOwned(pool);
    ghost var headers := Headers(pool.controls);
    if AllQuiet(pool.controls) {
      QuietHeaders(pool.controls);
    }
    var bytes := ByteCount(count, width);
    if bytes.Err? {
      return Err(bytes.error), claimed, seen;
    }
    var target;
    target, claimed := AllocateRaw(pool, bytes.value, 1, ticket, clock, draw, platform);
    BytesAreElements(bytes.value);
    if target.Err? {
      return Err(target.error), claimed, seen;
    }
    MemoryIsDisjoint(pool, target.value.block);
    if target.value.block.control in headers && headers[target.value.block.control].pending == 0 {
      WordKept(headers, target.value.block.control);
    }
    r, seen := FillAndRead(target.value, elements, ticket, pool, releases);
  }

  // A buffer of `size` elements over `source`.
  ghost predicate Backed(buffer: SharedBuffer, source: Source, size: nat, width: nat)
    reads buffer
  {
    && buffer.Valid()
    && (buffer.heldControl == null || buffer.heldControl == buffer.control)
    && match source
       case Nothing => size == 0 && buffer.dataPtr.None?
       case Pooled(block) => size > 0 && Fronts(buffer, block) && block.payloadSize == Extent(size, width)
       case Imported(payload) =>
         && buffer.control != null && buffer.dataPtr.Some? && buffer.deleter.Some? && !buffer.writable
         && buffer.size == payload.Length == Extent(size, width)
  }

  lemma FrontBacks(buffer: SharedBuffer, block: Block, size: nat, width: nat)
    requires Fronts(buffer, block) && buffer.heldControl == null && size > 0 && block.payloadSize == Extent(size, width)
    ensures Backed(buffer, Pooled(block), size, width)
  {
  }

  // Move-assignment, as far as it concerns the backing.
  method MoveOver(buffer: SharedBuffer, other: SharedBuffer, ghost source: Source, ghost size: nat, ghost width: nat, releases: Releases)
    requires buffer.Valid() && other != buffer && Backed(other, source, size, width) && other.heldControl == null
    modifies buffer, other, releases, HeaderSet(buffer.heldControl)
    ensures Backed(buffer, source, size, width) && buffer.Local() == old(other.Local())
  {
    buffer.Assign(other, None, "", releases);
  }

  method MakeEmpty(width: U64, pool: SharedBufferMemoryPool) returns (impl: SharedBufferImpl)
    requires width > 0 && pool.Valid()
    ensures fresh(impl) && fresh(impl.buffer) && impl.Valid() && impl.pool == pool && impl.width == width
    ensures impl.size == 0 && impl.source == Nothing && impl.buffer.handleState == null
  {
    hide SharedBufferMemoryPool.Valid, SharedBufferMemoryPool.View;
    var empty := new SharedBuffer(None, 0, None, null, None, true, Identity(0, 0, 0, "", 0));
    impl := new SharedBufferImpl(width, pool, empty, 0, Nothing);
  }

  // A typed buffer over a new buffer.
  method MakeImpl(width: U64, pool: SharedBufferMemoryPool, a: Allocation, size: nat) returns (impl: SharedBufferImpl)
    requires size > 0 && width > 0 && pool.Valid() && Fronts(a.buffer, a.block) && a.buffer.heldControl == null
    requires a.block in pool.View().inUse && a.block.payloadSize == Extent(size, width)
    ensures fresh(impl) && impl.Valid() && impl.pool == pool && impl.width == width && impl.size == size
    ensures impl.buffer == a.buffer && impl.source == Pooled(a.block)
  {
    hide SharedBufferMemoryPool.Valid, SharedBufferMemoryPool.View;
    impl := new SharedBufferImpl(width, pool, a.buffer, size, Pooled(a.block));
  }

  class SharedBufferImpl {
    const width: U64
    const pool: SharedBufferMemoryPool
    const buffer: SharedBuffer
    var size: nat
    var source: Source

    ghost predicate Valid()
      reads this, buffer, pool, pool.allBlocks
    {
      && width > 0 && pool.Valid() && Backed(buffer, source, size, width)
      && BlockSet(source) <= pool.View().inUse
    }

    constructor (width: U64, pool: SharedBufferMemoryPool, buffer: SharedBuffer, size: nat, source: Source)
      ensures this.width == width && this.pool == pool && this.buffer == buffer && this.size == size && this.source == source
    {
      this.width, this.pool, this.buffer, this.size, this.source := width, pool, buffer, size, source;
    }

    function Bytes(): seq<Byte>
      reads this, if source.Pooled? then {source.block.payload} else if source.Imported? then {source.payload} else {}
    {
      match source
      case Nothing => []
      case Pooled(block) => block.payload[..]
      case Imported(payload) => payload[..]
    }

    lemma BytesFit()
      requires Valid()
      ensures |Bytes()| == Extent(size, width)
    {
    }

    lemma PoolIsValid()
      requires Valid()
      ensures width > 0 && pool.Valid()
    {
    }

    lemma SourceIsOwned()
      requires Valid()
      ensures forall x | x in BlockSet(source) :: x in pool.allBlocks
    {
      UsedIsOwned(pool);
    }

    // Move-assignment of a new buffer over the present one, whose deleter runs.
    method Replace(other: SharedBuffer, from: Source, count: nat, releases: Releases)
      requires Valid() && other != buffer && Backed(other, from, count, width) && other.heldControl == null
      requires BlockSet(from) <= pool.View().inUse - BlockSet(source)
      modifies this`size, this`source, buffer, other, releases, HeaderSet(buffer.control), pool`freeBlocks, BlockSet(source)`inUse
      ensures Valid() && size == count && source == from
      ensures buffer.Local() == old(other.Local())
      ensures pool.View().inUse == old(pool.View().inUse) - BlockSet(old(source))
    {
      hide SharedBufferMemoryPool.Valid, SharedBufferMemoryPool.View;
      var control := buffer.control;
      MoveOver(buffer, other, from, count, width, releases);
      GiveBack(source, control, pool);
      size, source := count, from;
    }

    // Copies the elements that fit into a new buffer; refused, the new block is back in the pool.
    method CopyInto(target: Allocation, count: nat, ticket: nat, releases: Releases) returns (r: Result<Allocation>, ghost seen: Word)
      requires Valid() && size > 0 && target.buffer != buffer && target.block.payload.Length == Extent(count, width) > 0
      requires Fronts(target.buffer, target.block) && target.buffer.handleState == null && target.buffer.heldControl == null
      requires target.block in pool.View().inUse - BlockSet(source)
      modifies buffer`handleState, StateSet(buffer.handleState), HeaderSet(buffer.control), releases
      modifies target.buffer, target.block.payload, pool`freeBlocks, target.block`inUse
      ensures Valid() && buffer.Local() == old(buffer.Local()) && Bytes() == old(Bytes())
      ensures r.Ok? <==> old(buffer.Local()).writing != InUse && !AcquireRefused(seen)
      ensures buffer.control != null && old(buffer.control.pending) == 0 ==> seen == old(buffer.control.readerState)
      ensures r.Err? ==> pool.View().inUse == old(pool.View().inUse) - {target.block}
      ensures r.Ok? ==>
        && r.value == target && pool.View().inUse == old(pool.View().inUse)
        && Fronts(target.buffer, target.block) && target.buffer.heldControl == null && target.buffer.Local() == Local(Finalized, 0)
        && Agree(target.block.payload[..], Bytes())
    {
      hide SharedBufferMemoryPool.Valid, SharedBufferMemoryPool.View, Agree;
      var n := Extent(Min(count, size), width);
      ExtentGrows(Min(count, size), size, width);
      ExtentGrows(Min(count, size), count, width);
      ExtentCovers(Min(count, size), width);
      var payload := if source.Pooled? then source.block.payload else source.payload;
      r, seen := FillOrDiscard(buffer, payload, target, n, ticket, pool, releases);
      if r.Ok? {
        assert target.block.payload[..][..n] == target.block.payload[..n] && payload[..][..n] == payload[..n];
        AgreeOnPrefix(target.block.payload[..], payload[..], n);
      }
    }

    // The same, for a buffer that may be empty and then has nothing to copy.
    method CopyAny(target: Allocation, count: nat, ticket: nat, releases: Releases) returns (r: Result<Allocation>, ghost seen: Word)
      requires Valid() && target.buffer != buffer && target.block.payload.Length == Extent(count, width) > 0
      requires Fronts(target.buffer, target.block) && target.buffer.handleState == null && target.buffer.heldControl == null
      requires target.block in pool.View().inUse - BlockSet(source)
      modifies buffer`handleState, StateSet(buffer.handleState), HeaderSet(buffer.control), releases
      modifies target.buffer, target.block.payload, pool`freeBlocks, target.block`inUse
      ensures Valid() && buffer.Local() == old(buffer.Local()) && Bytes() == old(Bytes())
      ensures r.Ok? <==> (size > 0 ==> old(buffer.Local()).writing != InUse && !AcquireRefused(seen))
      ensures buffer.control != null && old(buffer.control.pending) == 0 ==> seen == old(buffer.control.readerState)
      ensures r.Err? ==> pool.View().inUse == old(pool.View().inUse) - {target.block}
      ensures r.Ok? ==>
        && r.value == target && pool.View().inUse == old(pool.View().inUse)
        && Fronts(target.buffer, target.block) && target.buffer.heldControl == null
        && target.buffer.Local() == (if size > 0 then Local(Finalized, 0) else UNUSED)
        && Agree(target.block.payload[..], Bytes())
    {
      hide SharedBufferMemoryPool.Valid, SharedBufferMemoryPool.View, Agree;
      if size > 0 {
        r, seen := CopyInto(target, count, ticket, releases);
      } else {
        NothingToAgreeOn(target.block.payload[..], Bytes());
        r, seen := Ok(target), if buffer.control == null then 0 else buffer.control.readerState;
      }
    }

    // A new buffer for `count` elements; this one, and the word of every quiet header, stay as they were.
    method Obtain(count: nat, ticket: nat, clock: nat -> U64, draw: U64, platform: Platform)
      returns (r: Result<Allocation>, ghost claimed: bool)
      requires Valid()
      modifies pool, pool.allBlocks, pool.controls
      ensures Valid() && Bytes() == old(Bytes())
      ensures r.Ok? <==> Obtainable(Extent(count, width), claimed, platform)
      ensures 0 < Extent(count, width) <= U64_MAX ==> ClaimedFits(claimed, old(pool.Candidates(Extent(count, width))), clock)
      ensures buffer.control != null && old(buffer.control.pending) == 0 ==>
        buffer.control.pending == 0 && buffer.control.readerState == old(buffer.control.readerState)
      ensures r.Err? ==> pool.View().inUse == old(pool.View().inUse)
      ensures r.Ok? ==>
        && fresh(r.value.buffer) && Allocated(r.value, Extent(count, width), pool, old(pool.View().inUse))
        && r.value.block !in BlockSet(source)
        && (r.value.block in old(pool.allBlocks) || (fresh(r.value.block) && fresh(r.value.block.payload)))
        && (forall x | x in old(pool.View().inUse) :: x.payload != r.value.block.payload)
      ensures forall x | x in old(pool.View().inUse) :: x.payload[..] == old(x.payload[..])
    {
      hide SharedBufferMemoryPool.Valid, SharedBufferMemoryPool.View, SharedBufferMemoryPool.Candidates, Headers;
      hide QuietKept, ClaimedFits, Obtainable, Placed;
      UsedIsOwned(pool);
      ghost var headers := Headers(pool.controls);
      if buffer.control != null && buffer.control in pool.controls {
        HeaderListed(pool.controls, buffer.control);
      }
      r, claimed := AllocateRaw(pool, count, width, ticket, clock, draw, platform);
      if r.Ok? {
        MemoryIsDisjoint(pool, r.value.block);
      }
      if buffer.control != null && buffer.control in headers && headers[buffer.control].pending == 0 {
        WordKept(headers, buffer.control);
      }
    }

    // A new buffer that starts with the elements of this one, as many as fit.
    method Prepare(count: nat, ticket: nat, clock: nat -> U64, draw: U64, platform: Platform, releases: Releases)
      returns (r: Result<Allocation>, ghost claimed: bool, ghost seen: Word)
      requires Valid()
      modifies buffer`handleState, StateSet(buffer.handleState), HeaderSet(buffer.control), releases
      modifies pool, pool.allBlocks, pool.controls, set x | x in pool.allBlocks :: x.payload
      ensures Valid() && buffer.Local() == old(buffer.Local()) && Bytes() == old(Bytes())
      ensures r.Ok? <==> Obtainable(Extent(count, width), claimed, platform) && (size > 0 ==> old(buffer.Local()).writing != InUse && !AcquireRefused(seen))
      ensures 0 < Extent(count, width) <= U64_MAX ==> ClaimedFits(claimed, old(pool.Candidates(Extent(count, width))), clock)
      ensures buffer.control != null && old(buffer.control.pending) == 0 ==> seen == old(buffer.control.readerState)
      ensures r.Err? ==> pool.View().inUse == old(pool.View().inUse)
      ensures r.Ok? ==>
        && fresh(r.value.buffer) && Fronts(r.value.buffer, r.value.block) && r.value.buffer.heldControl == null
        && r.value.block.payload.Length == Extent(count, width) && Taken(r.value.block, Extent(count, width), pool)
        && pool.View().inUse == old(pool.View().inUse) + {r.value.block} && r.value.block !in old(pool.View().inUse) && r.value.block !in BlockSet(source)
        && r.value.buffer.Local() == (if size > 0 then Local(Finalized, 0) else UNUSED)
        && Agree(r.value.block.payload[..], Bytes())
      ensures forall x | x in old(pool.View().inUse) :: x.payload[..] == old(x.payload[..])
    {
      hide SharedBufferImpl.Valid, SharedBufferMemoryPool.Valid, SharedBufferMemoryPool.View, SharedBufferMemoryPool.Candidates;
      hide ClaimedFits, Obtainable, Agree;
      seen := if buffer.control == null then 0 else buffer.control.readerState;
      UsedIsOwned(pool);
      r, claimed := Obtain(count, ticket, clock, draw, platform);
      if r.Ok? {
        r, seen := CopyAny(r.value, count, ticket, releases);
      }
    }

    // Refused, it changes nothing anyone can see; done, it keeps the elements that fit. Either way no
    // other buffer's memory changes. A buffer resized with its contents is finalised: it grants no writer.
    method Resize(count: nat, ticket: nat, clock: nat -> U64, draw: U64, platform: Platform, releases: Releases)
      returns (r: Result<()>, ghost claimed: bool, ghost seen: Word)
      requires Valid()
      modifies this`size, this`source, buffer, releases, StateSet(buffer.handleState), HeaderSet(buffer.control)
      modifies pool, pool.allBlocks, pool.controls, set x | x in pool.allBlocks :: x.payload
      ensures Valid()
      ensures r.Ok? <==>
        || count == old(size) || count == 0
        || (Obtainable(Extent(count, width), claimed, platform) &&
            (old(size) > 0 ==> old(buffer.Local()).writing != InUse && !AcquireRefused(seen)))
      ensures count != old(size) && 0 < Extent(count, width) <= U64_MAX ==>
        ClaimedFits(claimed, old(pool.Candidates(Extent(count, width))), clock)
      ensures old(buffer.control) != null && old(buffer.control.pending) == 0 ==> seen == old(buffer.control.readerState)
      ensures r.Err? || count == old(size) ==>
        && size == old(size) && source == old(source) && Bytes() == old(Bytes())
        && buffer.Local() == old(buffer.Local()) && pool.View().inUse == old(pool.View().inUse)
        && buffer.Value().(state := None) == old(buffer.Value().(state := None))
      ensures r.Ok? && count != old(size) ==>
        && size == count && |Bytes()| == Extent(count, width)
        && (forall i | 0 <= i < |Bytes()| && i < |old(Bytes())| :: Bytes()[i] == old(Bytes())[i])
        && BlockSet(source) !! old(pool.View().inUse)
        && pool.View().inUse == old(pool.View().inUse) - BlockSet(old(source)) + BlockSet(source)
        && buffer.Local() == (if count > 0 && old(size) > 0 then Local(Finalized, 0) else UNUSED)
      ensures forall x | x in old(pool.View().inUse) :: x.payload[..] == old(x.payload[..])
    {
      hide SharedBufferMemoryPool.Valid, SharedBufferMemoryPool.View, SharedBufferMemoryPool.Candidates, Headers, QuietKept;
      hide ClaimedFits, BlockFits, Obtainable, Agree;
      claimed, seen := false, if buffer.control == null then 0 else buffer.control.readerState;
      UsedIsOwned(pool);
      if count == size {
        return Ok(()), claimed, seen;
      }
      if count == 0 {
        Clear(releases);
        return Ok(()), claimed, seen;
      }
      r, claimed, seen := Refit(count, ticket, clock, draw, platform, releases);
    }

    // Resizing proper: to another size, and not to nothing.
    method Refit(count: nat, ticket: nat, clock: nat -> U64, draw: U64, platform: Platform, releases: Releases)
      returns (r: Result<()>, ghost claimed: bool, ghost seen: Word)
      requires Valid() && count > 0
      modifies this`size, this`source, buffer, releases, StateSet(buffer.handleState), HeaderSet(buffer.control)
      modifies pool, pool.allBlocks, pool.controls, set x | x in pool.allBlocks :: x.payload
      ensures Valid()
      ensures r.Ok? <==>
        Obtainable(Extent(count, width), claimed, platform) &&
        (old(size) > 0 ==> old(buffer.Local()).writing != InUse && !AcquireRefused(seen))
      ensures 0 < Extent(count, width) <= U64_MAX ==> ClaimedFits(claimed, old(pool.Candidates(Extent(count, width))), clock)
      ensures old(buffer.control) != null && old(buffer.control.pending) == 0 ==> seen == old(buffer.control.readerState)
      ensures r.Err? ==>
        && size == old(size) && source == old(source) && Bytes() == old(Bytes())
        && buffer.Local() == old(buffer.Local()) && pool.View().inUse == old(pool.View().inUse)
        && buffer.Value().(state := None) == old(buffer.Value().(state := None))
      ensures r.Ok? ==>
        && size == count && |Bytes()| == Extent(count, width)
        && (forall i | 0 <= i < |Bytes()| && i < |old(Bytes())| :: Bytes()[i] == old(Bytes())[i])
        && BlockSet(source) !! old(pool.View().inUse)
        && pool.View().inUse == old(pool.View().inUse) - BlockSet(old(source)) + BlockSet(source)
        && buffer.Local() == (if old(size) > 0 then Local(Finalized, 0) else UNUSED)
      ensures forall x | x in old(pool.View().inUse) :: x.payload[..] == old(x.payload[..])
    {
      hide SharedBufferImpl.Valid, Backed, SharedBufferMemoryPool.Valid, SharedBufferMemoryPool.View, SharedBufferMemoryPool.Candidates, Headers;
      hide QuietKept, ClaimedFits, BlockFits, Obtainable, Agree, Fronts;
      SourceIsOwned();
      UsedIsOwned(pool);
      var prepared;
      prepared, claimed, seen := Prepare(count, ticket, clock, draw, platform, releases);
      if prepared.Ok? {
        BytesFit();
        AgreeMeans(prepared.value.block.payload[..], Bytes());
        FrontBacks(prepared.value.buffer, prepared.value.block, count, width);
        Replace(prepared.value.buffer, Pooled(prepared.value.block), count, releases);
        r := Ok(());
      } else {
        r := Err(prepared.error);
      }
    }

    method Clear(releases: Releases)
      requires Valid()
      modifies this`size, this`source, buffer, releases, HeaderSet(buffer.control), pool`freeBlocks, BlockSet(source)`inUse
      ensures Valid() && size == 0 && source == Nothing && Bytes() == [] && buffer.Local() == UNUSED
      ensures pool.View().inUse == old(pool.View().inUse) - BlockSet(old(source))
    {
      hide SharedBufferMemoryPool.Valid, SharedBufferMemoryPool.View;
      var empty := new SharedBuffer(None, 0, None, null, None, true, Identity(0, 0, 0, "", 0));
      Replace(empty, Nothing, 0, releases);
    }

    // A second buffer with the same bytes, finalised unless it is empty; this one keeps its own.
    method Clone(ticket: nat, clock: nat -> U64, draw: U64, platform: Platform, releases: Releases)
      returns (r: Result<SharedBufferImpl>, ghost claimed: bool, ghost seen: Word)
      requires Valid()
      modifies buffer`handleState, StateSet(buffer.handleState), HeaderSet(buffer.control), releases
      modifies pool, pool.allBlocks, pool.controls, set x | x in pool.allBlocks :: x.payload
      ensures Valid() && buffer.Local() == old(buffer.Local()) && Bytes() == old(Bytes())
      ensures r.Ok? <==>
        || size == 0
        || (Obtainable(Extent(size, width), claimed, platform) && old(buffer.Local()).writing != InUse && !AcquireRefused(seen))
      ensures 0 < Extent(size, width) <= U64_MAX ==> ClaimedFits(claimed, old(pool.Candidates(Extent(size, width))), clock)
      ensures buffer.control != null && old(buffer.control.pending) == 0 ==> seen == old(buffer.control.readerState)
      ensures r.Err? ==> pool.View().inUse == old(pool.View().inUse)
      ensures r.Ok? ==>
        && fresh(r.value) && fresh(r.value.buffer) && r.value.Valid() && r.value.pool == pool && r.value.width == width
        && r.value.size == size && r.value.Bytes() == Bytes()
        && BlockSet(r.value.source) !! old(pool.View().inUse)
        && pool.View().inUse == old(pool.View().inUse) + BlockSet(r.value.source)
        && r.value.buffer.Local() == (if size > 0 then Local(Finalized, 0) else UNUSED)
      ensures forall x | x in old(pool.View().inUse) :: x.payload[..] == old(x.payload[..])
    {
      hide SharedBufferImpl.Valid, Backed;
      hide SharedBufferMemoryPool.Valid, SharedBufferMemoryPool.View, SharedBufferMemoryPool.Candidates, Headers, QuietKept;
      hide ClaimedFits, BlockFits, Obtainable, Agree, Fronts;
      claimed, seen := false, if buffer.control == null then 0 else buffer.control.readerState;
      SourceIsOwned();
      UsedIsOwned(pool);
      if size == 0 {
        PoolIsValid();
        BytesFit();
        var copy := MakeEmpty(width, pool);
        return Ok(copy), claimed, seen;
      }
      var prepared;
      prepared, claimed, seen := Prepare(size, ticket, clock, draw, platform, releases);
      if prepared.Ok? {
        PoolIsValid();
        BytesFit();
        AgreeingWhole(prepared.value.block.payload[..], Bytes());
        var copy := MakeImpl(width, pool, prepared.value, size);
        r := Ok(copy);
      } else {
        r := Err(prepared.error);
      }
    }

    // The bytes in ordinary memory.
    method ToCpu(ticket: nat, releases: Releases) returns (r: Result<array<Byte>>, ghost seen: Word)
      requires Valid()
      modifies buffer`handleState, StateSet(buffer.handleState), HeaderSet(buffer.control), releases
      ensures Valid() && buffer.Local() == old(buffer.Local()) && Bytes() == old(Bytes())
      ensures r.Ok? <==> size == 0 || (old(buffer.Local()).writing != InUse && !AcquireRefused(seen))
      ensures buffer.control != null && old(buffer.control.pending) == 0 ==> seen == old(buffer.control.readerState)
      ensures r.Ok? ==> fresh(r.value) && r.value[..] == Bytes()
      ensures buffer.control != null ==> size > 0 ==> buffer.control.taken == old(buffer.control.taken)
    {
      hide SharedBufferMemoryPool.Valid, SharedBufferMemoryPool.View;
      seen := if buffer.control == null then 0 else buffer.control.readerState;
      var cpu := new Byte[Extent(size, width)](_ => 0);
      ExtentCovers(size, width);
      if size > 0 {
        var payload := if source.Pooled? then source.block.payload else source.payload;
        r, seen := CopyOut(buffer, payload, cpu, ticket, releases);
      } else {
        r := Ok(cpu);
      }
    }
  }
}
