// A buffer's way between processes: allocated and described by its publisher, imported by a subscriber,
// described again by a relay.

module RoundTrips {
  import opened Bytes
  import opened ControlWord
  import opened Outcome
  import opened HandleSpec
  import opened SharedHeader
  import opened Handles
  import opened MemoryPool
  import opened Import
  import opened Naming
  import opened Contents
  import opened Descriptors

  // ---- Relaying ----

  // Describing what was imported from `d`: it is `d`, as long as the header names the generation.
  method Relay(d: Descriptor, buffer: SharedBuffer, pool: SharedBufferMemoryPool, broker: FdBroker, listening: bool, draw: U64, now: U64)
    returns (relayed: Option<Descriptor>)
    requires pool.Valid() && broker.Valid() && broker.pid > 0
    requires WellFormed(d) && buffer.size == d.size && buffer.identity == Identity(d.blockId, d.blockSize, d.pid, d.ipcName, d.ipcUid)
    requires buffer.control != null && buffer.handleState == null
    modifies buffer.control, broker
    modifies pool.allBlocks`currentUid, pool.controls`ipcUid, pool.controls`publishTimestampUs, pool.controls`stampedUid
    ensures broker.Valid()
    ensures relayed.Some? ==> relayed == Some(d)
    ensures old(buffer.control.pending) == 0 ==>
      && buffer.control.readerState == old(buffer.control.readerState)
      && (relayed.Some? <==>
            && buffer.control.magic == 0x5348_4152_4542_5546 && buffer.control.abiVersion == 3
            && buffer.control.payloadSize == d.size && old(buffer.control.ipcUid) == d.ipcUid)
      && (relayed.Some? ==> buffer.control.publishTimestampUs == now)
  {
    hide SharedBufferMemoryPool.Valid, FdBroker.Valid;
    ghost var found;
    relayed, found := CreateDescriptor(true, buffer, buffer.size, pool, broker, listening, draw, now);
  }

  // A relay runs in its own process: what the descriptor it imports names is forwarded as it came. It
  // fails only where the import fails, unless other processes interfere.
  method ImportAndRelay(d: Descriptor, cache: HandleCache, resolve: map<string, Region>, ticket: nat,
    pool: SharedBufferMemoryPool, broker: FdBroker, listening: bool, draw: U64, now: U64)
    returns (imported: Result<SharedBuffer>, relayed: Option<Descriptor>)
    requires cache.Valid() && pool.Valid() && broker.Valid() && broker.pid > 0
    modifies cache, Import.Headers(cache, resolve), broker
    modifies pool.allBlocks`currentUid, pool.controls`ipcUid, pool.controls`publishTimestampUs, pool.controls`stampedUid
    ensures cache.Valid() && broker.Valid()
    ensures relayed.Some? ==> imported.Ok? && relayed == Some(d)
    ensures
      var target := Target(old(cache.entries), resolve, d);
      target.Some? && old(target.value.0.pending) == 0 ==>
        && (relayed.Some? <==> imported.Ok?)
        && (imported.Ok? <==> WellFormed(d) && old(Accepts(d, target.value.0, target.value.1)) && !AcquireRefused(old(target.value.0.readerState)))
        && (imported.Ok? ==>
              && !imported.value.writable && imported.value.size == d.size && imported.value.control == target.value.0
              && (Key(d.pid, d.blockId, d.ipcName) !in old(cache.entries) ==>
                    imported.value.dataPtr == Some(resolve[d.ipcName].mapping + 64) && imported.value.owner == Some(resolve[d.ipcName].handle))
              && imported.value.control.readerState == old(target.value.0.readerState) + 1
              && imported.value.control.publishTimestampUs == now)
  {
    hide SharedBufferMemoryPool.Valid, FdBroker.Valid;
    var region;
    imported, region := FromDescriptor(d, cache, resolve, ticket);
    relayed := None;
    if imported.Ok? {
      relayed := Relay(d, imported.value, pool, broker, listening, draw, now);
    }
  }

  // ---- Publishing ----

  // The operating system maps nothing over what is mapped already.
  predicate MapsApart(platform: Platform, bytes: nat, blocks: seq<Block>) {
    platform.Granted? ==> forall x | x in blocks ::
      platform.base + 64 + bytes <= x.mapping || x.mapping + x.mappedSize <= platform.base
  }

  lemma PlacementKeepsDisjoint(before: seq<Block>, after: seq<Block>, block: Option<Block>, platform: Platform, bytes: nat)
    requires DisjointMappings(before) && MapsApart(platform, bytes, before) && Placed(before, after, block, platform)
    requires block.Some? ==> block.value.mappedSize == 64 + bytes
    ensures DisjointMappings(after)
  {
    if block.Some? && block.value !in before {
      GrantKeepsDisjoint(before, block.value);
    }
  }

  // The buffer made of a block shows that block and no other, byte for byte.
  lemma FrontShowsItsBlock(pool: SharedBufferMemoryPool, buffer: SharedBuffer, block: Block, x: Block, k: nat)
    requires pool.Valid() && DisjointMappings(pool.allBlocks) && block in pool.allBlocks && x in pool.allBlocks
    requires Fronts(buffer, block) && k < buffer.size
    ensures x.Contains(buffer.dataPtr.value + k) <==> x == block
  {
    OwnedFits(pool, block);
    LookupInvertsPayloadAddress(pool.allBlocks, block, x, k);
  }

  lemma BlockIsFound(pool: SharedBufferMemoryPool, buffer: SharedBuffer, block: Block, found: Option<Block>)
    requires pool.Valid() && DisjointMappings(pool.allBlocks) && block in pool.allBlocks && Fronts(buffer, block)
    requires if found.Some? then found.value in pool.allBlocks && buffer.dataPtr.Some? && found.value.Contains(buffer.dataPtr.value)
             else buffer.dataPtr.None? || forall x | x in pool.allBlocks :: !x.Contains(buffer.dataPtr.value)
    ensures found == Some(block)
  {
    OwnedFits(pool, block);
    FrontShowsItsBlock(pool, buffer, block, block, 0);
    if found.Some? {
      FrontShowsItsBlock(pool, buffer, block, found.value, 0);
    }
  }

  // Describing a buffer describes the block it was made of, and every import accepts what it says.
  method DescribeFront(a: Allocation, bytes: U64, pool: SharedBufferMemoryPool, broker: FdBroker, listening: bool, draw: U64, now: U64)
    returns (d: Option<Descriptor>)
    requires pool.Valid() && DisjointMappings(pool.allBlocks) && a.block in pool.allBlocks && Fronts(a.buffer, a.block) && a.block.payloadSize == bytes
    requires broker.Valid() && broker.pid > 0
    modifies StateSet(a.buffer.handleState), a.block.control, broker
    modifies pool.allBlocks`currentUid, pool.controls`ipcUid, pool.controls`publishTimestampUs, pool.controls`stampedUid
    ensures broker.Valid()
    ensures d.Some? <==> a.block.nativeHandle >= 0 && (a.block.blockId in old(broker.registeredBlocks) || listening)
    ensures d.Some? ==>
      && a.block.blockId in broker.registeredBlocks
      && d.value == Descriptor(bytes, "h", broker.pid, a.block.blockId, 64 + bytes, broker.registeredBlocks[a.block.blockId], a.block.currentUid)
      && WellFormed(d.value) && Accepts(d.value, a.block.control, 64 + bytes)
      && a.block.control.publishTimestampUs == now
    ensures a.block.control.readerState == old(a.block.control.readerState) && a.block.control.pending == old(a.block.control.pending)
  {
    hide SharedBufferMemoryPool.Valid, FdBroker.Valid, WellFormed, Accepts, DisjointMappings;
    OwnedFits(pool, a.block);
    ghost var found;
    d, found := CreateDescriptor(true, a.buffer, bytes, pool, broker, listening, draw, now);
    BlockIsFound(pool, a.buffer, a.block, found);
  }

  lemma PlacedAmong(before: seq<Block>, after: seq<Block>, block: Option<Block>, platform: Platform)
    requires Placed(before, after, block, platform)
    ensures forall i | 0 <= i < |after| :: after[i] in before || block == Some(after[i])
  {
  }

  lemma OnlyItsBlock(pool: SharedBufferMemoryPool, buffer: SharedBuffer, block: Block)
    requires pool.Valid() && DisjointMappings(pool.allBlocks) && block in pool.allBlocks && Fronts(buffer, block)
    ensures OwnsRange(pool.allBlocks, block, buffer.size)
  {
    forall x: Block, address: nat | x in pool.allBlocks && block.mapping + 64 <= address < block.mapping + 64 + buffer.size
      ensures x.Contains(address) <==> x == block
    {
      FrontShowsItsBlock(pool, buffer, block, x, address - block.mapping - 64);
    }
  }

  // The `n` bytes behind the header of `block` are in that block only.
  ghost predicate OwnsRange(blocks: seq<Block>, block: Block, n: nat) {
    forall x: Block, address: nat | x in blocks && block.mapping + 64 <= address < block.mapping + 64 + n ::
      x.Contains(address) <==> x == block
  }

  // Allocated and described: what is described is what was allocated, in a pool whose mappings stay apart.
  method Publish(pool: SharedBufferMemoryPool, count: nat, width: U64, ticket: nat, clock: nat -> U64, draw: U64, platform: Platform,
    broker: FdBroker, listening: bool, now: U64)
    returns (r: Result<Allocation>, d: Option<Descriptor>, ghost claimed: bool)
    requires pool.Valid() && width > 0 && broker.Valid() && broker.pid > 0
    requires DisjointMappings(pool.allBlocks) && MapsApart(platform, Extent(count, width), pool.allBlocks)
    modifies pool, pool.allBlocks, pool.controls, broker
    ensures pool.Valid() && broker.Valid() && DisjointMappings(pool.allBlocks)
    ensures r.Ok? <==> Obtainable(Extent(count, width), claimed, platform)
    ensures 0 < Extent(count, width) <= U64_MAX ==> ClaimedFits(claimed, old(pool.Candidates(Extent(count, width))), clock)
    ensures d.Some? ==> r.Ok?
    ensures r.Ok? ==>
      var block := r.value.block;
      && (d.Some? <==> block.nativeHandle >= 0 && (block.blockId in old(broker.registeredBlocks) || listening))
      && (d.Some? ==>
            && block.blockId in broker.registeredBlocks
            && d.value == Descriptor(block.payloadSize, "h", broker.pid, block.blockId, block.mappedSize, broker.registeredBlocks[block.blockId], block.currentUid)
            && WellFormed(d.value) && Accepts(d.value, block.control, block.mappedSize))
      && block.payloadSize == Extent(count, width) && block.mappedSize == 64 + block.payloadSize
      && block.control.readerState == 0 && (old(AllQuiet(pool.controls)) ==> block.control.pending == 0)
      && block in pool.allBlocks && OwnsRange(pool.allBlocks, block, block.payloadSize)
      && (block.control in old(pool.controls) || fresh(block.control))
  {
    hide SharedBufferMemoryPool.Valid, SharedBufferMemoryPool.Candidates, FdBroker.Valid, WellFormed, Accepts, DisjointMappings, MapsApart;
    hide Placed, QuietKept, MemoryPool.Headers, AllQuiet, ClaimedFits, Obtainable, OwnsRange;
    ghost var headers := MemoryPool.Headers(pool.controls);
    if AllQuiet(pool.controls) {
      QuietHeaders(pool.controls);
    }
    r, claimed := AllocateRaw(pool, count, width, ticket, clock, draw, platform);
    d := None;
    if r.Err? {
      PlacementKeepsDisjoint(old(pool.allBlocks), pool.allBlocks, None, platform, Extent(count, width));
    } else {
      PlacedAmong(old(pool.allBlocks), pool.allBlocks, Some(r.value.block), platform);
      PlacementKeepsDisjoint(old(pool.allBlocks), pool.allBlocks, Some(r.value.block), platform, Extent(count, width));
      if r.value.block.control in headers && headers[r.value.block.control].pending == 0 {
        WordKept(headers, r.value.block.control);
      }
      OnlyItsBlock(pool, r.value.buffer, r.value.block);
      d := DescribeFront(r.value, r.value.block.payloadSize, pool, broker, listening, draw, now);
    }
  }

  lemma OneHeader(cache: HandleCache, resolve: map<string, Region>, name: string)
    requires cache.entries == map[] && resolve.Keys == {name}
    ensures Import.Headers(cache, resolve) == {resolve[name].control}
  {
    assert resolve[name].control in (set n | n in resolve :: resolve[n].control);
  }

  // The whole way, while nobody interferes: a buffer is allocated and described, a subscriber that maps the
  // name imports it, read-only, holding one reference, and describes it exactly as the publisher did.
  method Deliver(pool: SharedBufferMemoryPool, count: nat, width: U64, ticket: nat, clock: nat -> U64, draw: U64, platform: Platform,
    broker: FdBroker, listening: bool, now: U64, theirs: SharedBufferMemoryPool, relay: FdBroker, handle: nat, mapping: nat, later: U64)
    returns (r: Result<Allocation>, d: Option<Descriptor>, imported: Result<SharedBuffer>, relayed: Option<Descriptor>)
    requires pool.Valid() && width > 0 && broker.Valid() && broker.pid > 0
    requires DisjointMappings(pool.allBlocks) && MapsApart(platform, Extent(count, width), pool.allBlocks)
    requires theirs.Valid() && relay.Valid() && relay.pid > 0 && theirs != pool && relay != broker
    requires theirs.controls !! pool.controls && forall i | 0 <= i < |theirs.allBlocks| :: theirs.allBlocks[i] !in pool.allBlocks
    modifies pool, pool.allBlocks, pool.controls, broker
    modifies relay, theirs.allBlocks, theirs.controls
    ensures old(AllQuiet(pool.controls)) && d.Some? ==>
      && imported.Ok? && relayed == d
      && !imported.value.writable && imported.value.size == Extent(count, width)
      && imported.value.dataPtr == Some(mapping + 64) && imported.value.owner == Some(handle)
      && r.Ok? && imported.value.control == r.value.block.control && imported.value.control.readerState == 1
  {
    hide SharedBufferMemoryPool.Valid, SharedBufferMemoryPool.Candidates, FdBroker.Valid, WellFormed, Accepts, DisjointMappings, MapsApart;
    hide AllQuiet, ClaimedFits, Obtainable, OwnsRange;
    imported, relayed := Err(RuntimeError), None;
    ghost var claimed;
    r, d, claimed := Publish(pool, count, width, ticket, clock, draw, platform, broker, listening, now);
    if d.Some? {
      var block := r.value.block;
      var cache := new HandleCache();
      var resolve := map[d.value.ipcName := Region(block.control, block.mappedSize, handle, mapping)];
      OneHeader(cache, resolve, d.value.ipcName);
      imported, relayed := ImportAndRelay(d.value, cache, resolve, ticket, theirs, relay, false, draw, later);
    }
  }
}
