// Describing a buffer: the owner's path, which publishes a generation, and the relay's path, which
// forwards the descriptor an import came from.

module Descriptors {
  import opened WriteState
  import opened Bytes
  import opened Outcome
  import opened HandleSpec
  import opened SharedHeader
  import opened Handles
  import opened MemoryPool
  import opened Import
  import opened Naming

  // ---- Forwarding ----

  predicate HasIpcDescriptor(identity: Identity) {
    identity.ipcPid > 0 && identity.ipcName != "" && identity.ipcUid != 0
  }

  // What a relay sends on.
  function Forwarded<S, C>(b: Buffer<S, C>): Descriptor
    requires b.size <= U64_MAX
  {
    Descriptor(b.size, ELEMENT_TYPE, b.identity.ipcPid, b.identity.blockId, b.identity.mappedSize, b.identity.ipcName, b.identity.ipcUid)
  }

  // Importing and describing again gives back the descriptor, field by field: a relay is transparent.
  lemma RelayFixedPoint(d: Descriptor, control: ControlHeader, address: nat, mapping: nat, ticket: nat)
    requires WellFormed(d)
    ensures
      var b := ImportedAs(d, control, address, mapping, ticket);
      HasIpcDescriptor(b.identity) && Forwarded(b) == d
  {
  }

  // A chain of relays: each imports what the one before it described, in its own address space.
  predicate IsRelayChain(ds: seq<Descriptor>, buffers: seq<Buffer<HandleState, ControlHeader>>) {
    && |ds| == |buffers| + 1
    && forall i | 0 <= i < |buffers| :: IsImportOf(buffers[i], ds[i]) && ds[i + 1] == Forwarded(buffers[i])
  }

  predicate IsImportOf(b: Buffer<HandleState, ControlHeader>, d: Descriptor) {
    && b.data.Some? && b.control.Some? && b.owner.Some? && b.deleter.Some?
    && b == ImportedAs(d, b.control.value, b.data.value, b.owner.value, b.deleter.value.ticket)
  }

  lemma {:induction false} RelayChainIsTransparent(ds: seq<Descriptor>, buffers: seq<Buffer<HandleState, ControlHeader>>, i: nat)
    requires IsRelayChain(ds, buffers) && WellFormed(ds[0]) && i <= |buffers|
    ensures ds[i] == ds[0]
  {
    if i > 0 {
      RelayChainIsTransparent(ds, buffers, i - 1);
      var b := buffers[i - 1];
      assert IsImportOf(b, ds[i - 1]);
      RelayFixedPoint(ds[i - 1], b.control.value, b.data.value, b.owner.value, b.deleter.value.ticket);
    }
  }

  // Forwards without a new generation: only the stamp is refreshed.
  method DescribeRelay(buffer: SharedBuffer, pool: SharedBufferMemoryPool, now: U64) returns (r: Option<Descriptor>, ghost uid: U64)
    requires buffer.size <= U64_MAX
    modifies HeaderSet(buffer.control)
    ensures r.Some? ==>
      && r.value == Forwarded(buffer.Value())
      && buffer.control != null && buffer.control.ipcUid == uid == buffer.identity.ipcUid && buffer.control.publishTimestampUs == now && buffer.control.stampedUid == uid
    ensures buffer.control != null && old(buffer.control.pending) == 0 ==>
      && (r.Some? <==>
            && buffer.control.magic == 0x5348_4152_4542_5546 && buffer.control.abiVersion == 3
            && buffer.control.payloadSize == buffer.size && old(buffer.control.ipcUid) == buffer.identity.ipcUid)
      && buffer.control.ipcUid == old(buffer.control.ipcUid) && buffer.control.readerState == old(buffer.control.readerState)
      && buffer.control.publishTimestampUs == if r.Some? then now else old(buffer.control.publishTimestampUs)
    ensures buffer.control != null ==> buffer.control.taken == old(buffer.control.taken)
  {
    uid := 0;
    if buffer.control == null {
      return None, uid;
    }
    var control: ControlHeader := buffer.control;
    control.Interfere();
    uid := control.ipcUid;
    if control.magic != CONTROL_MAGIC || control.abiVersion != CONTROL_ABI_VERSION || control.payloadSize != buffer.size || control.ipcUid != buffer.identity.ipcUid {
      return None, uid;
    }
    pool.RefreshPublishTimestamp(control, now);
    r := Some(Descriptor(buffer.size, ELEMENT_TYPE, buffer.identity.ipcPid, buffer.identity.blockId, buffer.identity.mappedSize,
      buffer.identity.ipcName, buffer.identity.ipcUid));
  }

  // ---- Publishing ----

  // The block whose memory a buffer shows.
  predicate Shows(buffer: SharedBuffer, block: Block)
    reads buffer
  {
    buffer.dataPtr == Some(block.mapping + PAYLOAD_OFFSET)
  }

  // The lookup finds it, since mappings are disjoint.
  lemma ShownBlockIsFound(pool: SharedBufferMemoryPool, buffer: SharedBuffer, block: Block, found: Block)
    requires pool.BlocksFit() && DisjointMappings(pool.allBlocks) && block in pool.allBlocks && found in pool.allBlocks
    requires Shows(buffer, block) && buffer.dataPtr.Some?
    ensures found.Contains(buffer.dataPtr.value) <==> found == block
  {
    assert BlockFits(block, pool.controls);
    LookupInvertsPayloadAddress(pool.allBlocks, block, found, 0);
  }

  // Descriptor `d` names the present generation of `block`, by its registered path, as the header does.
  predicate Publishes(d: Descriptor, size: U64, block: Block, broker: FdBroker)
    reads broker, block, block.control
  {
    && d.size == size && d.blockId == block.blockId && d.blockSize == block.mappedSize
    && d.pid == broker.pid && d.elementType == ELEMENT_TYPE
    && d.blockId in broker.registeredBlocks && d.ipcName == broker.registeredBlocks[d.blockId]
    && d.ipcUid == block.currentUid == block.control.ipcUid != 0
  }

  lemma OwnedFits(pool: SharedBufferMemoryPool, block: Block)
    requires pool.Valid() && block in pool.allBlocks
    ensures BlockFits(block, pool.controls)
  {
  }

  lemma PublishedPassesImport(d: Descriptor, size: U64, block: Block, broker: FdBroker, controls: set<ControlHeader>)
    requires Publishes(d, size, block, broker) && BlockFits(block, controls) && broker.pid > 0 && d.ipcName != ""
    ensures WellFormed(d) && Accepts(d, block.control, block.mappedSize) <==> size == block.payloadSize
  {
  }

  // The owner's path: register the block, name the generation, publish. Everything it describes passes
  // every check an import makes, exactly if the size described is the size of the block.
  method DescribeOwned(buffer: SharedBuffer, size: U64, pool: SharedBufferMemoryPool, broker: FdBroker, listening: bool, draw: U64, now: U64)
    returns (r: Option<Descriptor>, found: Option<Block>)
    requires pool.Valid() && broker.Valid() && broker.pid > 0
    modifies broker, pool.allBlocks`currentUid, pool.controls`ipcUid, pool.controls`publishTimestampUs, pool.controls`stampedUid
    ensures broker.Valid()
    ensures if found.Some? then found.value in pool.allBlocks && buffer.dataPtr.Some? && found.value.Contains(buffer.dataPtr.value)
            else buffer.dataPtr.None? || forall x | x in pool.allBlocks :: !x.Contains(buffer.dataPtr.value)
    ensures r.Some? <==>
      found.Some? && found.value.nativeHandle >= 0 && (found.value.blockId in old(broker.registeredBlocks) || listening)
    ensures r.Some? ==>
      && Publishes(r.value, size, found.value, broker)
      && found.value.blockId in broker.registeredBlocks
      && r.value == Descriptor(size, "h", broker.pid, found.value.blockId, found.value.mappedSize,
           broker.registeredBlocks[found.value.blockId], found.value.currentUid)
      && (old(found.value.currentUid) != 0 ==> r.value.ipcUid == old(found.value.currentUid))
      && found.value.control.publishTimestampUs == now && found.value.control.stampedUid == r.value.ipcUid
    ensures r.Some? ==> (WellFormed(r.value) && Accepts(r.value, found.value.control, found.value.mappedSize) <==> size == found.value.payloadSize)
    ensures forall c | c in pool.controls && !(r.Some? && c == found.value.control) :: unchanged(c)
  {
    hide SharedBufferMemoryPool.Valid, FdBroker.Valid, WellFormed, Accepts;
    if buffer.dataPtr.None? {
      return None, None;
    }
    found := pool.FindBlockForPtr(buffer.dataPtr.value);
    if found.None? {
      return None, found;
    }
    var block := found.value;
    OwnedFits(pool, block);
    var name := broker.RegisterBlock(block.blockId, block.nativeHandle, listening);
    if name.Err? {
      return None, found;
    }
    var uid := pool.AssignUid(block, draw);
    if name.value == "" || uid == 0 {
      return None, found;
    }
    r := Some(Descriptor(size, ELEMENT_TYPE, broker.pid, block.blockId, block.mappedSize, name.value, uid));
    pool.MarkPublished(block, now);
    PublishedPassesImport(r.value, size, block, broker, pool.controls);
  }

  // `create_descriptor`: nothing for an incompatible endpoint; otherwise a write in progress is finalised,
  // whatever comes of the rest, and the buffer is forwarded if it was imported, published if not.
  method CreateDescriptor(compatible: bool, buffer: SharedBuffer, size: U64, pool: SharedBufferMemoryPool, broker: FdBroker, listening: bool, draw: U64, now: U64)
    returns (r: Option<Descriptor>, ghost found: Option<Block>)
    requires pool.Valid() && broker.Valid() && broker.pid > 0 && buffer.size <= U64_MAX
    modifies StateSet(buffer.handleState), HeaderSet(buffer.control), broker
    modifies pool.allBlocks`currentUid, pool.controls`ipcUid, pool.controls`publishTimestampUs, pool.controls`stampedUid
    ensures broker.Valid()
    ensures buffer.Local() ==
      if compatible && old(buffer.Local()).writing == InUse then old(buffer.Local()).(writing := Finalized) else old(buffer.Local())
    ensures !compatible ==> r.None? && forall c | c in pool.controls :: unchanged(c)
    ensures compatible && HasIpcDescriptor(buffer.identity) ==>
      && (r.Some? ==> r.value == Forwarded(buffer.Value()))
      && (r.Some? ==> r.value == Descriptor(buffer.size, "h", buffer.identity.ipcPid, buffer.identity.blockId, buffer.identity.mappedSize,
                                   buffer.identity.ipcName, buffer.identity.ipcUid))
      && (buffer.control == null ==> r.None?)
      && (buffer.control != null && old(buffer.control.pending) == 0 ==>
            && (r.Some? <==>
                  && buffer.control.magic == 0x5348_4152_4542_5546 && buffer.control.abiVersion == 3
                  && buffer.control.payloadSize == buffer.size && old(buffer.control.ipcUid) == buffer.identity.ipcUid)
            && buffer.control.ipcUid == old(buffer.control.ipcUid) && buffer.control.readerState == old(buffer.control.readerState)
            && buffer.control.publishTimestampUs == if r.Some? then now else old(buffer.control.publishTimestampUs))
      && forall c | c in pool.controls && c != buffer.control :: unchanged(c)
    ensures compatible && !HasIpcDescriptor(buffer.identity) ==>
      && (if found.Some? then found.value in pool.allBlocks && buffer.dataPtr.Some? && found.value.Contains(buffer.dataPtr.value)
          else buffer.dataPtr.None? || forall x | x in pool.allBlocks :: !x.Contains(buffer.dataPtr.value))
      && (r.Some? <==> found.Some? && found.value.nativeHandle >= 0 && (found.value.blockId in old(broker.registeredBlocks) || listening))
      && (forall c | c in pool.controls && !(r.Some? && c == found.value.control) :: unchanged(c))
      && (buffer.control != null ==> buffer.control.readerState == old(buffer.control.readerState) && buffer.control.pending == old(buffer.control.pending))
    ensures r.Some? && !HasIpcDescriptor(buffer.identity) ==>
      && found.value.blockId in broker.registeredBlocks
      && r.value == Descriptor(size, "h", broker.pid, found.value.blockId, found.value.mappedSize,
           broker.registeredBlocks[found.value.blockId], found.value.currentUid)
      && found.value.control.ipcUid == found.value.currentUid && found.value.control.publishTimestampUs == now
      && (WellFormed(r.value) && Accepts(r.value, found.value.control, found.value.mappedSize) <==> size == found.value.payloadSize)
  {
    found := None;
    if !compatible {
      return None, found;
    }
    buffer.FinalizeWriteHandle();
    if HasIpcDescriptor(buffer.identity) {
      ghost var uid;
      r, uid := DescribeRelay(buffer, pool, now);
    } else {
      r, found := DescribeOwned(buffer, size, pool, broker, listening, draw, now);
    }
  }
}
