// Importing: the process-local mapping cache, the validation of a mapping, and the acquisition of an
// imported buffer from a descriptor.

module Import {
  import opened Bytes
  import opened ControlWord
  import opened Outcome
  import opened HandleSpec
  import opened SharedHeader
  import opened Handles

  const ELEMENT_TYPE: string := "h"

  datatype Descriptor = Descriptor(
    size: U64,
    elementType: string,
    pid: int,
    blockId: U32,
    blockSize: U64,
    ipcName: string,
    ipcUid: U64)

  // A region mapped into this process. Two mappings show the same physical block exactly when they
  // show the same control header.
  class ImportedBlock {
    const control: ControlHeader
    const mappedSize: U64
    const handle: nat
    const mapping: nat

    constructor (control: ControlHeader, mappedSize: U64, handle: nat, mapping: nat)
      ensures this.control == control && this.mappedSize == mappedSize
      ensures this.handle == handle && this.mapping == mapping
    {
      this.control, this.mappedSize, this.handle, this.mapping := control, mappedSize, handle, mapping;
    }

    function Payload(): nat {
      mapping + PAYLOAD_OFFSET
    }
  }

  // What a name resolves to at the moment it is asked for: the physical block and its size, mapped at
  // some address with some handle.
  datatype Region = Region(control: ControlHeader, size: U64, handle: nat, mapping: nat)

  datatype Key = Key(pid: int, blockId: U32, ipcName: string)

  // The five checks of a mapping, in order.
  predicate Admits(control: ControlHeader, actualSize: U64, mappedSize: U64, payloadSize: U64, uid: U64)
    reads control`ipcUid
  {
    && mappedSize == actualSize && mappedSize >= PAYLOAD_OFFSET && payloadSize <= mappedSize - PAYLOAD_OFFSET
    && control.magic == CONTROL_MAGIC && control.abiVersion == CONTROL_ABI_VERSION
    && control.payloadSize == payloadSize
    && uid != 0
    && control.ipcUid == uid
  }

  method ValidateMapping(block: ImportedBlock, mappedSize: U64, payloadSize: U64, uid: U64) returns (r: Result<()>)
    ensures r.Ok? <==>
      && mappedSize == block.mappedSize && mappedSize >= 64 && payloadSize <= mappedSize - 64
      && block.control.magic == 0x5348_4152_4542_5546 && block.control.abiVersion == 3 && block.control.payloadSize == payloadSize
      && uid != 0 && block.control.ipcUid == uid
  {
    if mappedSize != block.mappedSize || mappedSize < PAYLOAD_OFFSET || payloadSize > mappedSize - PAYLOAD_OFFSET {
      return Err(RuntimeError);
    }
    if block.control.magic != CONTROL_MAGIC || block.control.abiVersion != CONTROL_ABI_VERSION {
      return Err(RuntimeError);
    }
    if block.control.payloadSize != payloadSize {
      return Err(RuntimeError);
    }
    if uid == 0 {
      return Err(RuntimeError);
    }
    if block.control.ipcUid != uid {
      return Err(RuntimeError);
    }
    r := Ok(());
  }

  // An import's verdict on a mapping of `actualSize` bytes: it does not depend on how the mapping was come by.
  predicate Accepts(d: Descriptor, control: ControlHeader, actualSize: U64)
    reads control`ipcUid
  {
    d.ipcName != "" && d.blockSize >= PAYLOAD_OFFSET && Admits(control, actualSize, d.blockSize, d.size, d.ipcUid)
  }

  function KeyOf(d: Descriptor): Key {
    Key(d.pid, d.blockId, d.ipcName)
  }

  // The header and size of the mapping an import looks at: the cached one on a hit, what the name
  // resolves to on a miss.
  function Target(entries: map<Key, ImportedBlock>, resolve: map<string, Region>, d: Descriptor): Option<(ControlHeader, U64)> {
    if KeyOf(d) in entries then Some((entries[KeyOf(d)].control, entries[KeyOf(d)].mappedSize))
    else if d.ipcName in resolve then Some((resolve[d.ipcName].control, resolve[d.ipcName].size))
    else None
  }

  class HandleCache {
    var entries: map<Key, ImportedBlock>

    constructor ()
      ensures Valid() && entries == map[]
    {
      entries := map[];
    }

    // Every cached mapping once passed the checks that cannot change: the payload lies inside it.
    ghost predicate Valid()
      reads this
    {
      forall k | k in entries ::
        && k.ipcName != ""
        && entries[k].control.magic == CONTROL_MAGIC && entries[k].control.abiVersion == CONTROL_ABI_VERSION
        && PAYLOAD_OFFSET + entries[k].control.payloadSize <= entries[k].mappedSize
    }

    // A hit reuses the mapping, a miss maps what the name resolves to; both give the same verdict on
    // the same header. Success hands out a mapping of the block whose header held the uid at the check,
    // whatever became of the name: a hit on a recycled key is rejected, never misdelivered.
    method ImportBlock(d: Descriptor, resolve: map<string, Region>) returns (r: Result<ImportedBlock>)
      requires Valid()
      modifies this
      ensures Valid()
      ensures
        var target := Target(old(entries), resolve, d);
        && (r.Ok? <==> target.Some? && Accepts(d, target.value.0, target.value.1))
        && (r.Ok? ==> r.value.control == target.value.0 && r.value.mappedSize == target.value.1)
      ensures Key(d.pid, d.blockId, d.ipcName) in old(entries) ==>
        var cached := old(entries)[Key(d.pid, d.blockId, d.ipcName)];
        (r.Ok? <==> Accepts(d, cached.control, cached.mappedSize)) && (r.Ok? ==> r.value == cached)
      ensures Key(d.pid, d.blockId, d.ipcName) !in old(entries) && d.ipcName in resolve ==>
        var region := resolve[d.ipcName];
        && (r.Ok? <==> Accepts(d, region.control, region.size))
        && (r.Ok? ==> Region(r.value.control, r.value.mappedSize, r.value.handle, r.value.mapping) == region)
      ensures Key(d.pid, d.blockId, d.ipcName) !in old(entries) && d.ipcName !in resolve ==> r.Err?
      ensures entries == if r.Ok? then old(entries)[Key(d.pid, d.blockId, d.ipcName) := r.value] else old(entries)
    {
      if d.ipcName == "" || d.blockSize < PAYLOAD_OFFSET {
        return Err(RuntimeError);
      }
      var key := KeyOf(d);
      if key in entries {
        var valid := ValidateMapping(entries[key], d.blockSize, d.size, d.ipcUid);
        return if valid.Ok? then Ok(entries[key]) else Err(valid.error);
      }
      if d.ipcName !in resolve || resolve[d.ipcName].size != d.blockSize {
        return Err(RuntimeError);
      }
      var region := resolve[d.ipcName];
      var imported := new ImportedBlock(region.control, region.size, region.handle, region.mapping);
      var valid := ValidateMapping(imported, d.blockSize, d.size, d.ipcUid);
      if valid.Err? {
        return Err(valid.error);
      }
      entries := entries[key := imported];
      r := Ok(imported);
    }
  }

  // The checks made before anything is mapped.
  predicate WellFormed(d: Descriptor) {
    && d.elementType == ELEMENT_TYPE
    && d.pid > 0 && d.ipcName != "" && d.ipcUid != 0
    && d.blockSize >= PAYLOAD_OFFSET && d.size <= d.blockSize - PAYLOAD_OFFSET
  }

  function IdentityOf(d: Descriptor): Identity {
    Identity(d.blockId, d.blockSize, d.pid, d.ipcName, d.ipcUid)
  }

  // The read-only buffer made of an acquired mapping: it carries the whole identity of the descriptor, and
  // its deleter, which keeps the mapping, releases the reader reference.
  function ImportedAs(d: Descriptor, control: ControlHeader, address: nat, mapping: nat, ticket: nat): Buffer<HandleState, ControlHeader> {
    Buffer(Some(address), d.size, Some(Deleter(ticket, Some(mapping))), Some(control), Some(mapping), None, None, false, IdentityOf(d))
  }

  // Every header an import could touch: those of cached mappings and those names resolve to.
  ghost function Headers(cache: HandleCache, resolve: map<string, Region>): set<ControlHeader>
    reads cache
  {
    (set k | k in cache.entries :: cache.entries[k].control) + (set n | n in resolve :: resolve[n].control)
  }

  // One reader reference on a header that still names `uid` once it is held. Other processes run between
  // any two steps; a reference on another generation is given back.
  method AcquireGeneration(control: ControlHeader, uid: U64) returns (ok: bool)
    modifies control
    ensures ok ==> control.ipcUid == uid
    ensures control.taken == old(control.taken) + (if ok then 1 else 0)
    ensures old(control.pending) == 0 ==>
      && (ok <==> !AcquireRefused(old(control.readerState)) && old(control.ipcUid) == uid)
      && control.pending == 0 && control.ipcUid == old(control.ipcUid)
      && control.readerState == old(control.readerState) + (if ok then 1 else 0)
  {
    control.Interfere();
    var acquired, seen := control.TryAcquireReader();
    if !acquired {
      return false;
    }
    control.Interfere();
    if control.ipcUid != uid {
      control.ReleaseReader();
      return false;
    }
    ok := true;
  }

  // Validate, acquire one reader reference, check the uid again, and release if the block was reused
  // in between. Other processes run between any two steps. A rejected import takes no reference; on a
  // quiet header the outcome is decided by the checks and the claim bit alone.
  method FromDescriptor(d: Descriptor, cache: HandleCache, resolve: map<string, Region>, ticket: nat)
    returns (r: Result<SharedBuffer>, imported: Result<ImportedBlock>)
    requires cache.Valid()
    modifies cache, Headers(cache, resolve)
    ensures cache.Valid()
    ensures r.Ok? ==> d.elementType == "h" && d.pid > 0 && d.ipcName != "" && d.ipcUid != 0 && 64 <= d.blockSize && d.size <= d.blockSize - 64
    ensures !WellFormed(d) ==> r.Err? && cache.entries == old(cache.entries)
    ensures imported.Ok? ==> imported.value.control in old(Headers(cache, resolve))
    ensures imported.Ok? && Key(d.pid, d.blockId, d.ipcName) in old(cache.entries) ==>
      imported.value == old(cache.entries)[Key(d.pid, d.blockId, d.ipcName)]
    ensures imported.Ok? && Key(d.pid, d.blockId, d.ipcName) !in old(cache.entries) ==>
      && d.ipcName in resolve
      && Region(imported.value.control, imported.value.mappedSize, imported.value.handle, imported.value.mapping) == resolve[d.ipcName]
    ensures r.Ok? ==>
      && imported.Ok? && r.value.control == imported.value.control && imported.value.control.ipcUid == d.ipcUid
      && r.value.Value() == ImportedAs(d, imported.value.control, imported.value.Payload(), imported.value.handle, ticket)
      && !r.value.writable && r.value.dataPtr == Some(imported.value.mapping + 64) && r.value.size == d.size
      && r.value.owner == Some(imported.value.handle) && r.value.deleter == Some(Deleter(ticket, r.value.owner))
      && r.value.identity == Identity(d.blockId, d.blockSize, d.pid, d.ipcName, d.ipcUid)
      && imported.value.control.payloadSize == d.size && 64 + d.size <= imported.value.mappedSize
    ensures forall c | c in old(Headers(cache, resolve)) ::
      c.taken == old(c.taken) + (if r.Ok? && c == imported.value.control then 1 else 0)
    ensures
      var target := Target(old(cache.entries), resolve, d);
      && (r.Ok? ==> WellFormed(d) && target.Some? && imported.value.control == target.value.0)
      && (target.Some? && old(target.value.0.pending) == 0 ==>
            (r.Ok? <==> d.elementType == "h" && d.pid > 0 && d.ipcName != "" && d.ipcUid != 0 &&
                        64 <= d.blockSize && d.size <= d.blockSize - 64 && old(Accepts(d, target.value.0, target.value.1)) &&
                        !AcquireRefused(old(target.value.0.readerState))) &&
            target.value.0.pending == 0 && target.value.0.ipcUid == old(target.value.0.ipcUid) &&
            target.value.0.readerState == old(target.value.0.readerState) + (if r.Ok? then 1 else 0))
  {
    hide HandleCache.Valid;
    imported := Err(RuntimeError);
    if d.elementType != ELEMENT_TYPE {
      return Err(RuntimeError), imported;
    }
    if d.pid <= 0 || d.ipcName == "" || d.ipcUid == 0 || d.blockSize < PAYLOAD_OFFSET || d.size > d.blockSize - PAYLOAD_OFFSET {
      return Err(RuntimeError), imported;
    }
    imported := cache.ImportBlock(d, resolve);
    if imported.Err? {
      return Err(imported.error), imported;
    }
    var control := imported.value.control;
    var acquired := AcquireGeneration(control, d.ipcUid);
    if !acquired {
      return Err(RuntimeError), imported;
    }
    var buffer := new SharedBuffer(Some(imported.value.Payload()), d.size, Some(Deleter(ticket, Some(imported.value.handle))),
      control, Some(imported.value.handle), false, IdentityOf(d));
    r := Ok(buffer);
  }
}
