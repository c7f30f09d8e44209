// The buffer and handle objects themselves, field by field.

module Handles {
  import opened WriteState
  import opened ControlWord
  import opened Outcome
  import opened HandleSpec
  import opened SharedHeader

  // The order in which references, mappings and deleters are let go.
  class Releases {
    ghost var log: seq<Effect>

    constructor ()
      ensures log == []
    {
      log := [];
    }
  }

  class HandleState {
    var writing: Writing
    var activeReaders: nat

    constructor ()
      ensures Value() == Local(Unset, 0)
    {
      writing, activeReaders := Unset, 0;
    }

    function Value(): Local
      reads this
    {
      Local(writing, activeReaders)
    }
  }

  // The state a handle or buffer refers to, if any.
  function StateOf(state: HandleState?): Option<HandleState> {
    if state == null then None else var s: HandleState := state; Some(s)
  }

  function HeaderOf(control: ControlHeader?): Option<ControlHeader> {
    if control == null then None else var c: ControlHeader := control; Some(c)
  }

  // The object behind a possibly null reference, for frames.
  function HeaderSet(control: ControlHeader?): set<ControlHeader> {
    if control == null then {} else var c: ControlHeader := control; {c}
  }

  function StateSet(state: HandleState?): set<HandleState> {
    if state == null then {} else var s: HandleState := state; {s}
  }

  class ReadHandle {
    var dataPtr: Option<nat>
    var state: HandleState?
    var lease: Option<Lease>
    var leaseControl: ControlHeader?
    var owner: Option<nat>

    ghost predicate Valid()
      reads this
    {
      lease.Some? <==> leaseControl != null
    }

    function Value(): Reader<HandleState>
      reads this
    {
      Reader(dataPtr, StateOf(state), lease, owner)
    }

    constructor (dataPtr: Option<nat>, lease: Option<Lease>, leaseControl: ControlHeader?, owner: Option<nat>, state: HandleState?)
      requires lease.Some? <==> leaseControl != null
      ensures Valid() && Value() == Reader(dataPtr, StateOf(state), lease, owner) && this.leaseControl == leaseControl
    {
      this.dataPtr, this.lease, this.leaseControl := dataPtr, lease, leaseControl;
      this.owner, this.state := owner, state;
    }

    constructor Move(other: ReadHandle)
      requires other.Valid()
      modifies other
      ensures Valid() && Value() == old(other.Value()) && leaseControl == old(other.leaseControl)
      ensures other.Valid() && other.Value() == EmptyReader()
    {
      dataPtr, state, lease, leaseControl, owner := other.dataPtr, other.state, other.lease, other.leaseControl, other.owner;
      new;
      other.dataPtr, other.state, other.lease, other.leaseControl, other.owner := None, null, None, null, None;
    }

    // Gives back the local slot, then drops the lease, then the owner.
    method Release(releases: Releases)
      requires Valid()
      modifies this, releases, StateSet(state), HeaderSet(leaseControl)
      ensures Valid() && Value() == EmptyReader()
      ensures releases.log == old(releases.log) + ReleaseEffects(old(Value()))
      ensures old(state) != null ==>
        && old(state).writing == old(state.writing)
        && old(state).activeReaders == (if old(state.activeReaders) > 0 then old(state.activeReaders) - 1 else 0)
      ensures old(leaseControl) != null ==>
        old(leaseControl).readerState == MinusOne(old(leaseControl.readerState)) && old(leaseControl).taken == old(leaseControl.taken) - 1
    {
      var held := state;
      state := null;
      if held != null {
        if held.activeReaders > 0 {
          held.activeReaders := held.activeReaders - 1;
        }
      }
      if leaseControl != null {
        leaseControl.ReleaseReader();
      }
      releases.log := releases.log + DropLease(lease);
      lease, leaseControl := None, null;
      releases.log := releases.log + DropMapping(owner);
      owner := None;
      dataPtr := None;
    }

    // Self-assignment changes nothing.
    method Assign(other: ReadHandle, releases: Releases)
      requires Valid() && other.Valid()
      modifies this, other, releases, StateSet(state), HeaderSet(leaseControl)
      ensures Valid() && other.Valid()
      ensures other == this ==> Value() == old(Value()) && releases.log == old(releases.log) && leaseControl == old(leaseControl)
      ensures other != this ==>
        && Value() == old(other.Value()) && leaseControl == old(other.leaseControl) && other.Value() == EmptyReader()
        && releases.log == old(releases.log) + ReleaseEffects(old(Value()))
      ensures old(state) != null ==>
        old(state).Value() == if other == this then old(state.Value()) else GiveReadSlot(old(state.Value()))
      ensures old(leaseControl) != null ==>
        old(leaseControl).readerState == if other == this then old(leaseControl.readerState) else MinusOne(old(leaseControl.readerState))
    {
      if this != other {
        Release(releases);
        dataPtr, state, lease, leaseControl, owner := other.dataPtr, other.state, other.lease, other.leaseControl, other.owner;
        other.dataPtr, other.state, other.lease, other.leaseControl, other.owner := None, null, None, null, None;
      }
    }
  }

  class WriteHandle {
    var dataPtr: Option<nat>
    var state: HandleState?
    var owner: Option<nat>

    function Value(): Writer<HandleState>
      reads this
    {
      Writer(dataPtr, StateOf(state), owner)
    }

    constructor (dataPtr: Option<nat>, state: HandleState?, owner: Option<nat>)
      ensures Value() == Writer(dataPtr, StateOf(state), owner)
    {
      this.dataPtr, this.state, this.owner := dataPtr, state, owner;
    }

    constructor Move(other: WriteHandle)
      modifies other
      ensures Value() == old(other.Value()) && other.Value() == EmptyWriter()
    {
      dataPtr, state, owner := other.dataPtr, other.state, other.owner;
      new;
      other.dataPtr, other.state, other.owner := None, null, None;
    }

    // Finalises; the state stays attached until the handle is overwritten or destroyed.
    method Release(releases: Releases)
      modifies this, StateSet(state), releases
      ensures releases.log == old(releases.log) + DropMapping(old(owner))
      ensures Value() == EmptyWriter().(state := old(Value()).state)
      ensures state == old(state) && (state != null ==> state.Value() == Local(Finalized, old(state.activeReaders)))
    {
      if state != null {
        state.writing := Finalized;
      }
      releases.log := releases.log + DropMapping(owner);
      owner := None;
      dataPtr := None;
    }

    method Assign(other: WriteHandle, releases: Releases)
      modifies this, other, StateSet(state), releases
      ensures other == this ==> Value() == old(Value()) && releases.log == old(releases.log)
      ensures other != this ==>
        Value() == old(other.Value()) && other.Value() == EmptyWriter() && releases.log == old(releases.log) + DropMapping(old(owner))
      ensures old(state) != null ==>
        old(state).Value() == if other == this then old(state.Value()) else Local(Finalized, old(state.activeReaders))
    {
      if this != other {
        Release(releases);
        dataPtr, state, owner := other.dataPtr, other.state, other.owner;
        other.dataPtr, other.state, other.owner := None, null, None;
      }
    }
  }

  class SharedBuffer {
    var dataPtr: Option<nat>
    var size: nat
    var deleter: Option<Deleter>
    var control: ControlHeader?
    var owner: Option<nat>
    var heldLease: Option<Lease>
    var heldControl: ControlHeader?
    var handleState: HandleState?
    var writable: bool
    var identity: Identity

    ghost predicate Valid()
      reads this
    {
      heldLease.Some? <==> heldControl != null
    }

    function Value(): Buffer<HandleState, ControlHeader>
      reads this
    {
      Buffer(dataPtr, size, deleter, HeaderOf(control), owner, heldLease, StateOf(handleState), writable, identity)
    }

    constructor (dataPtr: Option<nat>, size: nat, deleter: Option<Deleter>, control: ControlHeader?, owner: Option<nat>,
                 writable: bool, identity: Identity)
      ensures Valid() && Value() == Buffer(dataPtr, size, deleter, HeaderOf(control), owner, None, None, writable, identity)
    {
      this.dataPtr, this.size, this.deleter, this.control, this.owner := dataPtr, size, deleter, control, owner;
      heldLease, heldControl, handleState := None, null, null;
      this.writable, this.identity := writable, identity;
    }

    // The moved-from object keeps whatever the library leaves of the deleter and the name.
    constructor Move(other: SharedBuffer, leftDeleter: Option<Deleter>, leftName: string)
      requires other.Valid()
      modifies other
      ensures Valid() && Value() == old(other.Value()) && heldControl == old(other.heldControl)
      ensures other.Valid() && other.Value() == MovedFrom(leftDeleter, leftName)
    {
      dataPtr, size, deleter, control, owner := other.dataPtr, other.size, other.deleter, other.control, other.owner;
      heldLease, heldControl, handleState := other.heldLease, other.heldControl, other.handleState;
      writable, identity := other.writable, other.identity;
      new;
      other.Vacate(leftDeleter, leftName);
    }

    // What a move does to its source.
    method Vacate(leftDeleter: Option<Deleter>, leftName: string)
      modifies this
      ensures Valid() && Value() == MovedFrom(leftDeleter, leftName)
      ensures Value() == Buffer(None, 0, leftDeleter, None, None, None, None, true, Identity(0, 0, 0, leftName, 0))
    {
      dataPtr, size, deleter, control, owner := None, 0, leftDeleter, null, None;
      heldLease, heldControl, handleState := None, null, null;
      writable, identity := true, Identity(0, 0, 0, leftName, 0);
    }

    method DropHeldLease(releases: Releases)
      requires Valid()
      modifies this`heldLease, this`heldControl, releases, HeaderSet(heldControl)
      ensures Valid() && heldLease.None?
      ensures releases.log == old(releases.log) + DropLease(old(heldLease))
      ensures forall c | c in HeaderSet(old(heldControl)) :: c.readerState == MinusOne(old(c.readerState)) && c.taken == old(c.taken) - 1
    {
      if heldControl != null {
        heldControl.ReleaseReader();
      }
      releases.log := releases.log + DropLease(heldLease);
      heldLease, heldControl := None, null;
    }

    // The owner goes, then the deleter runs if there is data, then its closure goes.
    method RunDeleter(releases: Releases)
      modifies releases
      ensures releases.log == old(releases.log) + CloseEffects(Value())
    {
      ghost var running := if dataPtr.Some? && deleter.Some? then [DeleterRan(deleter.value)] else [];
      ghost var closing := if deleter.Some? then DropMapping(deleter.value.captured) else [];
      releases.log := releases.log + (DropMapping(owner) + (running + closing));
    }

    method Reset(releases: Releases)
      requires Valid()
      modifies this, releases, HeaderSet(heldControl)
      ensures Valid() && Value() == EmptyBuffer()
      ensures Value() == Buffer(None, 0, None, None, None, None, None, true, Identity(0, 0, 0, "", 0))
      ensures releases.log == old(releases.log) + ResetEffects(old(Value()))
      ensures forall c | c in HeaderSet(old(heldControl)) :: c.readerState == MinusOne(old(c.readerState)) && c.taken == old(c.taken) - 1
    {
      DropHeldLease(releases);
      handleState := null;
      RunDeleter(releases);
      Vacate(None, "");
    }

    // Self-assignment changes nothing.
    method Assign(other: SharedBuffer, leftDeleter: Option<Deleter>, leftName: string, releases: Releases)
      requires Valid() && other.Valid()
      modifies this, other, releases, HeaderSet(heldControl)
      ensures Valid() && other.Valid()
      ensures other == this ==> Value() == old(Value()) && releases.log == old(releases.log)
      ensures other != this ==> Value() == old(other.Value()) && other.Value() == MovedFrom(leftDeleter, leftName)
      ensures other != this ==> releases.log == old(releases.log) + ResetEffects(old(Value())) && heldControl == old(other.heldControl)
      ensures forall c | c in HeaderSet(old(heldControl)) ::
        c.readerState == (if other == this then old(c.readerState) else MinusOne(old(c.readerState))) &&
        c.taken == old(c.taken) - (if other == this then 0 else 1)
    {
      if this != other {
        Reset(releases);
        dataPtr, size, deleter, control, owner := other.dataPtr, other.size, other.deleter, other.control, other.owner;
        heldLease, heldControl, handleState := other.heldLease, other.heldControl, other.handleState;
        writable, identity := other.writable, other.identity;
        other.Vacate(leftDeleter, leftName);
      }
    }

    // The local state as a caller finds it; it is created on first use.
    function Local(): Local
      reads this, StateSet(handleState)
    {
      if handleState == null then UNUSED else handleState.Value()
    }

    method EnsureState()
      modifies this`handleState
      ensures handleState != null && handleState.Value() == old(Local())
      ensures if old(handleState) == null then fresh(handleState) else handleState == old(handleState)
    {
      if handleState == null {
        handleState := new HandleState();
      }
    }

    // `make_lease`: no lease without a header; otherwise one reader reference, or a refusal.
    method MakeLease(ticket: nat) returns (r: Result<Option<Lease>>, ghost seen: Word)
      modifies HeaderSet(control)
      ensures control == null ==> r == Ok(None)
      ensures control != null ==>
        if r.Ok? then r.value == Some(Lease(ticket, owner)) && !AcquireRefused(seen) && control.readerState == PlusOne(seen)
        else AcquireRefused(seen)
      ensures control != null ==> control.taken == old(control.taken) + (if r.Ok? then 1 else 0)
      ensures if control == null then seen == 0 else old(control.pending) == 0 ==> seen == old(control.readerState)
    {
      seen := 0;
      if control == null {
        return Ok(None), seen;
      }
      var ok;
      ok, seen := control.TryAcquireReader();
      r := if ok then Ok(Some(Lease(ticket, owner))) else Err(RuntimeError);
    }

    // A local slot first, then the lease; a refused lease gives the slot back.
    method GetReadHandle(ticket: nat) returns (r: Result<ReadHandle>, ghost seen: Word)
      modifies this`handleState, StateSet(handleState), HeaderSet(control)
      ensures handleState != null && (if old(handleState) == null then fresh(handleState) else handleState == old(handleState))
      ensures r.Ok? ==> fresh(r.value)
      ensures old(Local()).writing == InUse ==> r.Err? && Local() == old(Local())
      ensures old(Local()).writing != InUse ==>
        if r.Ok? then
          && Local() == old(Local()).(activeReaders := old(Local()).activeReaders + 1)
          && r.value.Valid() && r.value.leaseControl == control
          && r.value.Value() == Reader(dataPtr, StateOf(handleState), if control == null then None else Some(Lease(ticket, owner)), owner)
          && (control != null ==> !AcquireRefused(seen) && control.readerState == PlusOne(seen))
        else Local() == old(Local()) && control != null && AcquireRefused(seen)
      ensures control != null ==> control.taken == old(control.taken) + (if r.Ok? then 1 else 0)
      ensures if control == null then seen == 0 else old(control.pending) == 0 ==> seen == old(control.readerState)
    {
      seen := if control == null then 0 else control.readerState;
      EnsureState();
      var state: HandleState := handleState;
      if state.writing == InUse {
        return Err(RuntimeError), seen;
      }
      state.activeReaders := state.activeReaders + 1;
      var lease;
      lease, seen := MakeLease(ticket);
      if lease.Err? {
        if state.activeReaders > 0 {
          state.activeReaders := state.activeReaders - 1;
        }
        return Err(lease.error), seen;
      }
      var handle := new ReadHandle(dataPtr, lease.value, if lease.value.Some? then control else null, owner, state);
      r := Ok(handle);
    }

    method GetWriteHandle() returns (r: Result<WriteHandle>)
      modifies this`handleState, StateSet(handleState)
      ensures r.Ok? <==>
        writable && dataPtr.Some? && size != 0 && old(Local()).writing == Unset && old(Local()).activeReaders == 0
      ensures Local() == if r.Ok? then old(Local()).(writing := InUse) else old(Local())
      ensures r.Ok? ==> fresh(r.value) && handleState != null && r.value.Value() == Writer(dataPtr, StateOf(handleState), owner)
      ensures if old(handleState) == null then handleState == null || fresh(handleState) else handleState == old(handleState)
    {
      if !writable || dataPtr.None? || size == 0 {
        return Err(RuntimeError);
      }
      EnsureState();
      var state: HandleState := handleState;
      if state.writing != Unset || state.activeReaders != 0 {
        return Err(RuntimeError);
      }
      state.writing := InUse;
      var handle := new WriteHandle(dataPtr, state, owner);
      r := Ok(handle);
    }

    // An `Unset` state stays `Unset`: a buffer finalised too early can still be written.
    method FinalizeWriteHandle()
      modifies StateSet(handleState)
      ensures Local() == if old(Local()).writing == InUse then old(Local()).(writing := Finalized) else old(Local())
    {
      if handleState != null {
        if handleState.writing == InUse {
          handleState.writing := Finalized;
        }
      }
    }

    method HoldReaderReference(ticket: nat) returns (r: Result<()>, ghost seen: Word)
      requires Valid()
      modifies this`heldLease, this`heldControl, HeaderSet(control)
      ensures Valid()
      ensures old(heldLease).Some? || control == null ==> r.Ok? && heldLease == old(heldLease)
      ensures old(heldLease).None? && control != null ==>
        if r.Ok? then heldLease == Some(Lease(ticket, owner)) && heldControl == control && control.readerState == PlusOne(seen)
        else AcquireRefused(seen) && heldLease.None?
      ensures control != null ==> control.taken == old(control.taken) + (if old(heldLease).None? && r.Ok? then 1 else 0)
      ensures control != null && old(control.pending) == 0 ==> seen == old(control.readerState)
    {
      seen := if control == null then 0 else control.readerState;
      if heldLease.Some? {
        return Ok(()), seen;
      }
      var lease;
      lease, seen := MakeLease(ticket);
      if lease.Err? {
        return Err(lease.error), seen;
      }
      heldLease, heldControl := lease.value, if lease.value.Some? then control else null;
      r := Ok(());
    }
  }
}
