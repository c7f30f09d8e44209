// What programs over buffers and handles are granted, refused and left with.

module HandleGrants {
  import opened WriteState
  import opened Outcome
  import opened HandleSpec
  import opened HandleRuns
  import opened HandleStates

  // ---- Reading ----

  lemma Overwritten(states: map<nat, Local>, st: nat, local: Local)
    requires st in states
    ensures states[st := local][st := states[st]] == states && states[st := states[st]] == states
  {
  }

  lemma SlotComesBack(local: Local)
    requires local.writing != InUse
    ensures TakeReadSlot(local).Some? && GiveReadSlot(TakeReadSlot(local).value) == local
  {
  }

  lemma StrangersAreNotAcquiring(w: World, h: nat)
    requires StatesFit(w) && h !in w.readers
    ensures h !in w.acquiring && forall slot | slot in w.buffers :: Known(w.buffers[slot].state, w.states)
  {
  }

  // A read slot is to be had unless somebody is writing; a program refused one goes on in the same world.
  lemma ReadSlotUnlessWritten(w: World, slot: nat, h: nat)
    requires StatesFit(w) && Allowed(w, BeginRead(slot, h))
    ensures
      var w', st := Next(w, BeginRead(slot, h)), w.buffers[slot].state.value;
      && (h in w'.readers <==> w.states[st].writing != InUse)
      && (h !in w'.readers ==> w' == w)
      && (h in w'.readers ==> ReadersOf(w'.readers, st) == ReadersOf(w.readers, st) + {h})
  {
  }

  // A read handle whose lease is refused leaves no trace: the world is what it was before the slot was taken.
  lemma RefusedReadLeavesNoTrace(w: World, slot: nat, h: nat, ticket: nat)
    requires StatesFit(w) && Allowed(w, BeginRead(slot, h)) && Allowed(Next(w, BeginRead(slot, h)), EndRead(h, ticket, true))
    requires h in Next(w, BeginRead(slot, h)).readers && w.buffers[slot].control.Some?
    ensures Next(Next(w, BeginRead(slot, h)), EndRead(h, ticket, true)) == w
  {
    hide StatesFit, AllFit;
    StrangersAreNotAcquiring(w, h);
    var st := w.buffers[slot].state.value;
    SlotComesBack(w.states[st]);
    Overwritten(w.states, st, TakeReadSlot(w.states[st]).value);
    assert w.readers[h := Reader(None, w.buffers[slot].state, None, None)] - {h} == w.readers;
    assert w.acquiring[h := slot] - {h} == w.acquiring;
  }

  // A read handle shows its buffer's bytes and keeps its mapping; it has a lease, in that mapping, exactly
  // if there is a header.
  lemma ReadHandleShowsItsBuffer(w: World, h: nat, ticket: nat, refused: bool)
    requires StatesFit(w) && Allowed(w, EndRead(h, ticket, refused))
    ensures
      var w', b := Next(w, EndRead(h, ticket, refused)), w.buffers[w.acquiring[h]];
      && (h in w'.readers <==> b.control.None? || !refused)
      && (h in w'.readers ==>
            var r := w'.readers[h];
            && r.data == b.data && r.owner == b.owner && r.state == w.readers[h].state
            && (if b.control.Some? then r.lease == Some(Lease(ticket, b.owner)) else r.lease.None?))
  {
  }

  // A read handle taken and destroyed again gives everything back.
  lemma ReadAndDestroyed(w: World, slot: nat, h: nat, ticket: nat, refused: bool)
    requires StatesFit(w) && Allowed(w, BeginRead(slot, h)) && w.states[w.buffers[slot].state.value].writing != InUse && ticket !in w.places
    requires w.buffers[slot].control.Some? ==> !refused
    ensures
      var w1 := Next(w, BeginRead(slot, h));
      && Allowed(w1, EndRead(h, ticket, refused))
      && var w2 := Next(w1, EndRead(h, ticket, refused));
      && Allowed(w2, DestroyRead(h))
      && var w3 := Next(w2, DestroyRead(h));
      && w3.buffers == w.buffers && w3.readers == w.readers && w3.acquiring == w.acquiring && w3.states == w.states
      && w3.places == (if w.buffers[slot].control.Some? then w.places[ticket := Gone] else w.places)
  {
    hide StatesFit, AllFit;
    StrangersAreNotAcquiring(w, h);
    var b := w.buffers[slot];
    var st := b.state.value;
    SlotComesBack(w.states[st]);
    Overwritten(w.states, st, TakeReadSlot(w.states[st]).value);
    assert w.acquiring[h := slot] - {h} == w.acquiring;
    var w1 := Next(w, BeginRead(slot, h));
    assert w1 == w.(readers := w.readers[h := Reader(None, b.state, None, None)], acquiring := w.acquiring[h := slot],
                    states := w.states[st := TakeReadSlot(w.states[st]).value]);
    var w2 := Next(w1, EndRead(h, ticket, refused));
    assert w2.states == w1.states && w2.readers[h].state == b.state;
    assert w2.readers[h := EmptyReader()] - {h} == w.readers;
  }

  // ---- Writing ----

  // A write handle is granted exactly if the buffer is writable and has bytes, was never written, and
  // nobody reads it; a program refused one goes on in the same world.
  lemma WriteNeedsSoleUse(worlds: seq<World>, ops: seq<Op>, i: nat, slot: nat, h: nat)
    requires IsProgram(worlds, ops) && i < |worlds| && Allowed(worlds[i], TakeWrite(slot, h))
    ensures
      var w, b := worlds[i], worlds[i].buffers[slot];
      var w' := Next(w, TakeWrite(slot, h));
      && (h in w'.writers <==>
            b.writable && b.data.Some? && b.size > 0 && w.states[b.state.value].writing == Unset && ReadersOf(w.readers, b.state.value) == {})
      && (h !in w'.writers ==> w' == w)
      && (h in w'.writers ==> w'.writers[h] == Writer(b.data, b.state, b.owner) && w'.states[b.state.value] == Local(InUse, 0))
  {
    ProgramFits(worlds, ops, i);
    var st := worlds[i].buffers[slot].state.value;
    assert StateFits(worlds[i].states[st], worlds[i].granted[st], ReadersOf(worlds[i].readers, st));
  }

  // Dropping a write handle, or assigning over it, finalises the buffer it wrote.
  lemma DroppedWriterFinalises(w: World, op: Op)
    requires StatesFit(w) && Allowed(w, op) && (op.DestroyWrite? || (op.AssignWrite? && op.h != op.source))
    requires w.writers[op.h].state.Some?
    ensures Next(w, op).states == w.states[w.writers[op.h].state.value := Local(Finalized, w.states[w.writers[op.h].state.value].activeReaders)]
  {
  }

  // Finalising ends a write in progress, and only that.
  lemma FinalizeEndsWriting(w: World, slot: nat)
    requires StatesFit(w) && Allowed(w, Finalize(slot)) && w.buffers[slot].state.Some?
    ensures
      var st, w' := w.buffers[slot].state.value, Next(w, Finalize(slot));
      && w'.states[st].writing != InUse && (w'.states[st].writing == Unset <==> w.states[st].writing == Unset)
      && (w.states[st].writing != InUse ==> w' == w)
      && forall x | x in w.states && x != st :: w'.states[x] == w.states[x]
  {
    hide StatesFit, AllFit;
    var st := w.buffers[slot].state.value;
    Overwritten(w.states, st, w.states[st]);
  }

  // ---- Holding and moving ----

  // A buffer holds at most one reference of its own, taken once and then kept.
  lemma HoldsOnce(w: World, slot: nat, ticket: nat, refused: bool)
    requires Allowed(w, HoldReference(slot, ticket, refused))
    ensures
      var b, b' := w.buffers[slot], Next(w, HoldReference(slot, ticket, refused)).buffers[slot];
      && b' == b.(held := b'.held)
      && (b'.held.Some? <==> b.held.Some? || (b.control.Some? && !refused))
      && (b'.held != b.held ==> b'.held == Some(Lease(ticket, b.owner)))
      && (b.held.Some? ==> b'.held == b.held)
  {
  }

  // A moved buffer arrives whole, and what is left behind has no bytes, owner, lease or write state. An
  // assigned buffer first lets go of what it had.
  lemma BufferArrivesWhole(w: World, op: Op)
    requires Allowed(w, op) && (op.MoveBuffer? || op.AssignBuffer?) && op.slot != op.from
    ensures
      var w', left := Next(w, op), Next(w, op).buffers[op.from];
      && w'.buffers[op.slot] == w.buffers[op.from]
      && left.data.None? && left.size == 0 && left.control.None? && left.owner.None? && left.held.None? && left.state.None?
      && w.log + (if op.AssignBuffer? then ResetEffects(w.buffers[op.slot]) else []) <= w'.log
      && forall x | x in w.buffers && x != op.slot && x != op.from :: w'.buffers[x] == w.buffers[x]
  {
  }

  lemma HandleArrivesWhole(w: World, op: Op)
    requires Allowed(w, op) && (op.MoveRead? || op.AssignRead? || op.MoveWrite? || op.AssignWrite?) && op.h != op.source
    ensures
      var w' := Next(w, op);
      if op.MoveRead? || op.AssignRead? then
        w'.readers[op.h] == w.readers[op.source] && w'.readers[op.source] == Reader(None, None, None, None)
      else w'.writers[op.h] == w.writers[op.source] && w'.writers[op.source] == Writer(None, None, None)
  {
  }

  // Over itself, nothing happens.
  lemma SelfAssignmentIsInert(w: World, op: Op)
    requires Allowed(w, op)
    requires (op.AssignBuffer? && op.slot == op.from) || ((op.AssignRead? || op.AssignWrite?) && op.h == op.source)
    ensures Next(w, op) == w
  {
  }
}
