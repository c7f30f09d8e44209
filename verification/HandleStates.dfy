// Local exclusion: readers and the one writer of a buffer, over every program.

module HandleStates {
  import opened WriteState
  import opened Outcome
  import opened HandleSpec
  import opened HandleRuns

  // The live read handles bound to a state, those still acquiring their lease included.
  function ReadersOf(readers: map<nat, Reader<nat>>, st: nat): set<nat> {
    set h | h in readers && readers[h].state == Some(st)
  }

  predicate StateFits(local: Local, granted: nat, bound: set<nat>) {
    && local.activeReaders == |bound|
    && (local.writing == InUse ==> local.activeReaders == 0)
    && granted == if local.writing == Unset then 0 else 1
  }

  predicate WriterFits(r: Writer<nat>, states: map<nat, Local>) {
    r.state.Some? ==> r.state.value in states && states[r.state.value].writing != Unset
  }

  predicate StatesFit(w: World) {
    && AllFit(w.states, w.granted, w.readers)
    && (forall slot | slot in w.buffers :: Known(w.buffers[slot].state, w.states))
    && (forall h | h in w.readers :: Known(w.readers[h].state, w.states))
    && (forall h | h in w.writers :: WriterFits(w.writers[h], w.states))
    && w.acquiring.Keys <= w.readers.Keys
  }

  // The write state only ever moves forward, and never skips the grant of a handle.
  predicate Forward(a: Local, b: Local) {
    match a.writing
    case Unset => b.writing != Finalized
    case InUse => b.writing != Unset
    case Finalized => b.writing == Finalized
  }

  predicate AllForward(a: map<nat, Local>, b: map<nat, Local>) {
    forall st | st in a :: st in b && Forward(a[st], b[st])
  }

  // ---- Primitives ----

  lemma BuffersOnly(w: World, w': World)
    requires StatesFit(w) && w' == w.(buffers := w'.buffers, places := w'.places, log := w'.log)
    requires forall slot | slot in w'.buffers :: Known(w'.buffers[slot].state, w.states)
    ensures StatesFit(w') && AllForward(w.states, w'.states)
  {
  }

  lemma StateCreated(w: World, slot: nat, freshState: nat)
    requires StatesFit(w) && slot in w.buffers && freshState !in w.states
    ensures StatesFit(WithState(w, slot, freshState)) && AllForward(w.states, WithState(w, slot, freshState).states)
  {
    var w' := WithState(w, slot, freshState);
    assert ReadersOf(w.readers, freshState) == {} by {
      forall h | h in w.readers ensures w.readers[h].state != Some(freshState) {
        assert Known(w.readers[h].state, w.states);
      }
    }
    if w' != w {
      Widened(w.states, w'.states, freshState);
      forall h | h in w.writers ensures WriterFits(w.writers[h], w'.states) {
        assert WriterFits(w.writers[h], w.states);
      }
      forall st | st in w'.states ensures StateFits(w'.states[st], w'.granted[st], ReadersOf(w.readers, st)) {
        assert st in w.states ==> StateFits(w.states[st], w.granted[st], ReadersOf(w.readers, st));
      }
    }
  }

  lemma Widened(a: map<nat, Local>, b: map<nat, Local>, freshState: nat)
    requires freshState !in a && b == a[freshState := UNUSED]
    ensures AllForward(a, b)
    ensures forall state: Option<nat> :: Known(state, a) ==> Known(state, b)
  {
  }

  lemma ReadersGrow(readers: map<nat, Reader<nat>>, h: nat, r: Reader<nat>, st: nat)
    requires h in readers ==> readers[h].state.None?
    ensures h !in ReadersOf(readers, st)
    ensures ReadersOf(readers[h := r], st) == ReadersOf(readers, st) + (if r.state == Some(st) then {h} else {})
  {
  }

  lemma ReadersShrink(readers: map<nat, Reader<nat>>, h: nat, r: Reader<nat>, st: nat)
    requires h in readers && r.state.None?
    ensures ReadersOf(readers[h := r], st) == ReadersOf(readers, st) - {h} == ReadersOf(readers - {h}, st)
    ensures readers[h].state == Some(st) <==> h in ReadersOf(readers, st)
  {
  }

  predicate AllFit(states: map<nat, Local>, granted: map<nat, nat>, readers: map<nat, Reader<nat>>) {
    states.Keys == granted.Keys && forall st | st in states :: StateFits(states[st], granted[st], ReadersOf(readers, st))
  }

  // A read slot is taken for `h`.
  lemma SlotTaken(states: map<nat, Local>, granted: map<nat, nat>, readers: map<nat, Reader<nat>>, h: nat, r: Reader<nat>)
    requires AllFit(states, granted, readers) && h !in readers
    requires r.state.Some? && r.state.value in states && TakeReadSlot(states[r.state.value]).Some?
    ensures
      var states' := states[r.state.value := TakeReadSlot(states[r.state.value]).value];
      AllFit(states', granted, readers[h := r]) && AllForward(states, states')
  {
    var st0 := r.state.value;
    var states' := states[st0 := TakeReadSlot(states[st0]).value];
    forall st | st in states
      ensures StateFits(states'[st], granted[st], ReadersOf(readers[h := r], st)) && Forward(states[st], states'[st])
    {
      ReadersGrow(readers, h, r, st);
      assert StateFits(states[st], granted[st], ReadersOf(readers, st));
    }
  }

  lemma WritersStay(writers: map<nat, Writer<nat>>, states: map<nat, Local>, states': map<nat, Local>)
    requires AllForward(states, states') && forall h | h in writers :: WriterFits(writers[h], states)
    ensures forall h | h in writers :: WriterFits(writers[h], states')
  {
    forall h | h in writers ensures WriterFits(writers[h], states') {
      assert WriterFits(writers[h], states);
      if writers[h].state.Some? {
        assert Forward(states[writers[h].state.value], states'[writers[h].state.value]);
      }
    }
  }

  function Returned(states: map<nat, Local>, state: Option<nat>): map<nat, Local>
    requires Known(state, states)
  {
    match state case None => states case Some(st) => states[st := GiveReadSlot(states[st])]
  }

  // The read slot of `h` is given back; `h` stays empty or leaves.
  lemma CountsReturned(states: map<nat, Local>, granted: map<nat, nat>, before: map<nat, Reader<nat>>, h: nat, readers: map<nat, Reader<nat>>)
    requires AllFit(states, granted, before) && h in before && Known(before[h].state, states)
    requires readers == before[h := EmptyReader()] || readers == before - {h}
    ensures AllFit(Returned(states, before[h].state), granted, readers) && AllForward(states, Returned(states, before[h].state))
  {
    var states' := Returned(states, before[h].state);
    forall st | st in states
      ensures StateFits(states'[st], granted[st], ReadersOf(readers, st)) && Forward(states[st], states'[st])
    {
      ReadersShrink(before, h, EmptyReader(), st);
      assert StateFits(states[st], granted[st], ReadersOf(before, st));
    }
  }

  lemma SlotReturned(w: World, h: nat, readers: map<nat, Reader<nat>>, acquiring: map<nat, nat>)
    requires StatesFit(w) && h in w.readers
    requires readers == w.readers[h := EmptyReader()] || readers == w.readers - {h}
    requires acquiring.Keys <= readers.Keys
    ensures
      var w' := w.(readers := readers, acquiring := acquiring, states := Returned(w.states, w.readers[h].state));
      StatesFit(w') && AllForward(w.states, w'.states)
  {
    CountsReturned(w.states, w.granted, w.readers, h, readers);
    WritersStay(w.writers, w.states, Returned(w.states, w.readers[h].state));
  }

  // Every state keeps its number of bound readers.
  lemma SameReaders(w: World, w': World)
    requires StatesFit(w) && w' == w.(readers := w'.readers, acquiring := w'.acquiring, places := w'.places, log := w'.log)
    requires w'.acquiring.Keys <= w'.readers.Keys
    requires forall h | h in w'.readers :: Known(w'.readers[h].state, w.states)
    requires forall st | st in w.states :: |ReadersOf(w'.readers, st)| == |ReadersOf(w.readers, st)|
    ensures StatesFit(w') && AllForward(w.states, w'.states)
  {
  }

  // A reader's slot moves with it.
  lemma ReadersMove(readers: map<nat, Reader<nat>>, h: nat, source: nat, st: nat)
    requires source in readers && h != source && (h in readers ==> readers[h].state.None?)
    ensures |ReadersOf(readers[source := EmptyReader()][h := readers[source]], st)| == |ReadersOf(readers, st)|
  {
    ReadersShrink(readers, source, EmptyReader(), st);
    ReadersGrow(readers[source := EmptyReader()], h, readers[source], st);
  }

  lemma SlotMoved(w: World, h: nat, source: nat)
    requires StatesFit(w) && source in w.readers && h != source && (h in w.readers ==> w.readers[h].state.None?)
    ensures StatesFit(TransferRead(w, h, source)) && AllForward(w.states, TransferRead(w, h, source).states)
  {
    forall st | st in w.states
      ensures |ReadersOf(TransferRead(w, h, source).readers, st)| == |ReadersOf(w.readers, st)|
    {
      ReadersMove(w.readers, h, source, st);
    }
    SameReaders(w, TransferRead(w, h, source));
  }

  // ---- Every operation ----

  lemma EnterReadFits(w: World, slot: nat, h: nat)
    requires StatesFit(w) && slot in w.buffers && h !in w.readers && w.buffers[slot].state.Some?
    ensures StatesFit(EnterRead(w, slot, h)) && AllForward(w.states, EnterRead(w, slot, h).states)
  {
    var b := w.buffers[slot];
    var st := b.state.value;
    if TakeReadSlot(w.states[st]).Some? {
      SlotTaken(w.states, w.granted, w.readers, h, Reader(None, b.state, None, None));
      WritersStay(w.writers, w.states, w.states[st := TakeReadSlot(w.states[st]).value]);
    }
  }

  lemma WriteGranted(states: map<nat, Local>, granted: map<nat, nat>, readers: map<nat, Reader<nat>>, st: nat)
    requires AllFit(states, granted, readers) && st in states && TakeWriteSlot(states[st]).Some?
    ensures
      var states' := states[st := TakeWriteSlot(states[st]).value];
      AllFit(states', granted[st := granted[st] + 1], readers) && AllForward(states, states')
  {
    assert StateFits(states[st], granted[st], ReadersOf(readers, st));
  }

  lemma EnterWriteFits(w: World, slot: nat, h: nat)
    requires StatesFit(w) && slot in w.buffers && w.buffers[slot].state.Some?
    ensures StatesFit(EnterWrite(w, slot, h)) && AllForward(w.states, EnterWrite(w, slot, h).states)
  {
    var st := w.buffers[slot].state.value;
    if TakeWriteSlot(w.states[st]).Some? {
      WriteGranted(w.states, w.granted, w.readers, st);
      WritersStay(w.writers, w.states, w.states[st := TakeWriteSlot(w.states[st]).value]);
    }
  }

  lemma BoundStays(readers: map<nat, Reader<nat>>, h: nat, r: Reader<nat>)
    requires h in readers && r.state == readers[h].state
    ensures forall st: nat :: ReadersOf(readers[h := r], st) == ReadersOf(readers, st)
  {
  }

  lemma EndReadFits(w: World, h: nat, ticket: nat, refused: bool)
    requires StatesFit(w) && Allowed(w, EndRead(h, ticket, refused))
    ensures StatesFit(Next(w, EndRead(h, ticket, refused)))
    ensures AllForward(w.states, Next(w, EndRead(h, ticket, refused)).states)
  {
    if w.buffers[w.acquiring[h]].control.Some? && refused {
      SlotReturned(w, h, w.readers - {h}, w.acquiring - {h});
    } else {
      var w' := Next(w, EndRead(h, ticket, refused));
      BoundStays(w.readers, h, w'.readers[h]);
      SameReaders(w, w');
    }
  }

  lemma DefaultReadFits(w: World, h: nat)
    requires StatesFit(w) && Allowed(w, DefaultRead(h))
    ensures StatesFit(Next(w, DefaultRead(h))) && AllForward(w.states, Next(w, DefaultRead(h)).states)
  {
    forall st | st in w.states ensures ReadersOf(w.readers[h := EmptyReader()], st) == ReadersOf(w.readers, st) {
      ReadersGrow(w.readers, h, EmptyReader(), st);
    }
    SameReaders(w, Next(w, DefaultRead(h)));
  }

  lemma AssignReadFits(w: World, h: nat, source: nat)
    requires StatesFit(w) && Allowed(w, AssignRead(h, source))
    ensures StatesFit(Next(w, AssignRead(h, source))) && AllForward(w.states, Next(w, AssignRead(h, source)).states)
  {
    if h != source {
      SlotReturned(w, h, w.readers[h := EmptyReader()], w.acquiring);
      SlotMoved(ReleaseAt(w, h), h, source);
    }
  }

  lemma DestroyReadFits(w: World, h: nat)
    requires StatesFit(w) && Allowed(w, DestroyRead(h))
    ensures StatesFit(Next(w, DestroyRead(h))) && AllForward(w.states, Next(w, DestroyRead(h)).states)
  {
    SlotReturned(w, h, w.readers - {h}, w.acquiring);
    assert w.readers[h := EmptyReader()] - {h} == w.readers - {h};
  }

  lemma WriteEnded(w: World, h: nat)
    requires StatesFit(w) && h in w.writers
    ensures StatesFit(EndWriteAt(w, h)) && AllForward(w.states, EndWriteAt(w, h).states)
  {
    assert WriterFits(w.writers[h], w.states);
    var w1 := w.(writers := EndWriteAt(w, h).writers, log := EndWriteAt(w, h).log);
    assert forall x | x in w1.writers :: WriterFits(w1.writers[x], w1.states);
    if w.writers[h].state.Some? {
      var st := w.writers[h].state.value;
      assert StateFits(w.states[st], w.granted[st], ReadersOf(w.readers, st));
      StateMoves(w1, st, EndWriting(w.states[st]));
    }
  }

  lemma WriteOpFits(w: World, op: Op)
    requires StatesFit(w) && Allowed(w, op)
    requires op.DefaultWrite? || op.MoveWrite? || op.AssignWrite? || op.DestroyWrite?
    ensures StatesFit(Next(w, op)) && AllForward(w.states, Next(w, op).states)
  {
    if (op.AssignWrite? && op.h != op.source) || op.DestroyWrite? {
      assert WriterFits(w.writers[op.h], w.states);
      WriteEnded(w, op.h);
    }
  }

  // One state moves forward without touching its readers or its grant.
  lemma StateMoves(w: World, st: nat, local: Local)
    requires StatesFit(w) && st in w.states && Forward(w.states[st], local)
    requires StateFits(local, w.granted[st], ReadersOf(w.readers, st))
    ensures StatesFit(w.(states := w.states[st := local])) && AllForward(w.states, w.states[st := local])
  {
    var states := w.states[st := local];
    forall x | x in states ensures StateFits(states[x], w.granted[x], ReadersOf(w.readers, x)) && Forward(w.states[x], states[x]) {
      assert StateFits(w.states[x], w.granted[x], ReadersOf(w.readers, x));
    }
    WritersStay(w.writers, w.states, states);
  }

  lemma FinalizeFits(w: World, slot: nat)
    requires StatesFit(w) && Allowed(w, Finalize(slot))
    ensures StatesFit(Next(w, Finalize(slot))) && AllForward(w.states, Next(w, Finalize(slot)).states)
  {
    if w.buffers[slot].state.Some? {
      var st := w.buffers[slot].state.value;
      StateMoves(w, st, FinalizeWriting(w.states[st]));
    }
  }

  lemma TransferFits(w: World, slot: nat, from: nat, leftover: bool)
    requires StatesFit(w) && from in w.buffers
    ensures StatesFit(TransferBuffer(w, slot, from, leftover))
  {
    var w' := TransferBuffer(w, slot, from, leftover);
    forall x | x in w'.buffers ensures Known(w'.buffers[x].state, w.states) {
      assert x in w.buffers ==> Known(w.buffers[x].state, w.states);
      assert Known(w.buffers[from].state, w.states);
    }
    BuffersOnly(w, w');
  }

  lemma ResetFits(w: World, slot: nat)
    requires StatesFit(w) && slot in w.buffers
    ensures StatesFit(ResetAt(w, slot))
  {
    BuffersOnly(w, ResetAt(w, slot));
  }

  lemma QuietBufferOpFits(w: World, op: Op)
    requires StatesFit(w) && Allowed(w, op) && (op.NewBuffer? || op.DefaultBuffer? || op.DestroyBuffer? || op.HoldReference?)
    ensures StatesFit(Next(w, op)) && Next(w, op).states == w.states
  {
    var w' := Next(w, op);
    forall slot | slot in w'.buffers ensures Known(w'.buffers[slot].state, w.states) {
      assert slot in w.buffers ==> Known(w.buffers[slot].state, w.states);
    }
    BuffersOnly(w, w');
  }

  lemma BufferOpFits(w: World, op: Op)
    requires StatesFit(w) && Allowed(w, op)
    requires op.NewBuffer? || op.DefaultBuffer? || op.MoveBuffer? || op.AssignBuffer? || op.DestroyBuffer? || op.HoldReference?
    ensures StatesFit(Next(w, op)) && AllForward(w.states, Next(w, op).states)
  {
    if op.MoveBuffer? {
      TransferFits(w, op.slot, op.from, op.leftover);
    } else if op.AssignBuffer? && op.slot != op.from {
      ResetFits(w, op.slot);
      TransferFits(ResetAt(w, op.slot), op.slot, op.from, op.leftover);
    } else if !op.AssignBuffer? {
      QuietBufferOpFits(w, op);
    }
  }

  lemma ReadOpFits(w: World, op: Op)
    requires StatesFit(w) && Allowed(w, op)
    requires op.BeginRead? || op.EndRead? || op.DefaultRead? || op.MoveRead? || op.AssignRead? || op.DestroyRead?
    ensures StatesFit(Next(w, op)) && AllForward(w.states, Next(w, op).states)
  {
    if op.BeginRead? {
      EnterReadFits(w, op.slot, op.h);
    } else if op.EndRead? {
      EndReadFits(w, op.h, op.ticket, op.refused);
    } else if op.DefaultRead? {
      DefaultReadFits(w, op.h);
    } else if op.MoveRead? {
      SlotMoved(w, op.h, op.source);
    } else if op.AssignRead? {
      AssignReadFits(w, op.h, op.source);
    } else {
      DestroyReadFits(w, op.h);
    }
  }

  lemma OpFits(w: World, op: Op)
    requires StatesFit(w) && Allowed(w, op)
    ensures StatesFit(Next(w, op)) && AllForward(w.states, Next(w, op).states)
  {
    if op.CreateState? {
      StateCreated(w, op.slot, op.freshState);
    } else if op.BeginRead? || op.EndRead? || op.DefaultRead? || op.MoveRead? || op.AssignRead? || op.DestroyRead? {
      ReadOpFits(w, op);
    } else if op.TakeWrite? {
      EnterWriteFits(w, op.slot, op.h);
    } else if op.DefaultWrite? || op.MoveWrite? || op.AssignWrite? || op.DestroyWrite? {
      WriteOpFits(w, op);
    } else if op.Finalize? {
      FinalizeFits(w, op.slot);
    } else {
      BufferOpFits(w, op);
    }
  }

  lemma {:induction false} ProgramFits(worlds: seq<World>, ops: seq<Op>, i: nat)
    requires IsProgram(worlds, ops) && i < |worlds|
    ensures StatesFit(worlds[i])
  {
    if i > 0 {
      ProgramFits(worlds, ops, i - 1);
      OpFits(worlds[i - 1], ops[i - 1]);
    }
  }

  // In every program, failed lease acquisitions included: a state counts exactly its live read
  // handles, has none while it is being written, moves only from unset through in use to finalised,
  // and grants at most one write handle in its life.
  lemma LocalExclusion(worlds: seq<World>, ops: seq<Op>, i: nat, st: nat)
    requires IsProgram(worlds, ops) && i < |worlds| && st in worlds[i].states
    ensures worlds[i].states[st].activeReaders == |ReadersOf(worlds[i].readers, st)|
    ensures worlds[i].states[st].writing == InUse ==> ReadersOf(worlds[i].readers, st) == {}
    ensures st in worlds[i].granted && worlds[i].granted[st] <= 1
    ensures i + 1 < |worlds| ==> st in worlds[i + 1].states && Forward(worlds[i].states[st], worlds[i + 1].states[st])
  {
    ProgramFits(worlds, ops, i);
    assert StateFits(worlds[i].states[st], worlds[i].granted[st], ReadersOf(worlds[i].readers, st));
    if i + 1 < |worlds| {
      OpFits(worlds[i], ops[i]);
    }
  }
}
