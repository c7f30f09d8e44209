// An imported mapping outlives every reference into it: references to mappings are counted, and one is
// still outstanding whenever a lease or a deleter that points into the mapping goes.

module HandleMappings {
  import opened Outcome
  import opened HandleSpec
  import opened HandleRuns
  import opened HandleTickets

  // ---- References on the record ----

  // How many references to mapping `m` the log leaves outstanding.
  function Refs(log: seq<Effect>, m: nat): int {
    if log == [] then 0
    else
      var e := log[|log| - 1];
      Refs(log[..|log| - 1], m) + (if e == MappingTaken(m) then 1 else if e == MappingDropped(m) then -1 else 0)
  }

  lemma {:induction false} RefsConcat(a: seq<Effect>, b: seq<Effect>, m: nat)
    ensures Refs(a + b, m) == Refs(a, m) + Refs(b, m)
  {
    if b == [] {
      assert a + b == a;
    } else {
      RefsConcat(a, b[..|b| - 1], m);
      assert (a + b)[..|a + b| - 1] == a + b[..|b| - 1];
    }
  }

  // Every reference into a mapping is dropped while the mapping itself is still referenced.
  predicate MappedAtDrops(log: seq<Effect>) {
    forall i | 0 <= i < |log| && HomeOf(log[i]).Some? :: Refs(log[..i], HomeOf(log[i]).value) > 0
  }

  lemma OneMoreEffect(log: seq<Effect>, e: Effect)
    requires MappedAtDrops(log) && (HomeOf(e).Some? ==> Refs(log, HomeOf(e).value) > 0)
    ensures MappedAtDrops(log + [e])
    ensures forall m: nat :: Refs(log + [e], m) == Refs(log, m) + (if e == MappingTaken(m) then 1 else if e == MappingDropped(m) then -1 else 0)
  {
    var after := log + [e];
    assert after[..|log|] == log;
    forall i | 0 <= i < |after| && HomeOf(after[i]).Some? ensures Refs(after[..i], HomeOf(after[i]).value) > 0 {
      assert i < |log| ==> after[..i] == log[..i];
    }
  }

  function One(b: bool): nat {
    if b then 1 else 0
  }

  lemma TakingRefs(log: seq<Effect>, mapping: Option<nat>)
    requires MappedAtDrops(log)
    ensures MappedAtDrops(log + TakeMapping(mapping))
    ensures forall m: nat :: Refs(log + TakeMapping(mapping), m) == Refs(log, m) + One(mapping == Some(m))
  {
    if mapping.Some? {
      OneMoreEffect(log, MappingTaken(mapping.value));
    } else {
      assert log + TakeMapping(mapping) == log;
    }
  }

  lemma DroppingRefs(log: seq<Effect>, mapping: Option<nat>)
    requires MappedAtDrops(log)
    ensures MappedAtDrops(log + DropMapping(mapping))
    ensures forall m: nat :: Refs(log + DropMapping(mapping), m) == Refs(log, m) - One(mapping == Some(m))
  {
    if mapping.Some? {
      OneMoreEffect(log, MappingDropped(mapping.value));
    } else {
      assert log + DropMapping(mapping) == log;
    }
  }

  lemma DroppingLease(log: seq<Effect>, lease: Option<Lease>)
    requires MappedAtDrops(log) && (lease.Some? && lease.value.home.Some? ==> Refs(log, lease.value.home.value) > 0)
    ensures MappedAtDrops(log + DropLease(lease))
    ensures forall m: nat :: Refs(log + DropLease(lease), m) == Refs(log, m)
  {
    if lease.Some? {
      OneMoreEffect(log, LeaseDropped(lease.value));
    } else {
      assert log + DropLease(lease) == log;
    }
  }

  // ---- References in the world ----

  function BufferWeight(b: Buffer<nat, nat>, m: nat): nat {
    One(b.owner == Some(m)) + One(CapturedBy(b) == Some(m))
  }

  // Resetting a buffer drops its references in an order that keeps every mapping until nothing points into it.
  lemma ResetRefs(log: seq<Effect>, b: Buffer<nat, nat>)
    requires MappedAtDrops(log) && HomeFits(b) && forall m: nat :: Refs(log, m) >= BufferWeight(b, m)
    ensures MappedAtDrops(log + ResetEffects(b))
    ensures forall m: nat :: Refs(log + ResetEffects(b), m) == Refs(log, m) - BufferWeight(b, m)
  {
    hide MappedAtDrops, Refs;
    DroppingLease(log, b.held);
    var log1 := log + DropLease(b.held);
    DroppingRefs(log1, b.owner);
    var log2 := log1 + DropMapping(b.owner);
    if b.deleter.Some? {
      var d := b.deleter.value;
      var ran := if b.data.Some? then [DeleterRan(d)] else [];
      if b.data.Some? {
        OneMoreEffect(log2, DeleterRan(d));
      } else {
        assert log2 + ran == log2;
      }
      DroppingRefs(log2 + ran, d.captured);
      assert log + ResetEffects(b) == log2 + ran + DropMapping(d.captured);
    } else {
      assert log + ResetEffects(b) == log2;
    }
  }

  lemma ReleaseRefs(log: seq<Effect>, r: Reader<nat>)
    requires MappedAtDrops(log) && (r.lease.Some? ==> r.lease.value.home == r.owner)
    requires forall m: nat :: Refs(log, m) >= One(r.owner == Some(m))
    ensures MappedAtDrops(log + ReleaseEffects(r))
    ensures forall m: nat :: Refs(log + ReleaseEffects(r), m) == Refs(log, m) - One(r.owner == Some(m))
  {
    DroppingLease(log, r.lease);
    DroppingRefs(log + DropLease(r.lease), r.owner);
    assert log + ReleaseEffects(r) == log + DropLease(r.lease) + DropMapping(r.owner);
  }

  function OwnersOf(buffers: map<nat, Buffer<nat, nat>>, m: nat): set<nat> {
    set slot | slot in buffers && buffers[slot].owner == Some(m)
  }

  function CapturesOf(buffers: map<nat, Buffer<nat, nat>>, m: nat): set<nat> {
    set slot | slot in buffers && CapturedBy(buffers[slot]) == Some(m)
  }

  function ReadersOf(readers: map<nat, Reader<nat>>, m: nat): set<nat> {
    set h | h in readers && readers[h].owner == Some(m)
  }

  function BufferRefs(buffers: map<nat, Buffer<nat, nat>>, m: nat): nat {
    |OwnersOf(buffers, m)| + |CapturesOf(buffers, m)|
  }

  lemma MemberCount(a: set<nat>, b: set<nat>, x: nat)
    requires a - {x} == b - {x}
    ensures |a| + One(x in b) == |b| + One(x in a)
  {
    assert a == if x in a then (a - {x}) + {x} else a - {x};
    assert b == if x in b then (b - {x}) + {x} else b - {x};
  }

  lemma BufferChanges(buffers: map<nat, Buffer<nat, nat>>, slot: nat, b: Buffer<nat, nat>, m: nat)
    ensures BufferRefs(buffers[slot := b], m) ==
            BufferRefs(buffers, m) - (if slot in buffers then BufferWeight(buffers[slot], m) else 0) + BufferWeight(b, m)
  {
    MemberCount(OwnersOf(buffers[slot := b], m), OwnersOf(buffers, m), slot);
    MemberCount(CapturesOf(buffers[slot := b], m), CapturesOf(buffers, m), slot);
  }

  lemma BufferLeaves(buffers: map<nat, Buffer<nat, nat>>, slot: nat, m: nat)
    requires slot in buffers
    ensures BufferRefs(buffers - {slot}, m) == BufferRefs(buffers, m) - BufferWeight(buffers[slot], m)
  {
    MemberCount(OwnersOf(buffers - {slot}, m), OwnersOf(buffers, m), slot);
    MemberCount(CapturesOf(buffers - {slot}, m), CapturesOf(buffers, m), slot);
  }

  lemma ReaderChanges(readers: map<nat, Reader<nat>>, h: nat, r: Reader<nat>, m: nat)
    ensures |ReadersOf(readers[h := r], m)| ==
            |ReadersOf(readers, m)| - One(h in readers && readers[h].owner == Some(m)) + One(r.owner == Some(m))
  {
    MemberCount(ReadersOf(readers[h := r], m), ReadersOf(readers, m), h);
  }

  lemma ReaderLeaves(readers: map<nat, Reader<nat>>, h: nat, m: nat)
    requires h in readers
    ensures |ReadersOf(readers - {h}, m)| == |ReadersOf(readers, m)| - One(readers[h].owner == Some(m))
  {
    MemberCount(ReadersOf(readers - {h}, m), ReadersOf(readers, m), h);
  }

  function WritersOf(writers: map<nat, Writer<nat>>, m: nat): set<nat> {
    set h | h in writers && writers[h].owner == Some(m)
  }

  lemma WriterChanges(writers: map<nat, Writer<nat>>, h: nat, r: Writer<nat>, m: nat)
    ensures |WritersOf(writers[h := r], m)| ==
            |WritersOf(writers, m)| - One(h in writers && writers[h].owner == Some(m)) + One(r.owner == Some(m))
  {
    MemberCount(WritersOf(writers[h := r], m), WritersOf(writers, m), h);
  }

  lemma WriterLeaves(writers: map<nat, Writer<nat>>, h: nat, m: nat)
    requires h in writers
    ensures |WritersOf(writers - {h}, m)| == |WritersOf(writers, m)| - One(writers[h].owner == Some(m))
  {
    MemberCount(WritersOf(writers - {h}, m), WritersOf(writers, m), h);
  }

  // The references the buffers and handles of the world have on mapping `m`.
  function Held(w: World, m: nat): nat {
    BufferRefs(w.buffers, m) + |ReadersOf(w.readers, m)| + |WritersOf(w.writers, m)|
  }

  // The record agrees with the world, and every drop so far found its mapping referenced.
  ghost predicate Balanced(w: World) {
    MappedAtDrops(w.log) && forall m: nat :: Refs(w.log, m) == Held(w, m)
  }

  // ---- Every operation ----

  lemma ResetBalances(w: World, slot: nat)
    requires Kept(w) && Balanced(w) && slot in w.buffers
    ensures Balanced(ResetAt(w, slot))
  {
    var b, w' := w.buffers[slot], ResetAt(w, slot);
    assert BufferKept(slot, b, w.places);
    forall m: nat ensures Refs(w.log, m) >= BufferWeight(b, m) && Held(w', m) == Held(w, m) - BufferWeight(b, m) {
      BufferChanges(w.buffers, slot, EmptyBuffer(), m);
    }
    ResetRefs(w.log, b);
  }

  lemma TransferBalances(w: World, slot: nat, from: nat, leftover: bool)
    requires Balanced(w) && from in w.buffers && slot != from
    requires slot in w.buffers ==> w.buffers[slot] == EmptyBuffer()
    ensures Balanced(TransferBuffer(w, slot, from, leftover))
  {
    var b, w' := w.buffers[from], TransferBuffer(w, slot, from, leftover);
    var rest := w'.buffers[from];
    TakingRefs(w.log, CapturedBy(rest));
    forall m: nat ensures Held(w', m) == Held(w, m) + One(CapturedBy(rest) == Some(m)) {
      BufferChanges(w.buffers, from, rest, m);
      BufferChanges(w.buffers[from := rest], slot, b, m);
    }
  }

  lemma ReleaseBalances(w: World, h: nat)
    requires Kept(w) && Balanced(w) && h in w.readers && Known(w.readers[h].state, w.states)
    ensures Balanced(ReleaseAt(w, h))
  {
    var r, w' := w.readers[h], ReleaseAt(w, h);
    assert ReaderKept(h, r, w.places);
    forall m: nat ensures Refs(w.log, m) >= One(r.owner == Some(m)) && Held(w', m) == Held(w, m) - One(r.owner == Some(m)) {
      ReaderChanges(w.readers, h, EmptyReader(), m);
    }
    ReleaseRefs(w.log, r);
  }

  lemma TransferReadBalances(w: World, h: nat, source: nat)
    requires Balanced(w) && source in w.readers && h != source && (h in w.readers ==> w.readers[h].owner.None?)
    ensures Balanced(TransferRead(w, h, source))
  {
    forall m: nat ensures Held(TransferRead(w, h, source), m) == Held(w, m) {
      ReaderChanges(w.readers, source, EmptyReader(), m);
      ReaderChanges(w.readers[source := EmptyReader()], h, w.readers[source], m);
    }
  }

  // A buffer changes in ways that touch no mapping.
  lemma SameWeight(w: World, w': World, slot: nat, b: Buffer<nat, nat>)
    requires Balanced(w) && w'.buffers == w.buffers[slot := b] && w'.readers == w.readers && w'.writers == w.writers && w'.log == w.log
    requires forall m: nat :: BufferWeight(b, m) == if slot in w.buffers then BufferWeight(w.buffers[slot], m) else 0
    ensures Balanced(w')
  {
    forall m: nat ensures Held(w', m) == Held(w, m) {
      BufferChanges(w.buffers, slot, b, m);
    }
  }

  lemma NewBufferBalances(w: World, slot: nat, b: Buffer<nat, nat>, mapping: Option<nat>)
    requires Balanced(w) && slot !in w.buffers && b.owner == mapping && CapturedBy(b) == mapping
    ensures Balanced(w.(buffers := w.buffers[slot := b], log := w.log + TakeMapping(mapping) + TakeMapping(mapping)))
  {
    TakingRefs(w.log, mapping);
    TakingRefs(w.log + TakeMapping(mapping), mapping);
    forall m: nat ensures BufferRefs(w.buffers[slot := b], m) == BufferRefs(w.buffers, m) + 2 * One(mapping == Some(m)) {
      BufferChanges(w.buffers, slot, b, m);
    }
  }

  lemma BufferLeavesBalanced(w: World, slot: nat)
    requires Balanced(w) && slot in w.buffers && w.buffers[slot] == EmptyBuffer()
    ensures Balanced(w.(buffers := w.buffers - {slot}))
  {
    forall m: nat ensures BufferRefs(w.buffers - {slot}, m) == BufferRefs(w.buffers, m) {
      BufferLeaves(w.buffers, slot, m);
    }
  }

  lemma BufferOpBalances(w: World, op: Op)
    requires Kept(w) && Balanced(w) && Allowed(w, op)
    requires op.NewBuffer? || op.DefaultBuffer? || op.MoveBuffer? || op.AssignBuffer? || op.DestroyBuffer? || op.HoldReference? || op.CreateState?
    ensures Balanced(Next(w, op))
  {
    var w' := Next(w, op);
    match op
    case NewBuffer(slot, _, _, _, mapping, _, _) => NewBufferBalances(w, slot, w'.buffers[slot], mapping);
    case DefaultBuffer(slot) => SameWeight(w, w', slot, EmptyBuffer());
    case MoveBuffer(slot, from, leftover) => TransferBalances(w, slot, from, leftover);
    case AssignBuffer(slot, from, leftover) =>
      if slot != from {
        ResetBalances(w, slot);
        TransferBalances(ResetAt(w, slot), slot, from, leftover);
      }
    case DestroyBuffer(slot) =>
      ResetBalances(w, slot);
      BufferLeavesBalanced(ResetAt(w, slot), slot);
    case HoldReference(slot, _, _) =>
      if w' != w {
        SameWeight(w, w', slot, w'.buffers[slot]);
      }
    case CreateState(slot, _) =>
      if w' != w {
        SameWeight(w, w', slot, w'.buffers[slot]);
      }
  }

  lemma BeginReadBalances(w: World, slot: nat, h: nat)
    requires Balanced(w) && Allowed(w, BeginRead(slot, h))
    ensures Balanced(Next(w, BeginRead(slot, h)))
  {
    var w' := Next(w, BeginRead(slot, h));
    if w' != w {
      forall m: nat ensures Held(w', m) == Held(w, m) {
        ReaderChanges(w.readers, h, w'.readers[h], m);
      }
    }
  }

  lemma EndReadBalances(w: World, h: nat, ticket: nat, refused: bool)
    requires Kept(w) && Balanced(w) && Allowed(w, EndRead(h, ticket, refused))
    ensures Balanced(Next(w, EndRead(h, ticket, refused)))
  {
    var w', b := Next(w, EndRead(h, ticket, refused)), w.buffers[w.acquiring[h]];
    if b.control.Some? && refused {
      forall m: nat ensures Held(w', m) == Held(w, m) {
        ReaderLeaves(w.readers, h, m);
      }
    } else {
      TakingRefs(w.log, b.owner);
      forall m: nat ensures Held(w', m) == Held(w, m) + One(b.owner == Some(m)) {
        ReaderChanges(w.readers, h, w'.readers[h], m);
      }
    }
  }

  lemma ReadOpBalances(w: World, op: Op)
    requires Kept(w) && Balanced(w) && Allowed(w, op)
    requires op.DefaultRead? || op.MoveRead? || op.AssignRead? || op.DestroyRead?
    ensures Balanced(Next(w, op))
  {
    match op
    case DefaultRead(h) =>
      forall m: nat ensures |ReadersOf(w.readers[h := EmptyReader()], m)| == |ReadersOf(w.readers, m)| {
        ReaderChanges(w.readers, h, EmptyReader(), m);
      }
    case MoveRead(h, source) => TransferReadBalances(w, h, source);
    case AssignRead(h, source) =>
      if h != source {
        ReleaseBalances(w, h);
        TransferReadBalances(ReleaseAt(w, h), h, source);
      }
    case DestroyRead(h) =>
      ReleaseBalances(w, h);
      forall m: nat ensures |ReadersOf(ReleaseAt(w, h).readers - {h}, m)| == |ReadersOf(ReleaseAt(w, h).readers, m)| {
        ReaderLeaves(ReleaseAt(w, h).readers, h, m);
      }
  }

  lemma SameMappings(w: World, w': World)
    requires Balanced(w) && w'.buffers == w.buffers && w'.readers == w.readers && w'.writers == w.writers && w'.log == w.log
    ensures Balanced(w')
  {
    assert forall m: nat :: Held(w', m) == Held(w, m);
  }

  lemma EndWriteBalances(w: World, h: nat)
    requires Balanced(w) && h in w.writers && Known(w.writers[h].state, w.states)
    ensures Balanced(EndWriteAt(w, h))
  {
    var owner, w' := w.writers[h].owner, EndWriteAt(w, h);
    DroppingRefs(w.log, owner);
    forall m: nat ensures Held(w', m) == Held(w, m) - One(owner == Some(m)) {
      WriterChanges(w.writers, h, w'.writers[h], m);
    }
  }

  lemma TransferWriteBalances(w: World, h: nat, source: nat)
    requires Balanced(w) && source in w.writers && h != source && (h in w.writers ==> w.writers[h].owner.None?)
    ensures Balanced(TransferWrite(w, h, source))
  {
    forall m: nat ensures Held(TransferWrite(w, h, source), m) == Held(w, m) {
      WriterChanges(w.writers, source, EmptyWriter(), m);
      WriterChanges(w.writers[source := EmptyWriter()], h, w.writers[source], m);
    }
  }

  lemma TakeWriteBalances(w: World, slot: nat, h: nat)
    requires Balanced(w) && Allowed(w, TakeWrite(slot, h))
    ensures Balanced(Next(w, TakeWrite(slot, h)))
  {
    var w' := Next(w, TakeWrite(slot, h));
    if w' != w {
      TakingRefs(w.log, w.buffers[slot].owner);
      forall m: nat ensures Held(w', m) == Held(w, m) + One(w.buffers[slot].owner == Some(m)) {
        WriterChanges(w.writers, h, w'.writers[h], m);
      }
    }
  }

  lemma WriteOpBalances(w: World, op: Op)
    requires Balanced(w) && Allowed(w, op)
    requires op.TakeWrite? || op.DefaultWrite? || op.MoveWrite? || op.AssignWrite? || op.DestroyWrite? || op.Finalize?
    ensures Balanced(Next(w, op))
  {
    if op.TakeWrite? {
      TakeWriteBalances(w, op.slot, op.h);
    } else if op.DefaultWrite? {
      forall m: nat ensures |WritersOf(w.writers[op.h := EmptyWriter()], m)| == |WritersOf(w.writers, m)| {
        WriterChanges(w.writers, op.h, EmptyWriter(), m);
      }
    } else if op.MoveWrite? {
      TransferWriteBalances(w, op.h, op.source);
    } else if op.AssignWrite? {
      if op.h != op.source {
        EndWriteBalances(w, op.h);
        TransferWriteBalances(EndWriteAt(w, op.h), op.h, op.source);
      }
    } else if op.DestroyWrite? {
      EndWriteBalances(w, op.h);
      WriterGoesBalanced(EndWriteAt(w, op.h), op.h);
    } else {
      SameMappings(w, Next(w, op));
    }
  }

  lemma WriterGoesBalanced(w: World, h: nat)
    requires Balanced(w) && h in w.writers && w.writers[h].owner.None?
    ensures Balanced(w.(writers := w.writers - {h}))
  {
    forall m: nat ensures |WritersOf(w.writers - {h}, m)| == |WritersOf(w.writers, m)| {
      WriterLeaves(w.writers, h, m);
    }
  }

  lemma OpBalances(w: World, op: Op)
    requires Kept(w) && Balanced(w) && Allowed(w, op)
    ensures Balanced(Next(w, op))
  {
    if op.BeginRead? {
      BeginReadBalances(w, op.slot, op.h);
    } else if op.EndRead? {
      EndReadBalances(w, op.h, op.ticket, op.refused);
    } else if op.DefaultRead? || op.MoveRead? || op.AssignRead? || op.DestroyRead? {
      ReadOpBalances(w, op);
    } else if op.TakeWrite? || op.DefaultWrite? || op.MoveWrite? || op.AssignWrite? || op.DestroyWrite? || op.Finalize? {
      WriteOpBalances(w, op);
    } else {
      BufferOpBalances(w, op);
    }
  }

  lemma NothingIsBalanced()
    ensures Balanced(NOTHING)
  {
    forall m: nat ensures Held(NOTHING, m) == 0 {
      assert OwnersOf(NOTHING.buffers, m) == {} && CapturesOf(NOTHING.buffers, m) == {} && ReadersOf(NOTHING.readers, m) == {} && WritersOf(NOTHING.writers, m) == {};
    }
  }

  lemma {:induction false} ProgramBalances(worlds: seq<World>, ops: seq<Op>, i: nat)
    requires IsProgram(worlds, ops) && i < |worlds|
    ensures Balanced(worlds[i])
  {
    if i == 0 {
      NothingIsBalanced();
    } else {
      ProgramBalances(worlds, ops, i - 1);
      ProgramKeeps(worlds, ops, i - 1);
      OpBalances(worlds[i - 1], ops[i - 1]);
    }
  }

  // In every program, a mapping is referenced whenever a reader reference or a deleter that points into
  // it is dropped, and its references on record are those the live buffers and handles have.
  lemma MappingOutlivesDrops(worlds: seq<World>, ops: seq<Op>, i: nat)
    requires IsProgram(worlds, ops) && i < |worlds|
    ensures MappedAtDrops(worlds[i].log)
    ensures forall m: nat :: Refs(worlds[i].log, m) == Held(worlds[i], m)
  {
    ProgramBalances(worlds, ops, i);
  }
}
