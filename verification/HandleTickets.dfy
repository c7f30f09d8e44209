// Exactly-once release: every ticket is kept in one place until it is redeemed, and redeemed once.

module HandleTickets {
  import opened Outcome
  import opened HandleSpec
  import opened HandleRuns

  predicate BufferKept(slot: nat, b: Buffer<nat, nat>, places: map<nat, Place>) {
    && HomeFits(b)
    && (Obligation(b).Some? ==> Obligation(b).value in places && places[Obligation(b).value] == InBuffer(slot))
    && (b.held.Some? ==> b.held.value.ticket in places && places[b.held.value.ticket] == InHeld(slot))
  }

  predicate ReaderKept(h: nat, r: Reader<nat>, places: map<nat, Place>) {
    r.lease.Some? ==>
      r.lease.value.ticket in places && places[r.lease.value.ticket] == InRead(h) && r.lease.value.home == r.owner
  }

  // The place of a ticket really holds it.
  predicate PlaceKept(t: nat, place: Place, buffers: map<nat, Buffer<nat, nat>>, readers: map<nat, Reader<nat>>) {
    match place
    case InBuffer(slot) => slot in buffers && Obligation(buffers[slot]) == Some(t)
    case InHeld(slot) => slot in buffers && TicketOf(buffers[slot].held) == Some(t)
    case InRead(h) => h in readers && TicketOf(readers[h].lease) == Some(t)
    case Gone => true
  }

  // How often a ticket has been redeemed, by where it is.
  function Expected(places: map<nat, Place>, t: nat): nat {
    if t in places && places[t] == Gone then 1 else 0
  }

  predicate BuffersKept(buffers: map<nat, Buffer<nat, nat>>, places: map<nat, Place>) {
    forall slot | slot in buffers :: BufferKept(slot, buffers[slot], places)
  }

  predicate ReadersKept(readers: map<nat, Reader<nat>>, places: map<nat, Place>) {
    forall h | h in readers :: ReaderKept(h, readers[h], places)
  }

  predicate PlacesKept(places: map<nat, Place>, buffers: map<nat, Buffer<nat, nat>>, readers: map<nat, Reader<nat>>) {
    forall t | t in places :: PlaceKept(t, places[t], buffers, readers)
  }

  ghost predicate LogKept(log: seq<Effect>, places: map<nat, Place>) {
    forall t: nat :: Redeemed(log, t) == Expected(places, t)
  }

  predicate AcquiringKept(acquiring: map<nat, nat>, readers: map<nat, Reader<nat>>) {
    forall h | h in acquiring :: h in readers && readers[h].lease.None? && readers[h].owner.None?
  }

  ghost predicate Kept(w: World) {
    && BuffersKept(w.buffers, w.places)
    && ReadersKept(w.readers, w.places)
    && PlacesKept(w.places, w.buffers, w.readers)
    && LogKept(w.log, w.places)
    && AcquiringKept(w.acquiring, w.readers)
  }

  // ---- Redeeming tickets ----

  function Redeem(places: map<nat, Place>, a: Option<nat>, b: Option<nat>): map<nat, Place> {
    Moved(Moved(places, a, Gone), b, Gone)
  }

  // Effects that redeem exactly tickets `a` and `b`, neither redeemed before.
  lemma LogRedeems(log: seq<Effect>, effects: seq<Effect>, places: map<nat, Place>, a: Option<nat>, b: Option<nat>)
    requires LogKept(log, places)
    requires a.Some? ==> a.value in places && places[a.value] != Gone && a != b
    requires b.Some? ==> b.value in places && places[b.value] != Gone
    requires forall t: nat :: Redeemed(effects, t) == (if a == Some(t) then 1 else 0) + (if b == Some(t) then 1 else 0)
    ensures LogKept(log + effects, Redeem(places, a, b))
  {
    forall t: nat ensures Redeemed(log + effects, t) == Expected(Redeem(places, a, b), t) {
      RedeemedConcat(log, effects, t);
    }
  }

  // Tickets kept elsewhere are not disturbed.
  lemma BuffersUndisturbed(buffers: map<nat, Buffer<nat, nat>>, places: map<nat, Place>, slot: nat, a: Option<nat>, b: Option<nat>)
    requires BuffersKept(buffers - {slot}, places)
    requires a.Some? ==> a.value in places && places[a.value] == InHeld(slot)
    requires b.Some? ==> b.value in places && places[b.value] == InBuffer(slot)
    ensures BuffersKept(buffers - {slot}, Redeem(places, a, b))
  {
    var others := buffers - {slot};
    forall x | x in others ensures BufferKept(x, others[x], Redeem(places, a, b)) {
      assert BufferKept(x, others[x], places);
    }
  }

  lemma ReadersUndisturbed(readers: map<nat, Reader<nat>>, places: map<nat, Place>, slot: nat, a: Option<nat>, b: Option<nat>)
    requires ReadersKept(readers, places)
    requires a.Some? ==> a.value in places && places[a.value] == InHeld(slot)
    requires b.Some? ==> b.value in places && places[b.value] == InBuffer(slot)
    ensures ReadersKept(readers, Redeem(places, a, b))
  {
    forall h | h in readers ensures ReaderKept(h, readers[h], Redeem(places, a, b)) {
      assert ReaderKept(h, readers[h], places);
    }
  }

  lemma ResetPlaces(w: World, slot: nat)
    requires Kept(w) && slot in w.buffers
    ensures PlacesKept(ResetAt(w, slot).places, ResetAt(w, slot).buffers, w.readers)
  {
    var b, w' := w.buffers[slot], ResetAt(w, slot);
    assert BufferKept(slot, b, w.places);
    forall t | t in w'.places ensures PlaceKept(t, w'.places[t], w'.buffers, w.readers) {
      assert t in w.places && PlaceKept(t, w.places[t], w.buffers, w.readers);
    }
  }

  lemma ResetKeeps(w: World, slot: nat)
    requires Kept(w) && slot in w.buffers
    ensures Kept(ResetAt(w, slot))
  {
    var b, w' := w.buffers[slot], ResetAt(w, slot);
    var held, due := TicketOf(b.held), Obligation(b);
    assert BufferKept(slot, b, w.places);
    forall t: nat
      ensures Redeemed(ResetEffects(b), t) == (if held == Some(t) then 1 else 0) + (if due == Some(t) then 1 else 0)
    {
      ResetRedeems(b, t);
    }
    LogRedeems(w.log, ResetEffects(b), w.places, held, due);
    BuffersUndisturbed(w.buffers, w.places, slot, held, due);
    ReadersUndisturbed(w.readers, w.places, slot, held, due);
    forall x | x in w'.buffers ensures BufferKept(x, w'.buffers[x], w'.places) {
      if x != slot {
        assert x in w.buffers - {slot};
      }
    }
    ResetPlaces(w, slot);
  }

  // References to mappings redeem nothing.
  predicate OnlyMappings(effects: seq<Effect>) {
    forall i | 0 <= i < |effects| :: effects[i].MappingTaken? || effects[i].MappingDropped?
  }

  lemma MappingsRedeemNothing(log: seq<Effect>, effects: seq<Effect>, places: map<nat, Place>)
    requires LogKept(log, places) && OnlyMappings(effects)
    ensures LogKept(log + effects, places)
  {
    forall t: nat ensures Redeemed(log + effects, t) == Redeemed(log, t) {
      RedeemedConcat(log, effects, t);
      NothingRedeemed(effects, t);
    }
  }

  lemma {:induction false} NothingRedeemed(effects: seq<Effect>, t: nat)
    requires OnlyMappings(effects)
    ensures Redeemed(effects, t) == 0
  {
    if effects != [] {
      NothingRedeemed(effects[..|effects| - 1], t);
    }
  }

  // ---- Moving tickets ----

  predicate HoldsNothing(b: Buffer<nat, nat>) {
    b.data.None? && b.held.None?
  }

  lemma TransferBufferPlaces(w: World, slot: nat, from: nat, leftover: bool)
    requires Kept(w) && from in w.buffers && slot != from && (slot in w.buffers ==> HoldsNothing(w.buffers[slot]))
    ensures PlacesKept(TransferBuffer(w, slot, from, leftover).places, TransferBuffer(w, slot, from, leftover).buffers, w.readers)
  {
    var b, w' := w.buffers[from], TransferBuffer(w, slot, from, leftover);
    assert BufferKept(from, b, w.places);
    forall t | t in w'.places ensures PlaceKept(t, w'.places[t], w'.buffers, w.readers) {
      assert t in w.places && PlaceKept(t, w.places[t], w.buffers, w.readers);
    }
  }

  lemma TransferBufferBuffers(w: World, slot: nat, from: nat, leftover: bool)
    requires Kept(w) && from in w.buffers && slot != from && (slot in w.buffers ==> HoldsNothing(w.buffers[slot]))
    ensures BuffersKept(TransferBuffer(w, slot, from, leftover).buffers, TransferBuffer(w, slot, from, leftover).places)
  {
    var b, w' := w.buffers[from], TransferBuffer(w, slot, from, leftover);
    assert BufferKept(from, b, w.places);
    forall x | x in w'.buffers ensures BufferKept(x, w'.buffers[x], w'.places) {
      if x != slot && x != from {
        assert BufferKept(x, w.buffers[x], w.places);
      }
    }
  }

  lemma TransferBufferKeeps(w: World, slot: nat, from: nat, leftover: bool)
    requires Kept(w) && from in w.buffers && slot != from && (slot in w.buffers ==> HoldsNothing(w.buffers[slot]))
    ensures Kept(TransferBuffer(w, slot, from, leftover))
  {
    var b, w' := w.buffers[from], TransferBuffer(w, slot, from, leftover);
    assert BufferKept(from, b, w.places);
    TransferBufferPlaces(w, slot, from, leftover);
    TransferBufferBuffers(w, slot, from, leftover);
    MappingsRedeemNothing(w.log, TakeMapping(CapturedBy(w'.buffers[from])), w'.places);
    forall h | h in w.readers ensures ReaderKept(h, w.readers[h], w'.places) {
      assert ReaderKept(h, w.readers[h], w.places);
    }
  }

  lemma ReleasePlaces(w: World, h: nat)
    requires Kept(w) && h in w.readers && h !in w.acquiring && Known(w.readers[h].state, w.states)
    ensures PlacesKept(ReleaseAt(w, h).places, w.buffers, ReleaseAt(w, h).readers)
    ensures BuffersKept(w.buffers, ReleaseAt(w, h).places)
  {
    var w' := ReleaseAt(w, h);
    assert ReaderKept(h, w.readers[h], w.places);
    forall t | t in w'.places ensures PlaceKept(t, w'.places[t], w.buffers, w'.readers) {
      assert t in w.places && PlaceKept(t, w.places[t], w.buffers, w.readers);
    }
    forall x | x in w.buffers ensures BufferKept(x, w.buffers[x], w'.places) {
      assert BufferKept(x, w.buffers[x], w.places);
    }
  }

  lemma ReleaseKeeps(w: World, h: nat)
    requires Kept(w) && h in w.readers && h !in w.acquiring && Known(w.readers[h].state, w.states)
    ensures Kept(ReleaseAt(w, h))
  {
    var r, w' := w.readers[h], ReleaseAt(w, h);
    var lease := TicketOf(r.lease);
    assert ReaderKept(h, r, w.places);
    forall t: nat ensures Redeemed(ReleaseEffects(r), t) == if lease == Some(t) then 1 else 0 {
      ReleaseRedeems(r, t);
    }
    LogRedeems(w.log, ReleaseEffects(r), w.places, lease, None);
    ReleasePlaces(w, h);
    forall x | x in w'.readers ensures ReaderKept(x, w'.readers[x], w'.places) {
      assert ReaderKept(x, w.readers[x], w.places);
    }
  }

  lemma TransferReadPlaces(w: World, h: nat, source: nat)
    requires Kept(w) && source in w.readers && h != source && (h in w.readers ==> w.readers[h].lease.None?)
    ensures PlacesKept(TransferRead(w, h, source).places, w.buffers, TransferRead(w, h, source).readers)
    ensures BuffersKept(w.buffers, TransferRead(w, h, source).places)
  {
    var w' := TransferRead(w, h, source);
    assert ReaderKept(source, w.readers[source], w.places);
    forall t | t in w'.places ensures PlaceKept(t, w'.places[t], w.buffers, w'.readers) {
      assert t in w.places && PlaceKept(t, w.places[t], w.buffers, w.readers);
    }
    forall x | x in w.buffers ensures BufferKept(x, w.buffers[x], w'.places) {
      assert BufferKept(x, w.buffers[x], w.places);
    }
  }

  lemma TransferReadKeeps(w: World, h: nat, source: nat)
    requires Kept(w) && source in w.readers && h != source && (h in w.readers ==> w.readers[h].lease.None?)
    requires h !in w.acquiring && source !in w.acquiring
    ensures Kept(TransferRead(w, h, source))
  {
    var w' := TransferRead(w, h, source);
    assert ReaderKept(source, w.readers[source], w.places);
    TransferReadPlaces(w, h, source);
    forall x | x in w'.readers ensures ReaderKept(x, w'.readers[x], w'.places) {
      if x != h && x != source {
        assert ReaderKept(x, w.readers[x], w.places);
      }
    }
  }

  // ---- Issuing tickets ----

  // A ticket never seen before is neither redeemed nor kept anywhere.
  lemma UnknownTicket(w: World, ticket: nat)
    requires Kept(w) && ticket !in w.places
    ensures Redeemed(w.log, ticket) == 0
    ensures forall slot | slot in w.buffers :: Obligation(w.buffers[slot]) != Some(ticket) && TicketOf(w.buffers[slot].held) != Some(ticket)
    ensures forall h | h in w.readers :: TicketOf(w.readers[h].lease) != Some(ticket)
  {
    forall slot | slot in w.buffers
      ensures Obligation(w.buffers[slot]) != Some(ticket) && TicketOf(w.buffers[slot].held) != Some(ticket)
    {
      assert BufferKept(slot, w.buffers[slot], w.places);
    }
    forall h | h in w.readers ensures TicketOf(w.readers[h].lease) != Some(ticket) {
      assert ReaderKept(h, w.readers[h], w.places);
    }
  }

  // The buffer in `slot` changes, and a new ticket may be put into it.
  lemma IssueToBuffer(w: World, slot: nat, b: Buffer<nat, nat>, ticket: nat, place: Place)
    requires Kept(w) && ticket !in w.places && (place == InBuffer(slot) || place == InHeld(slot))
    requires BufferKept(slot, b, w.places[ticket := place]) && PlaceKept(ticket, place, w.buffers[slot := b], w.readers)
    requires if slot in w.buffers then
        (place == InHeld(slot) && Obligation(b) == Obligation(w.buffers[slot]) && w.buffers[slot].held.None?)
      else place == InBuffer(slot)
    ensures Kept(w.(buffers := w.buffers[slot := b], places := w.places[ticket := place]))
  {
    var w' := w.(buffers := w.buffers[slot := b], places := w.places[ticket := place]);
    UnknownTicket(w, ticket);
    forall x | x in w'.buffers ensures BufferKept(x, w'.buffers[x], w'.places) {
      if x != slot {
        assert BufferKept(x, w.buffers[x], w.places);
      }
    }
    forall h | h in w.readers ensures ReaderKept(h, w.readers[h], w'.places) {
      assert ReaderKept(h, w.readers[h], w.places);
    }
    forall t | t in w'.places ensures PlaceKept(t, w'.places[t], w'.buffers, w.readers) {
      if t != ticket {
        assert PlaceKept(t, w.places[t], w.buffers, w.readers);
      }
    }
  }

  lemma IssueToReader(w: World, h: nat, r: Reader<nat>, ticket: nat)
    requires Kept(w) && ticket !in w.places && h in w.acquiring && r.lease == Some(Lease(ticket, r.owner))
    ensures Kept(w.(acquiring := w.acquiring - {h}, readers := w.readers[h := r], places := w.places[ticket := InRead(h)]))
  {
    var readers, places := w.readers[h := r], w.places[ticket := InRead(h)];
    UnknownTicket(w, ticket);
    forall x | x in w.buffers ensures BufferKept(x, w.buffers[x], places) {
      assert BufferKept(x, w.buffers[x], w.places);
    }
    forall x | x in readers ensures ReaderKept(x, readers[x], places) {
      if x != h {
        assert ReaderKept(x, w.readers[x], w.places);
      }
    }
    forall t | t in places ensures PlaceKept(t, places[t], w.buffers, readers) {
      if t != ticket {
        assert PlaceKept(t, w.places[t], w.buffers, w.readers);
      }
    }
  }

  // A buffer that keeps nothing may come or go, and a buffer may be given its handle state.
  lemma QuietBuffer(w: World, slot: nat, b: Buffer<nat, nat>)
    requires Kept(w) && HoldsNothing(b) && (slot in w.buffers ==> HoldsNothing(w.buffers[slot]))
    ensures Kept(w.(buffers := w.buffers[slot := b])) && Kept(w.(buffers := w.buffers - {slot}))
  {
    var buffers, fewer := w.buffers[slot := b], w.buffers - {slot};
    forall t | t in w.places ensures PlaceKept(t, w.places[t], buffers, w.readers) && PlaceKept(t, w.places[t], fewer, w.readers) {
      assert PlaceKept(t, w.places[t], w.buffers, w.readers);
    }
    assert BuffersKept(buffers, w.places) && BuffersKept(fewer, w.places);
  }

  lemma StateKeeps(w: World, slot: nat, freshState: nat)
    requires Kept(w) && slot in w.buffers
    ensures Kept(WithState(w, slot, freshState))
  {
    var w' := WithState(w, slot, freshState);
    assert BufferKept(slot, w.buffers[slot], w.places);
    forall x | x in w'.buffers ensures BufferKept(x, w'.buffers[x], w.places) {
      assert BufferKept(x, w.buffers[x], w.places);
    }
    forall t | t in w.places ensures PlaceKept(t, w.places[t], w'.buffers, w.readers) {
      assert PlaceKept(t, w.places[t], w.buffers, w.readers);
    }
  }

  // A reader without a lease may come or go.
  lemma QuietReader(w: World, h: nat, r: Reader<nat>)
    requires Kept(w) && r.lease.None? && (h in w.readers ==> w.readers[h].lease.None?)
    ensures PlacesKept(w.places, w.buffers, w.readers[h := r]) && PlacesKept(w.places, w.buffers, w.readers - {h})
    ensures ReadersKept(w.readers[h := r], w.places) && ReadersKept(w.readers - {h}, w.places)
  {
    forall t | t in w.places
      ensures PlaceKept(t, w.places[t], w.buffers, w.readers[h := r]) && PlaceKept(t, w.places[t], w.buffers, w.readers - {h})
    {
      assert PlaceKept(t, w.places[t], w.buffers, w.readers);
    }
  }

  // ---- Every operation ----

  lemma BufferOpKeeps(w: World, op: Op)
    requires Kept(w) && Allowed(w, op)
    requires op.NewBuffer? || op.DefaultBuffer? || op.MoveBuffer? || op.AssignBuffer? || op.DestroyBuffer? || op.HoldReference?
    ensures Kept(Next(w, op))
  {
    match op
    case NewBuffer(slot, _, ticket, _, mapping, _, _) =>
      IssueToBuffer(w, slot, Next(w, op).buffers[slot], ticket, InBuffer(slot));
      MappingsRedeemNothing(w.log, TakeMapping(mapping), Next(w, op).places);
      MappingsRedeemNothing(w.log + TakeMapping(mapping), TakeMapping(mapping), Next(w, op).places);
    case DefaultBuffer(slot) => QuietBuffer(w, slot, EmptyBuffer());
    case MoveBuffer(slot, from, leftover) => TransferBufferKeeps(w, slot, from, leftover);
    case AssignBuffer(slot, from, leftover) =>
      if slot != from {
        ResetKeeps(w, slot);
        TransferBufferKeeps(ResetAt(w, slot), slot, from, leftover);
      }
    case DestroyBuffer(slot) =>
      ResetKeeps(w, slot);
      QuietBuffer(ResetAt(w, slot), slot, EmptyBuffer());
    case HoldReference(slot, ticket, _) =>
      assert BufferKept(slot, w.buffers[slot], w.places);
      if Next(w, op) != w {
        IssueToBuffer(w, slot, Next(w, op).buffers[slot], ticket, InHeld(slot));
      }
  }

  lemma BeginReadKeeps(w: World, slot: nat, h: nat)
    requires Kept(w) && Allowed(w, BeginRead(slot, h))
    ensures Kept(Next(w, BeginRead(slot, h)))
  {
    QuietReader(w, h, Reader(None, w.buffers[slot].state, None, None));
  }

  lemma EndReadKeeps(w: World, h: nat, ticket: nat, refused: bool)
    requires Kept(w) && Allowed(w, EndRead(h, ticket, refused))
    ensures Kept(Next(w, EndRead(h, ticket, refused)))
  {
    var b, w' := w.buffers[w.acquiring[h]], Next(w, EndRead(h, ticket, refused));
    if b.control.Some? && !refused {
      IssueToReader(w, h, w'.readers[h], ticket);
      MappingsRedeemNothing(w.log, TakeMapping(b.owner), w'.places);
    } else {
      QuietReader(w, h, Reader(b.data, w.readers[h].state, None, b.owner));
      MappingsRedeemNothing(w.log, TakeMapping(b.owner), w.places);
    }
  }

  lemma ReadOpKeeps(w: World, op: Op)
    requires Kept(w) && Allowed(w, op)
    requires op.EndRead? || op.DefaultRead? || op.MoveRead? || op.AssignRead? || op.DestroyRead?
    ensures Kept(Next(w, op))
  {
    match op
    case EndRead(h, ticket, refused) => EndReadKeeps(w, h, ticket, refused);
    case DefaultRead(h) => QuietReader(w, h, EmptyReader());
    case MoveRead(h, source) => TransferReadKeeps(w, h, source);
    case AssignRead(h, source) =>
      if h != source {
        ReleaseKeeps(w, h);
        TransferReadKeeps(ReleaseAt(w, h), h, source);
      }
    case DestroyRead(h) =>
      ReleaseKeeps(w, h);
      QuietReader(ReleaseAt(w, h), h, EmptyReader());
  }

  // Writing concerns mappings, but no ticket.
  lemma WriteLeavesTickets(w: World, op: Op)
    requires Allowed(w, op)
    requires op.TakeWrite? || op.DefaultWrite? || op.MoveWrite? || op.AssignWrite? || op.DestroyWrite? || op.Finalize?
    ensures
      var w' := Next(w, op);
      && w'.buffers == w.buffers && w'.readers == w.readers && w'.acquiring == w.acquiring && w'.places == w.places
      && |w.log| <= |w'.log| && w'.log[..|w.log|] == w.log && OnlyMappings(w'.log[|w.log|..])
  {
  }

  lemma SameTickets(w: World, w': World)
    requires Kept(w) && w'.buffers == w.buffers && w'.readers == w.readers && w'.acquiring == w.acquiring
    requires w'.places == w.places && |w.log| <= |w'.log| && w'.log[..|w.log|] == w.log && OnlyMappings(w'.log[|w.log|..])
    ensures Kept(w')
  {
    assert w'.log == w.log + w'.log[|w.log|..];
    MappingsRedeemNothing(w.log, w'.log[|w.log|..], w.places);
  }

  lemma OpKeeps(w: World, op: Op)
    requires Kept(w) && Allowed(w, op)
    ensures Kept(Next(w, op))
  {
    if op.CreateState? {
      StateKeeps(w, op.slot, op.freshState);
    } else if op.BeginRead? {
      BeginReadKeeps(w, op.slot, op.h);
    } else if op.EndRead? || op.DefaultRead? || op.MoveRead? || op.AssignRead? || op.DestroyRead? {
      ReadOpKeeps(w, op);
    } else if op.TakeWrite? || op.DefaultWrite? || op.MoveWrite? || op.AssignWrite? || op.DestroyWrite? || op.Finalize? {
      WriteLeavesTickets(w, op);
      SameTickets(w, Next(w, op));
    } else {
      BufferOpKeeps(w, op);
    }
  }

  lemma {:induction false} ProgramKeeps(worlds: seq<World>, ops: seq<Op>, i: nat)
    requires IsProgram(worlds, ops) && i < |worlds|
    ensures Kept(worlds[i])
  {
    if i > 0 {
      ProgramKeeps(worlds, ops, i - 1);
      OpKeeps(worlds[i - 1], ops[i - 1]);
    }
  }

  // Someone still keeps ticket `t`: a buffer its deleter or held lease, or a read handle its lease.
  predicate Outstanding(w: World, t: nat) {
    || (exists slot | slot in w.buffers :: Obligation(w.buffers[slot]) == Some(t) || TicketOf(w.buffers[slot].held) == Some(t))
    || (exists h | h in w.readers :: TicketOf(w.readers[h].lease) == Some(t))
  }

  // In every program, every deleter runs once and every reader reference is dropped once: not while
  // someone still keeps it, and no more than once ever after.
  lemma ReleasedExactlyOnce(worlds: seq<World>, ops: seq<Op>, i: nat, t: nat)
    requires IsProgram(worlds, ops) && i < |worlds| && t in worlds[i].places
    ensures Redeemed(worlds[i].log, t) == if Outstanding(worlds[i], t) then 0 else 1
  {
    var w := worlds[i];
    ProgramKeeps(worlds, ops, i);
    assert PlaceKept(t, w.places[t], w.buffers, w.readers);
  }

  // When every buffer and read handle is gone, every ticket ever issued has been redeemed once.
  lemma NothingLeaks(worlds: seq<World>, ops: seq<Op>, i: nat, t: nat)
    requires IsProgram(worlds, ops) && i < |worlds| && t in worlds[i].places
    requires worlds[i].buffers == map[] && worlds[i].readers == map[]
    ensures Redeemed(worlds[i].log, t) == 1
  {
    ReleasedExactlyOnce(worlds, ops, i, t);
  }

  // No ticket is kept in two places.
  lemma KeptInOnePlace(w: World, a: nat, b: nat)
    requires Kept(w) && a in w.buffers && b in w.buffers
    requires Obligation(w.buffers[a]).Some? && Obligation(w.buffers[a]) == Obligation(w.buffers[b])
    ensures a == b
  {
    assert BufferKept(a, w.buffers[a], w.places) && BufferKept(b, w.buffers[b], w.places);
  }
}
