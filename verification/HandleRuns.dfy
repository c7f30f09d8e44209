// Whole programs over buffers and handles: any sequence of constructions, moves, move-assignments,
// handle acquisitions and destructions.

module HandleRuns {
  import opened Outcome
  import opened HandleSpec

  // Where a ticket (a deleter to run, or a reader reference to drop) is kept.
  datatype Place = InBuffer(slot: nat) | InHeld(slot: nat) | InRead(h: nat) | Gone

  // `acquiring` are the read handles between taking the local slot and getting their lease, each with the
  // buffer it is being made from; data and mapping come with the lease. `granted` counts the write handles ever handed out.
  datatype World = World(
    buffers: map<nat, Buffer<nat, nat>>,
    readers: map<nat, Reader<nat>>,
    acquiring: map<nat, nat>,
    writers: map<nat, Writer<nat>>,
    states: map<nat, Local>,
    granted: map<nat, nat>,
    places: map<nat, Place>,
    log: seq<Effect>)

  const NOTHING := World(map[], map[], map[], map[], map[], map[], map[], [])

  datatype Op =
    | NewBuffer(slot: nat, data: nat, ticket: nat, control: Option<nat>, mapping: Option<nat>, size: nat, writable: bool)
    | DefaultBuffer(slot: nat)
    | MoveBuffer(slot: nat, from: nat, leftover: bool)
    | AssignBuffer(slot: nat, from: nat, leftover: bool)
    | DestroyBuffer(slot: nat)
    | HoldReference(slot: nat, ticket: nat, refused: bool)
    | CreateState(slot: nat, freshState: nat)
    | BeginRead(slot: nat, h: nat)
    | EndRead(h: nat, ticket: nat, refused: bool)
    | DefaultRead(h: nat)
    | MoveRead(h: nat, source: nat)
    | AssignRead(h: nat, source: nat)
    | DestroyRead(h: nat)
    | TakeWrite(slot: nat, h: nat)
    | DefaultWrite(h: nat)
    | MoveWrite(h: nat, source: nat)
    | AssignWrite(h: nat, source: nat)
    | DestroyWrite(h: nat)
    | Finalize(slot: nat)

  // ---- The primitives every operation is made of ----

  function Moved(places: map<nat, Place>, ticket: Option<nat>, to: Place): map<nat, Place> {
    match ticket case None => places case Some(t) => places[t := to]
  }

  // The obligation to run the deleter: only a buffer with data has one.
  function Obligation(b: Buffer<nat, nat>): Option<nat> {
    if b.data.Some? && b.deleter.Some? then Some(b.deleter.value.ticket) else None
  }

  function CapturedBy(b: Buffer<nat, nat>): Option<nat> {
    match b.deleter case None => None case Some(d) => d.captured
  }

  function TicketOf(lease: Option<Lease>): Option<nat> {
    match lease case None => None case Some(l) => Some(l.ticket)
  }

  function ResetAt(w: World, slot: nat): World
    requires slot in w.buffers
  {
    var b := w.buffers[slot];
    w.(buffers := w.buffers[slot := EmptyBuffer()],
       places := Moved(Moved(w.places, TicketOf(b.held), Gone), Obligation(b), Gone),
       log := w.log + ResetEffects(b))
  }

  // The fields of `from` go to `slot`; `leftover` says whether the library leaves the deleter and name behind.
  function TransferBuffer(w: World, slot: nat, from: nat, leftover: bool): World
    requires from in w.buffers
  {
    var b := w.buffers[from];
    var rest := if leftover then MovedFrom(b.deleter, b.identity.ipcName) else EmptyBuffer();
    w.(buffers := w.buffers[from := rest][slot := b],
       places := Moved(Moved(w.places, TicketOf(b.held), InHeld(slot)), Obligation(b), InBuffer(slot)),
       log := w.log + TakeMapping(CapturedBy(rest)))
  }

  function WithState(w: World, slot: nat, freshState: nat): World
    requires slot in w.buffers
  {
    if w.buffers[slot].state.Some? then w
    else w.(buffers := w.buffers[slot := w.buffers[slot].(state := Some(freshState))],
            states := w.states[freshState := UNUSED], granted := w.granted[freshState := 0])
  }

  // Taking the local read slot; refused, it throws.
  function EnterRead(w: World, slot: nat, h: nat): World
    requires slot in w.buffers && w.buffers[slot].state.Some? && w.buffers[slot].state.value in w.states
  {
    var b := w.buffers[slot];
    match TakeReadSlot(w.states[b.state.value])
    case None => w
    case Some(local) =>
      w.(readers := w.readers[h := Reader(None, b.state, None, None)], acquiring := w.acquiring[h := slot],
         states := w.states[b.state.value := local])
  }

  // Taking the one write handle; refused, it throws.
  function EnterWrite(w: World, slot: nat, h: nat): World
    requires slot in w.buffers && w.buffers[slot].state.Some?
    requires w.buffers[slot].state.value in w.states && w.buffers[slot].state.value in w.granted
  {
    var b, st := w.buffers[slot], w.buffers[slot].state.value;
    match TakeWriteSlot(w.states[st])
    case None => w
    case Some(local) =>
      w.(writers := w.writers[h := Writer(b.data, Some(st), b.owner)], states := w.states[st := local],
         granted := w.granted[st := w.granted[st] + 1], log := w.log + TakeMapping(b.owner))
  }

  // The local slot is given back, then the lease and the owner go.
  function ReleaseAt(w: World, h: nat): World
    requires h in w.readers && (w.readers[h].state.Some? ==> w.readers[h].state.value in w.states)
  {
    var r := w.readers[h];
    w.(readers := w.readers[h := EmptyReader()],
       states := match r.state case None => w.states case Some(st) => w.states[st := GiveReadSlot(w.states[st])],
       places := Moved(w.places, TicketOf(r.lease), Gone),
       log := w.log + ReleaseEffects(r))
  }

  function TransferRead(w: World, h: nat, source: nat): World
    requires source in w.readers
  {
    var r := w.readers[source];
    w.(readers := w.readers[source := EmptyReader()][h := r], places := Moved(w.places, TicketOf(r.lease), InRead(h)))
  }

  function EndWriteAt(w: World, h: nat): World
    requires h in w.writers && (w.writers[h].state.Some? ==> w.writers[h].state.value in w.states)
  {
    var r := w.writers[h];
    w.(writers := w.writers[h := EmptyWriter().(state := r.state)],
       states := match r.state case None => w.states case Some(st) => w.states[st := EndWriting(w.states[st])],
       log := w.log + DropMapping(r.owner))
  }

  function TransferWrite(w: World, h: nat, source: nat): World
    requires source in w.writers
  {
    w.(writers := w.writers[source := EmptyWriter()][h := w.writers[source]])
  }

  // ---- Operations ----

  predicate Known(state: Option<nat>, states: map<nat, Local>) {
    state.Some? ==> state.value in states
  }

  predicate Allowed(w: World, op: Op) {
    match op
    case NewBuffer(slot, _, ticket, _, _, _, _) => slot !in w.buffers && ticket !in w.places
    case DefaultBuffer(slot) => slot !in w.buffers
    case MoveBuffer(slot, from, _) => slot !in w.buffers && from in w.buffers
    case AssignBuffer(slot, from, _) => slot in w.buffers && from in w.buffers
    case DestroyBuffer(slot) => slot in w.buffers
    case HoldReference(slot, ticket, _) => slot in w.buffers && ticket !in w.places
    case CreateState(slot, freshState) => slot in w.buffers && freshState !in w.states
    case BeginRead(slot, h) =>
      slot in w.buffers && h !in w.readers && w.buffers[slot].state.Some? && Known(w.buffers[slot].state, w.states)
    case EndRead(h, ticket, _) =>
      h in w.acquiring && w.acquiring[h] in w.buffers && h in w.readers && ticket !in w.places && Known(w.readers[h].state, w.states)
    case DefaultRead(h) => h !in w.readers
    case MoveRead(h, source) => h !in w.readers && source in w.readers && source !in w.acquiring
    case AssignRead(h, source) =>
      h in w.readers && source in w.readers && h !in w.acquiring && source !in w.acquiring && Known(w.readers[h].state, w.states)
    case DestroyRead(h) => h in w.readers && h !in w.acquiring && Known(w.readers[h].state, w.states)
    case TakeWrite(slot, h) =>
      slot in w.buffers && h !in w.writers && w.buffers[slot].state.Some? && Known(w.buffers[slot].state, w.states) &&
      w.states.Keys <= w.granted.Keys
    case DefaultWrite(h) => h !in w.writers
    case MoveWrite(h, source) => h !in w.writers && source in w.writers
    case AssignWrite(h, source) => h in w.writers && source in w.writers && Known(w.writers[h].state, w.states)
    case DestroyWrite(h) => h in w.writers && Known(w.writers[h].state, w.states)
    case Finalize(slot) => slot in w.buffers && Known(w.buffers[slot].state, w.states)
  }

  // An operation that throws leaves the world as it was. A handle state is created on first use, as a
  // step of its own.
  function Next(w: World, op: Op): World
    requires Allowed(w, op)
  {
    match op
    case NewBuffer(slot, data, ticket, control, mapping, size, writable) =>
      w.(buffers := w.buffers[slot := EmptyBuffer<nat, nat>().(
           data := Some(data), size := size, deleter := Some(Deleter(ticket, mapping)), control := control, owner := mapping, writable := writable)],
         places := w.places[ticket := InBuffer(slot)],
         log := w.log + TakeMapping(mapping) + TakeMapping(mapping))
    case DefaultBuffer(slot) => w.(buffers := w.buffers[slot := EmptyBuffer()])
    case MoveBuffer(slot, from, leftover) => TransferBuffer(w, slot, from, leftover)
    case AssignBuffer(slot, from, leftover) => if slot == from then w else TransferBuffer(ResetAt(w, slot), slot, from, leftover)
    case DestroyBuffer(slot) => var w' := ResetAt(w, slot); w'.(buffers := w'.buffers - {slot})
    case HoldReference(slot, ticket, refused) =>
      var b := w.buffers[slot];
      if b.held.Some? || b.control.None? || refused then w
      else w.(buffers := w.buffers[slot := b.(held := Some(Lease(ticket, b.owner)))], places := w.places[ticket := InHeld(slot)])
    case CreateState(slot, freshState) => WithState(w, slot, freshState)
    case BeginRead(slot, h) => EnterRead(w, slot, h)
    case EndRead(h, ticket, refused) =>
      var r, b := w.readers[h], w.buffers[w.acquiring[h]];
      var w' := w.(acquiring := w.acquiring - {h});
      if b.control.None? then
        w'.(readers := w.readers[h := Reader(b.data, r.state, None, b.owner)], log := w.log + TakeMapping(b.owner))
      else if refused then
        w'.(readers := w.readers - {h},
            states := match r.state case None => w.states case Some(st) => w.states[st := GiveReadSlot(w.states[st])])
      else
        w'.(readers := w.readers[h := Reader(b.data, r.state, Some(Lease(ticket, b.owner)), b.owner)],
            places := w.places[ticket := InRead(h)], log := w.log + TakeMapping(b.owner))
    case DefaultRead(h) => w.(readers := w.readers[h := EmptyReader()])
    case MoveRead(h, source) => TransferRead(w, h, source)
    case AssignRead(h, source) => if h == source then w else TransferRead(ReleaseAt(w, h), h, source)
    case DestroyRead(h) => var w' := ReleaseAt(w, h); w'.(readers := w'.readers - {h})
    case TakeWrite(slot, h) =>
      var b := w.buffers[slot];
      if !b.writable || b.data.None? || b.size == 0 then w else EnterWrite(w, slot, h)
    case DefaultWrite(h) => w.(writers := w.writers[h := EmptyWriter()])
    case MoveWrite(h, source) => TransferWrite(w, h, source)
    case AssignWrite(h, source) => if h == source then w else TransferWrite(EndWriteAt(w, h), h, source)
    case DestroyWrite(h) => var w' := EndWriteAt(w, h); w'.(writers := w'.writers - {h})
    case Finalize(slot) =>
      match w.buffers[slot].state
      case None => w
      case Some(st) => w.(states := w.states[st := FinalizeWriting(w.states[st])])
  }

  predicate IsProgram(worlds: seq<World>, ops: seq<Op>) {
    && |worlds| == |ops| + 1 && worlds[0] == NOTHING
    && forall i | 0 <= i < |ops| :: Allowed(worlds[i], ops[i]) && worlds[i + 1] == Next(worlds[i], ops[i])
  }
}
