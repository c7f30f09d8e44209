// Buffers and handles as values: the fields the C++ objects move about, and the releases that
// resetting or destroying one of them performs, in order.

module HandleSpec {
  import opened WriteState
  import opened Bytes
  import opened Outcome

  // One unit of a block's reader count, held through a shared pointer with a releasing deleter.
  // `home` is the imported mapping its header lives in; the publisher's own blocks have none.
  datatype Lease = Lease(ticket: nat, home: Option<nat>)

  // A buffer's deleter: it frees a pool block, or releases the reader reference of an import, in which
  // case the closure also keeps the imported mapping.
  datatype Deleter = Deleter(ticket: nat, captured: Option<nat>)

  datatype Effect =
    | LeaseDropped(lease: Lease)
    | DeleterRan(deleter: Deleter)
    | MappingTaken(mapping: nat)
    | MappingDropped(mapping: nat)

  function DropLease(lease: Option<Lease>): seq<Effect> {
    match lease case None => [] case Some(l) => [LeaseDropped(l)]
  }

  function DropMapping(mapping: Option<nat>): seq<Effect> {
    match mapping case None => [] case Some(m) => [MappingDropped(m)]
  }

  function TakeMapping(mapping: Option<nat>): seq<Effect> {
    match mapping case None => [] case Some(m) => [MappingTaken(m)]
  }

  // The block identity a buffer carries, enough to describe an imported one again.
  datatype Identity = Identity(blockId: U32, mappedSize: U64, ipcPid: int, ipcName: string, ipcUid: U64)

  // `S` identifies the shared handle state and `C` the control header.
  datatype Buffer<S, C> = Buffer(
    data: Option<nat>,
    size: nat,
    deleter: Option<Deleter>,
    control: Option<C>,
    owner: Option<nat>,
    held: Option<Lease>,
    state: Option<S>,
    writable: bool,
    identity: Identity)

  function EmptyBuffer<S, C>(): Buffer<S, C> {
    Buffer(None, 0, None, None, None, None, None, true, Identity(0, 0, 0, "", 0))
  }

  // What a move leaves behind. The library may leave a copy of the deleter and of the name in the
  // source: `deleter` and `name` stand for whatever is there.
  function MovedFrom<S, C>(deleter: Option<Deleter>, name: string): Buffer<S, C> {
    EmptyBuffer<S, C>().(deleter := deleter, identity := Identity(0, 0, 0, name, 0))
  }

  // `reset()`: the held lease, the owner, then the deleter, whose closure goes last.
  function ResetEffects<S, C>(b: Buffer<S, C>): seq<Effect> {
    DropLease(b.held) + CloseEffects(b)
  }

  function CloseEffects<S, C>(b: Buffer<S, C>): seq<Effect> {
    DropMapping(b.owner) +
    match b.deleter
    case None => []
    case Some(d) => (if b.data.Some? then [DeleterRan(d)] else []) + DropMapping(d.captured)
  }

  datatype Reader<S> = Reader(data: Option<nat>, state: Option<S>, lease: Option<Lease>, owner: Option<nat>)

  function EmptyReader<S>(): Reader<S> {
    Reader(None, None, None, None)
  }

  // `release()` after the local slot was given back: the lease before the mapping it points into.
  function ReleaseEffects<S>(r: Reader<S>): seq<Effect> {
    DropLease(r.lease) + DropMapping(r.owner)
  }

  datatype Writer<S> = Writer(data: Option<nat>, state: Option<S>, owner: Option<nat>)

  function EmptyWriter<S>(): Writer<S> {
    Writer(None, None, None)
  }

  // ---- The local write-once state ----

  datatype Local = Local(writing: Writing, activeReaders: nat)

  const UNUSED := Local(Unset, 0)

  // Taking a local read slot; refused while a write is in progress.
  function TakeReadSlot(s: Local): Option<Local> {
    if s.writing == InUse then None else Some(s.(activeReaders := s.activeReaders + 1))
  }

  function GiveReadSlot(s: Local): Local {
    if s.activeReaders > 0 then s.(activeReaders := s.activeReaders - 1) else s
  }

  function TakeWriteSlot(s: Local): Option<Local> {
    if s.writing == Unset && s.activeReaders == 0 then Some(s.(writing := InUse)) else None
  }

  // Explicit finalisation, as descriptor creation performs it: only a write in progress changes.
  function FinalizeWriting(s: Local): Local {
    if s.writing == InUse then s.(writing := Finalized) else s
  }

  // The end of a write handle.
  function EndWriting(s: Local): Local {
    s.(writing := Finalized)
  }

  // ---- Drops ----

  predicate Drops(e: Effect, t: nat) {
    match e
    case LeaseDropped(l) => l.ticket == t
    case DeleterRan(d) => d.ticket == t
    case _ => false
  }

  // How often ticket `t` was redeemed.
  function Redeemed(log: seq<Effect>, t: nat): nat {
    if log == [] then 0 else Redeemed(log[..|log| - 1], t) + (if Drops(log[|log| - 1], t) then 1 else 0)
  }

  lemma {:induction false} RedeemedConcat(a: seq<Effect>, b: seq<Effect>, t: nat)
    ensures Redeemed(a + b, t) == Redeemed(a, t) + Redeemed(b, t)
  {
    if b == [] {
      assert a + b == a;
    } else {
      RedeemedConcat(a, b[..|b| - 1], t);
      assert (a + b)[..|a + b| - 1] == a + b[..|b| - 1];
    }
  }

  // The mapping a dropped reference points into.
  function HomeOf(e: Effect): Option<nat> {
    match e
    case LeaseDropped(l) => l.home
    case DeleterRan(d) => d.captured
    case _ => None
  }

  // A buffer whose references all live in the mapping it keeps.
  predicate HomeFits<S, C>(b: Buffer<S, C>) {
    && (b.held.Some? ==> b.held.value.home == b.owner)
    && (b.data.Some? ==> b.deleter.Some? && b.deleter.value.captured == b.owner)
  }

  // Resetting redeems the held lease and, for a buffer with data, the deleter: each once.
  lemma ResetRedeems<S, C>(b: Buffer<S, C>, t: nat)
    requires HomeFits(b)
    ensures Redeemed(ResetEffects(b), t) ==
            (if b.held.Some? && b.held.value.ticket == t then 1 else 0) +
            (if b.data.Some? && b.deleter.value.ticket == t then 1 else 0)
  {
    var x, y := DropLease(b.held), DropMapping(b.owner);
    var z: seq<Effect> := match b.deleter
      case None => []
      case Some(d) => (if b.data.Some? then [DeleterRan(d)] else []) + DropMapping(d.captured);
    RedeemedConcat(x, CloseEffects(b), t);
    RedeemedConcat(y, z, t);
    if b.deleter.Some? {
      RedeemedConcat(if b.data.Some? then [DeleterRan(b.deleter.value)] else [], DropMapping(b.deleter.value.captured), t);
    }
  }

  lemma ReleaseRedeems<S>(r: Reader<S>, t: nat)
    ensures Redeemed(ReleaseEffects(r), t) == if r.lease.Some? && r.lease.value.ticket == t then 1 else 0
  {
    RedeemedConcat(DropLease(r.lease), DropMapping(r.owner), t);
  }
}
