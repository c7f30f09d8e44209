// The cross-process block-reuse protocol as a state machine: one action is one atomic
// operation of one thread, and any two actions of different threads may interleave.
// Each action cites the source line it models in README.md.

module Protocol {
  import opened WriteState
  import opened Bytes
  import opened ControlWord
  import opened Grace

  // Where the owning pool stands with a block. The four middle phases run under the pool mutex,
  // from the successful claim (or from the creation of a fresh block) to the blind `store(0)`.
  datatype Phase =
    | Free
    | Probed(published: nat)
    | Graced(published: nat)
    | Reserved(brandNew: bool)
    | Drawn(brandNew: bool)
    | UidCleared(brandNew: bool)
    | TimeCleared(brandNew: bool)
    | Live(writing: Writing)
  {
    predicate Preparing() { Reserved? || Drawn? || UidCleared? || TimeCleared? }
    predicate Fresh() { Preparing() && brandNew }
  }

  // `word`, `uid`, `stamp` and `payload` are the shared mapping; `current` and `phase` belong to the pool.
  datatype Block = Block(word: Word, uid: nat, stamp: nat, payload: seq<Byte>, current: nat, phase: Phase)

  // What a thread is doing with a block. `ImportRead` and `Relay` run inside an imported buffer
  // (the parent); `OwnerRead`, `OwnerHold` and `Describe` run inside the owner's buffer.
  datatype Role = Import | OwnerRead | OwnerHold | Describe | ImportRead(parent: nat) | Relay(parent: nat)

  datatype Pc = Started | Validated | Loaded(seen: Word) | Acquired | Stale | Held | UidStored | ClockRead(time: nat)

  datatype Actor = Actor(block: nat, uid: nat, role: Role, pc: Pc) {
    // Whether this actor accounts for one unit of the reader count.
    predicate HoldsReference() { pc == Acquired || pc == Stale || pc == Held }

    predicate InsideParent(p: nat) {
      (role == ImportRead(p) && pc != Held) || role == Relay(p)
    }

    predicate InsideOwner() {
      role == Describe || ((role == OwnerRead || role == OwnerHold) && pc != Held)
    }

    // About to load the control word: the loop entry, or a retry after a spurious failure.
    predicate AtLoopHead() {
      match role
      case Import => pc == Validated || pc.Loaded?
      case OwnerRead | OwnerHold | ImportRead(_) => pc == Started || pc.Loaded?
      case _ => false
    }

    // A buffer or handle through which payload bytes may be read.
    predicate CanRead() { pc == Held && role != OwnerHold }
  }

  // `used` maps every uid drawn so far to the block it was drawn for, and `sealed` records the
  // bytes of a generation at the moment its write is finalised; both only grow.
  datatype State = State(
    blocks: map<nat, Block>,
    actors: map<nat, Actor>,
    used: map<nat, nat>,
    sealed: map<nat, seq<Byte>>,
    clock: nat)

  const INITIAL := State(map[], map[], map[], map[], 0)

  datatype Action =
    // The owning pool.
    | Create(b: nat, size: nat)
    | Probe(b: nat)
    | CheckGrace(b: nat)
    | Claim(b: nat)
    | Draw(b: nat, u: nat)
    | ClearUid(b: nat)
    | ClearTime(b: nat)
    | OpenWord(b: nat)
    | FreeBlock(b: nat)
    // The owner's buffer and its write handle.
    | GetWrite(b: nat)
    | WriteByte(b: nat, i: nat, v: Byte)
    | DropWrite(b: nat)
    // Descriptors, by the owner or by a relay.
    | BeginDescribe(id: nat, b: nat)
    | BeginRelay(id: nat, p: nat)
    | StoreUid(id: nat)
    | ReadClock(id: nat)
    | Stamp(id: nat)
    // Importing.
    | BeginImport(id: nat, b: nat, u: nat)
    | Validate(id: nat)
    | Load(id: nat)
    | Cas(id: nat)
    | Recheck(id: nat)
    | Release(id: nat)
    // Local leases and reading.
    | BeginOwnerLease(id: nat, b: nat, hold: bool)
    | BeginImportRead(id: nat, p: nat)
    | ReadByte(id: nat, i: nat)
    | Tick(elapsed: nat)

  function Holders(actors: map<nat, Actor>, b: nat): set<nat> {
    set id | id in actors && actors[id].block == b && actors[id].HoldsReference()
  }

  function PutBlock(s: State, b: nat, k: Block): State {
    s.(blocks := s.blocks[b := k])
  }

  function PutActor(s: State, id: nat, a: Actor): State {
    s.(actors := s.actors[id := a])
  }

  function DropActor(s: State, id: nat): State {
    s.(actors := s.actors - {id})
  }

  predicate ActorAt(s: State, id: nat, pc: Pc) {
    id in s.actors && s.actors[id].pc == pc && s.actors[id].block in s.blocks
  }

  function BlockOf(s: State, id: nat): Block
    requires id in s.actors && s.actors[id].block in s.blocks
  {
    s.blocks[s.actors[id].block]
  }

  // A held imported buffer, the only kind of parent.
  predicate IsImported(s: State, p: nat) {
    ActorAt(s, p, Held) && s.actors[p].role == Import
  }

  predicate WritingIs(s: State, b: nat, w: Writing) {
    b in s.blocks && s.blocks[b].phase == Live(w)
  }

  // No local read handle of the present generation is alive or being made.
  predicate NoLocalReader(s: State, b: nat)
    requires b in s.blocks
  {
    forall id | id in s.actors ::
      !(s.actors[id].block == b && s.actors[id].role == OwnerRead && s.actors[id].uid == s.blocks[b].current)
  }

  // When an action may be taken: the thread is at the right point, and the client keeps the
  // lifetime contract (a buffer outlives the calls running inside it; bytes are written only
  // between acquiring the write handle and finalising it).
  predicate Enabled(s: State, a: Action) {
    match a
    case Create(b, size) => b !in s.blocks && size > 0
    case Probe(b) => b in s.blocks && s.blocks[b].phase == Free
    case CheckGrace(b) => b in s.blocks && s.blocks[b].phase.Probed?
    case Claim(b) => b in s.blocks && s.blocks[b].phase.Graced?
    case Draw(b, u) => b in s.blocks && s.blocks[b].phase.Reserved? && u != 0 && u !in s.used
    case ClearUid(b) => b in s.blocks && s.blocks[b].phase.Drawn?
    case ClearTime(b) => b in s.blocks && s.blocks[b].phase.UidCleared?
    case OpenWord(b) => b in s.blocks && s.blocks[b].phase.TimeCleared?
    case FreeBlock(b) =>
      b in s.blocks && s.blocks[b].phase.Live? &&
      forall id | id in s.actors :: !(s.actors[id].block == b && s.actors[id].InsideOwner())
    case GetWrite(b) => WritingIs(s, b, Unset) && NoLocalReader(s, b)
    case WriteByte(b, i, v) => WritingIs(s, b, InUse) && i < |s.blocks[b].payload|
    case DropWrite(b) => WritingIs(s, b, InUse)
    case BeginDescribe(id, b) => id !in s.actors && b in s.blocks && s.blocks[b].phase.Live?
    case BeginRelay(id, p) => id !in s.actors && IsImported(s, p) && BlockOf(s, p).uid == s.actors[p].uid
    case StoreUid(id) => ActorAt(s, id, Started) && s.actors[id].role == Describe
    case ReadClock(id) =>
      (ActorAt(s, id, UidStored) && s.actors[id].role == Describe) ||
      (ActorAt(s, id, Started) && s.actors[id].role.Relay?)
    case Stamp(id) => id in s.actors && s.actors[id].pc.ClockRead? && s.actors[id].block in s.blocks
    case BeginImport(id, b, u) => id !in s.actors && b in s.blocks && u != 0
    case Validate(id) => ActorAt(s, id, Started) && s.actors[id].role == Import
    case Load(id) => id in s.actors && s.actors[id].block in s.blocks && s.actors[id].AtLoopHead()
    case Cas(id) => id in s.actors && s.actors[id].pc.Loaded? && s.actors[id].block in s.blocks
    case Recheck(id) => ActorAt(s, id, Acquired)
    case Release(id) =>
      (ActorAt(s, id, Held) || ActorAt(s, id, Stale)) &&
      forall c | c in s.actors :: !s.actors[c].InsideParent(id)
    case BeginOwnerLease(id, b, hold) =>
      id !in s.actors && b in s.blocks && s.blocks[b].phase.Live? && (hold || s.blocks[b].phase.writing != InUse)
    case BeginImportRead(id, p) => id !in s.actors && IsImported(s, p)
    case ReadByte(id, i) =>
      ActorAt(s, id, Held) && s.actors[id].CanRead() && i < |BlockOf(s, id).payload|
    case Tick(elapsed) => true
  }

  // Finalising a write that is in progress records the generation's bytes.
  function Seal(s: State, b: nat): State
    requires b in s.blocks && s.blocks[b].phase.Live?
  {
    var k := s.blocks[b];
    if k.phase.writing == InUse then
      PutBlock(s, b, k.(phase := Live(Finalized))).(sealed := s.sealed[k.current := k.payload])
    else s
  }

  function Effect(s: State, a: Action): State
    requires Enabled(s, a)
  {
    match a
    case Create(b, size) => PutBlock(s, b, Block(0, 0, 0, seq(size, _ => 0), 0, Reserved(true)))
    case Probe(b) => PutBlock(s, b, s.blocks[b].(phase := Probed(s.blocks[b].stamp)))
    case CheckGrace(b) =>
      var published := s.blocks[b].phase.published;
      PutBlock(s, b, s.blocks[b].(phase := if GraceElapsed(published, s.clock) then Graced(published) else Free))
    case Claim(b) =>
      var k := s.blocks[b];
      PutBlock(s, b, if k.word == 0 then k.(word := REUSE_CLAIMED, phase := Reserved(false)) else k.(phase := Free))
    case Draw(b, u) =>
      PutBlock(s, b, s.blocks[b].(current := u, phase := Drawn(s.blocks[b].phase.brandNew))).(used := s.used[u := b])
    case ClearUid(b) => PutBlock(s, b, s.blocks[b].(uid := 0, phase := UidCleared(s.blocks[b].phase.brandNew)))
    case ClearTime(b) => PutBlock(s, b, s.blocks[b].(stamp := 0, phase := TimeCleared(s.blocks[b].phase.brandNew)))
    case OpenWord(b) => PutBlock(s, b, s.blocks[b].(word := 0, phase := Live(Unset)))
    case FreeBlock(b) => PutBlock(s, b, s.blocks[b].(phase := Free))
    case GetWrite(b) => PutBlock(s, b, s.blocks[b].(phase := Live(InUse)))
    case WriteByte(b, i, v) => PutBlock(s, b, s.blocks[b].(payload := s.blocks[b].payload[i := v]))
    case DropWrite(b) => Seal(s, b)
    case BeginDescribe(id, b) => PutActor(Seal(s, b), id, Actor(b, s.blocks[b].current, Describe, Started))
    case BeginRelay(id, p) => PutActor(s, id, Actor(s.actors[p].block, s.actors[p].uid, Relay(p), Started))
    case StoreUid(id) =>
      var x := s.actors[id];
      PutActor(PutBlock(s, x.block, BlockOf(s, id).(uid := BlockOf(s, id).current)), id, x.(pc := UidStored))
    case ReadClock(id) => PutActor(s, id, s.actors[id].(pc := ClockRead(s.clock)))
    case Stamp(id) =>
      DropActor(PutBlock(s, s.actors[id].block, BlockOf(s, id).(stamp := s.actors[id].pc.time)), id)
    case BeginImport(id, b, u) => PutActor(s, id, Actor(b, u, Import, Started))
    case Validate(id) =>
      if BlockOf(s, id).uid == s.actors[id].uid then PutActor(s, id, s.actors[id].(pc := Validated))
      else DropActor(s, id)
    case Load(id) => PutActor(s, id, s.actors[id].(pc := Loaded(BlockOf(s, id).word)))
    case Cas(id) =>
      var x, k := s.actors[id], BlockOf(s, id);
      if AcquireRefused(x.pc.seen) then DropActor(s, id)
      else if k.word == x.pc.seen then
        PutActor(PutBlock(s, x.block, k.(word := PlusOne(k.word))), id,
          x.(pc := if x.role == Import then Acquired else Held))
      else PutActor(s, id, x.(pc := Loaded(k.word)))
    case Recheck(id) =>
      PutActor(s, id, s.actors[id].(pc := if BlockOf(s, id).uid == s.actors[id].uid then Held else Stale))
    case Release(id) =>
      DropActor(PutBlock(s, s.actors[id].block, BlockOf(s, id).(word := MinusOne(BlockOf(s, id).word))), id)
    case BeginOwnerLease(id, b, hold) =>
      PutActor(s, id, Actor(b, s.blocks[b].current, if hold then OwnerHold else OwnerRead, Started))
    case BeginImportRead(id, p) =>
      PutActor(s, id, Actor(s.actors[p].block, s.actors[p].uid, ImportRead(p), Started))
    case ReadByte(id, i) => s
    case Tick(elapsed) => s.(clock := s.clock + elapsed)
  }
}
