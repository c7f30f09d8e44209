// The inductive invariant of the reuse protocol: it holds in every reachable state,
// with no assumption on how clients order writing and describing.

module ProtocolInvariant {
  import opened WriteState
  import opened Bytes
  import opened ControlWord
  import opened Protocol

  // The reader count is the number of outstanding references; the claim bit is up exactly while a
  // reused block is being prepared, and nobody holds a reference during any preparation.
  ghost predicate WordFits(k: Block, holders: set<nat>) {
    && Readers(k.word) == |holders|
    && (Claimed(k.word) <==> k.phase.Preparing() && !k.phase.brandNew)
    && (k.phase.Preparing() ==> holders == {})
  }

  // Which generation the header may name: none or the current one, except that a reused block keeps
  // its old uid until the pool clears it. `used` ties every uid to a single block.
  ghost predicate UidFits(b: nat, k: Block, used: map<nat, nat>) {
    && (k.current == 0 ==> k.phase == Reserved(true))
    && (k.current != 0 ==> k.current in used && used[k.current] == b)
    && (k.uid != 0 ==> k.uid in used && used[k.uid] == b)
    && (k.phase.Fresh() ==> k.uid == 0 && k.stamp == 0)
    && (k.phase.Drawn? ==> k.uid != k.current)
    && (k.phase.UidCleared? || k.phase.TimeCleared? ==> k.uid == 0)
    && (!k.phase.Preparing() || k.phase.Reserved? ==> k.uid == 0 || k.uid == k.current)
  }

  // Bytes of a finalised generation stay as they were sealed until the block is claimed again.
  ghost predicate BytesFit(k: Block, sealed: map<nat, seq<Byte>>) {
    && |k.payload| > 0
    && (k.phase == Live(Finalized) ==> k.current in sealed)
    && ((k.phase.Live? && k.phase.writing != Finalized) || k.phase.Drawn? || k.phase.UidCleared? || k.phase.TimeCleared?
        ==> k.current !in sealed)
    && (!k.phase.Preparing() && k.current in sealed ==> k.payload == sealed[k.current])
  }

  ghost predicate BlockFits(b: nat, k: Block, holders: set<nat>, used: map<nat, nat>, sealed: map<nat, seq<Byte>>) {
    WordFits(k, holders) && UidFits(b, k, used) && BytesFit(k, sealed)
  }

  // The parent of a call running inside an imported buffer is that buffer, still held.
  predicate ParentFits(a: Actor, p: nat, actors: map<nat, Actor>) {
    p in actors && actors[p] == Actor(a.block, a.uid, Import, Held)
  }

  // What each thread may rely on about its block, point by point.
  predicate ActorFits(a: Actor, k: Block, actors: map<nat, Actor>) {
    && a.uid != 0
    && match a.role
       case Import =>
         && (a.pc.Started? || a.pc.Validated? || a.pc.Loaded? || a.HoldsReference())
         && (a.pc != Started ==> !k.phase.Fresh())
         && (a.pc == Held ==> k.uid == a.uid == k.current)
       case OwnerRead =>
         && (a.pc.Started? || a.pc.Loaded? || a.pc.Held?)
         && k.current == a.uid
         && (a.pc != Held ==> k.phase.Live?)
         && (k.phase.Live? ==> k.phase.writing != InUse)
       case OwnerHold =>
         && (a.pc.Started? || a.pc.Loaded? || a.pc.Held?)
         && k.current == a.uid
         && (a.pc != Held ==> k.phase.Live?)
       case Describe =>
         && (a.pc.Started? || a.pc.UidStored? || a.pc.ClockRead?)
         && k.current == a.uid
         && k.phase.Live?
       case ImportRead(p) =>
         && (a.pc.Started? || a.pc.Loaded? || a.pc.Held?)
         && k.uid == a.uid == k.current
         && (a.pc != Held ==> ParentFits(a, p, actors))
       case Relay(p) =>
         && (a.pc.Started? || a.pc.ClockRead?)
         && ParentFits(a, p, actors)
  }

  ghost predicate BlocksFit(s: State) {
    forall b | b in s.blocks :: BlockFits(b, s.blocks[b], Holders(s.actors, b), s.used, s.sealed)
  }

  ghost predicate ActorsFit(s: State) {
    forall id | id in s.actors :: s.actors[id].block in s.blocks && ActorFits(s.actors[id], BlockOf(s, id), s.actors)
  }

  ghost predicate Inv(s: State) {
    && BlocksFit(s)
    && ActorsFit(s)
    && 0 !in s.used
    && s.sealed.Keys <= s.used.Keys
  }

  // ---- Framing: one block, or one thread and its block, changes at a time. ----

  // Only block `b` changes.
  lemma BlockChange(s: State, s': State, b: nat)
    requires Inv(s)
    requires b in s'.blocks && s'.blocks == s.blocks[b := s'.blocks[b]] && s'.actors == s.actors
    requires s'.used == s.used && s'.sealed == s.sealed
    requires BlockFits(b, s'.blocks[b], Holders(s.actors, b), s.used, s.sealed)
    requires forall id | id in s.actors && s.actors[id].block == b :: ActorFits(s.actors[id], s'.blocks[b], s.actors)
    ensures Inv(s')
  {
  }

  // Thread `id` joins or moves on; its block may change with it.
  lemma ActorChange(s: State, s': State, id: nat)
    requires Inv(s)
    requires id in s'.actors && s'.actors == s.actors[id := s'.actors[id]]
    requires s'.used == s.used && s'.sealed == s.sealed
    requires
      var x := s'.actors[id];
      && x.block in s.blocks && x.block in s'.blocks
      && s'.blocks == s.blocks[x.block := s'.blocks[x.block]]
      && (id in s.actors ==> s.actors[id].block == x.block && s.actors[id].pc != Held)
      && BlockFits(x.block, s'.blocks[x.block], Holders(s'.actors, x.block), s.used, s.sealed)
      && ActorFits(x, s'.blocks[x.block], s'.actors)
      && forall j | j in s.actors && j != id && s.actors[j].block == x.block :: ActorFits(s.actors[j], s'.blocks[x.block], s.actors)
    ensures Inv(s')
  {
    var x := s'.actors[id];
    forall b | b in s'.blocks && b != x.block
      ensures BlockFits(b, s'.blocks[b], Holders(s'.actors, b), s'.used, s'.sealed)
    {
      assert Holders(s'.actors, b) == Holders(s.actors, b);
    }
    forall j | j in s'.actors && j != id
      ensures s'.actors[j].block in s'.blocks && ActorFits(s'.actors[j], BlockOf(s', j), s'.actors)
    {
      assert ActorFits(s.actors[j], BlockOf(s', j), s.actors);
    }
  }

  // Only a thread running inside `id` relies on `id` being there.
  lemma FitsWithout(a: Actor, k: Block, actors: map<nat, Actor>, id: nat)
    requires ActorFits(a, k, actors) && !a.InsideParent(id)
    ensures ActorFits(a, k, actors - {id})
  {
  }

  lemma LeaveKeepsBlocks(s: State, s': State, id: nat)
    requires BlocksFit(s)
    requires id in s.actors && s'.actors == s.actors - {id}
    requires s'.used == s.used && s'.sealed == s.sealed
    requires s.actors[id].block in s'.blocks
    requires s'.blocks == s.blocks[s.actors[id].block := s'.blocks[s.actors[id].block]]
    requires BlockFits(s.actors[id].block, s'.blocks[s.actors[id].block], Holders(s'.actors, s.actors[id].block), s.used, s.sealed)
    ensures BlocksFit(s')
  {
    forall b | b in s'.blocks && b != s.actors[id].block
      ensures BlockFits(b, s'.blocks[b], Holders(s'.actors, b), s'.used, s'.sealed)
    {
      assert Holders(s'.actors, b) == Holders(s.actors, b);
    }
  }

  lemma LeaveKeepsActors(s: State, s': State, id: nat)
    requires ActorsFit(s)
    requires id in s.actors && s'.actors == s.actors - {id}
    requires s.actors[id].block in s'.blocks
    requires s'.blocks == s.blocks[s.actors[id].block := s'.blocks[s.actors[id].block]]
    requires forall j | j in s.actors && j != id ::
      && !s.actors[j].InsideParent(id)
      && (s.actors[j].block == s.actors[id].block ==> ActorFits(s.actors[j], s'.blocks[s.actors[j].block], s.actors))
    ensures ActorsFit(s')
  {
    forall j | j in s'.actors
      ensures s'.actors[j].block in s'.blocks && ActorFits(s'.actors[j], BlockOf(s', j), s'.actors)
    {
      FitsWithout(s.actors[j], s'.blocks[s.actors[j].block], s.actors, id);
    }
  }

  // Thread `id` leaves; its block may change with it.
  lemma ActorLeaves(s: State, s': State, id: nat)
    requires Inv(s)
    requires id in s.actors && s'.actors == s.actors - {id}
    requires s'.used == s.used && s'.sealed == s.sealed
    requires s.actors[id].block in s'.blocks
    requires s'.blocks == s.blocks[s.actors[id].block := s'.blocks[s.actors[id].block]]
    requires BlockFits(s.actors[id].block, s'.blocks[s.actors[id].block], Holders(s'.actors, s.actors[id].block), s.used, s.sealed)
    requires forall j | j in s.actors && j != id ::
      && !s.actors[j].InsideParent(id)
      && (s.actors[j].block == s.actors[id].block ==> ActorFits(s.actors[j], s'.blocks[s.actors[j].block], s.actors))
    ensures Inv(s')
  {
    LeaveKeepsBlocks(s, s', id);
    LeaveKeepsActors(s, s', id);
  }
}
