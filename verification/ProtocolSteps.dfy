// Every atomic action preserves the protocol invariant.

module ProtocolSteps {
  import opened Bytes
  import opened ControlWord
  import opened Protocol
  import opened ProtocolFrames
  import opened ProtocolInvariant

  // ---- Reader counts under one change ----

  lemma HoldersJoin(actors: map<nat, Actor>, id: nat, a: Actor)
    requires id in actors ==> actors[id].block == a.block && !actors[id].HoldsReference()
    ensures Holders(actors[id := a], a.block) == Holders(actors, a.block) + (if a.HoldsReference() then {id} else {})
    ensures id !in Holders(actors, a.block)
  {
  }

  lemma HoldersStay(actors: map<nat, Actor>, id: nat, a: Actor)
    requires id in actors && actors[id].block == a.block && actors[id].HoldsReference() == a.HoldsReference()
    ensures Holders(actors[id := a], a.block) == Holders(actors, a.block)
  {
  }

  lemma HoldersLeave(actors: map<nat, Actor>, id: nat)
    requires id in actors
    ensures Holders(actors - {id}, actors[id].block) == Holders(actors, actors[id].block) - {id}
  {
  }

  // ---- The pool ----

  lemma CreateKeepsInv(s: State, b: nat, size: nat)
    requires Inv(s) && Enabled(s, Create(b, size))
    ensures Inv(Effect(s, Create(b, size)))
  {
    var s' := Effect(s, Create(b, size));
    assert Holders(s.actors, b) == {};
    assert BlockFits(b, s'.blocks[b], Holders(s'.actors, b), s'.used, s'.sealed);
  }

  lemma ProbeKeepsInv(s: State, b: nat)
    requires Inv(s) && Enabled(s, Probe(b))
    ensures Inv(Effect(s, Probe(b)))
  {
    BlockChange(s, Effect(s, Probe(b)), b);
  }

  lemma CheckGraceKeepsInv(s: State, b: nat)
    requires Inv(s) && Enabled(s, CheckGrace(b))
    ensures Inv(Effect(s, CheckGrace(b)))
  {
    BlockChange(s, Effect(s, CheckGrace(b)), b);
  }

  lemma ClaimKeepsInv(s: State, b: nat)
    requires Inv(s) && Enabled(s, Claim(b))
    ensures Inv(Effect(s, Claim(b)))
  {
    BlockChange(s, Effect(s, Claim(b)), b);
  }

  lemma DrawKeepsInv(s: State, b: nat, u: nat)
    requires Inv(s) && Enabled(s, Draw(b, u))
    ensures Inv(Effect(s, Draw(b, u)))
  {
    var s' := Effect(s, Draw(b, u));
    assert BlocksFit(s') by {
      forall b' | b' in s'.blocks
        ensures BlockFits(b', s'.blocks[b'], Holders(s'.actors, b'), s'.used, s'.sealed)
      {
        assert BlockFits(b', s.blocks[b'], Holders(s.actors, b'), s.used, s.sealed);
      }
    }
    assert ActorsFit(s') by {
      forall id | id in s'.actors
        ensures s'.actors[id].block in s'.blocks && ActorFits(s'.actors[id], BlockOf(s', id), s'.actors)
      {
        NobodyDuringPreparation(s, b, id);
      }
    }
  }

  // While a block is being prepared, the only threads at it are importers that hold nothing.
  lemma NobodyDuringPreparation(s: State, b: nat, id: nat)
    requires Inv(s) && b in s.blocks && s.blocks[b].phase.Preparing()
    requires id in s.actors
    ensures s.actors[id].block == b ==> s.actors[id].role == Import && !s.actors[id].HoldsReference()
  {
    var a := s.actors[id];
    assert s.actors[id].block in s.blocks && ActorFits(a, BlockOf(s, id), s.actors);
    if a.block == b {
      assert BlockFits(b, s.blocks[b], Holders(s.actors, b), s.used, s.sealed);
      assert id !in Holders(s.actors, b);
      if a.role.Relay? || a.role.ImportRead? {
        assert a.role.parent !in Holders(s.actors, b);
      }
    }
  }

  lemma PreparationKeepsInv(s: State, a: Action)
    requires Inv(s) && Enabled(s, a) && (a.ClearUid? || a.ClearTime? || a.OpenWord?)
    ensures Inv(Effect(s, a))
  {
    forall id | id in s.actors && s.actors[id].block == a.b
      ensures ActorFits(s.actors[id], Effect(s, a).blocks[a.b], s.actors)
    {
      NobodyDuringPreparation(s, a.b, id);
    }
    BlockChange(s, Effect(s, a), a.b);
  }

  lemma FreeBlockKeepsInv(s: State, b: nat)
    requires Inv(s) && Enabled(s, FreeBlock(b))
    ensures Inv(Effect(s, FreeBlock(b)))
  {
    BlockChange(s, Effect(s, FreeBlock(b)), b);
  }

  // ---- The owner's write handle ----

  lemma GetWriteKeepsInv(s: State, b: nat)
    requires Inv(s) && Enabled(s, GetWrite(b))
    ensures Inv(Effect(s, GetWrite(b)))
  {
    BlockChange(s, Effect(s, GetWrite(b)), b);
  }

  lemma WriteByteKeepsInv(s: State, b: nat, i: nat, v: Byte)
    requires Inv(s) && Enabled(s, WriteByte(b, i, v))
    ensures Inv(Effect(s, WriteByte(b, i, v)))
  {
    BlockChange(s, Effect(s, WriteByte(b, i, v)), b);
  }

  lemma SealKeepsInv(s: State, b: nat)
    requires Inv(s) && b in s.blocks && s.blocks[b].phase.Live?
    ensures Inv(Seal(s, b))
  {
    var s' := Seal(s, b);
    assert BlocksFit(s') by {
      forall b' | b' in s'.blocks
        ensures BlockFits(b', s'.blocks[b'], Holders(s'.actors, b'), s'.used, s'.sealed)
      {
        assert BlockFits(b', s.blocks[b'], Holders(s.actors, b'), s.used, s.sealed);
        assert BlockFits(b, s.blocks[b], Holders(s.actors, b), s.used, s.sealed);
      }
    }
    assert ActorsFit(s') by {
      forall id | id in s'.actors
        ensures s'.actors[id].block in s'.blocks && ActorFits(s'.actors[id], BlockOf(s', id), s'.actors)
      {
        assert ActorFits(s.actors[id], BlockOf(s, id), s.actors);
      }
    }
  }

  // ---- Threads joining and moving without touching shared memory ----

  // A thread joins, holding nothing yet; shared memory is untouched.
  lemma JoinKeepsInv(s: State, id: nat, a: Actor)
    requires Inv(s) && id !in s.actors && a.block in s.blocks && !a.HoldsReference()
    requires ActorFits(a, s.blocks[a.block], s.actors[id := a])
    ensures Inv(PutActor(s, id, a))
  {
    HoldersJoin(s.actors, id, a);
    assert BlockFits(a.block, s.blocks[a.block], Holders(s.actors, a.block), s.used, s.sealed);
    ActorChange(s, PutActor(s, id, a), id);
  }

  // A thread moves on to its next operation; shared memory and the references held stay as they are.
  lemma AdvanceKeepsInv(s: State, id: nat, pc: Pc)
    requires Inv(s) && id in s.actors && s.actors[id].pc != Held
    requires s.actors[id].HoldsReference() == s.actors[id].(pc := pc).HoldsReference()
    requires ActorFits(s.actors[id].(pc := pc), BlockOf(s, id), s.actors[id := s.actors[id].(pc := pc)])
    ensures Inv(PutActor(s, id, s.actors[id].(pc := pc)))
  {
    var a := s.actors[id].(pc := pc);
    HoldersStay(s.actors, id, a);
    assert BlockFits(a.block, s.blocks[a.block], Holders(s.actors, a.block), s.used, s.sealed);
    ActorChange(s, PutActor(s, id, a), id);
  }

  lemma BeginOnBufferKeepsInv(s: State, a: Action)
    requires Inv(s) && Enabled(s, a) && (a.BeginRelay? || a.BeginImportRead?)
    ensures Inv(Effect(s, a))
  {
    assert ActorFits(s.actors[a.p], BlockOf(s, a.p), s.actors);
    JoinKeepsInv(s, a.id, Effect(s, a).actors[a.id]);
  }

  lemma BeginOnBlockKeepsInv(s: State, a: Action)
    requires Inv(s) && Enabled(s, a) && (a.BeginImport? || a.BeginOwnerLease?)
    ensures Inv(Effect(s, a))
  {
    assert BlockFits(a.b, s.blocks[a.b], Holders(s.actors, a.b), s.used, s.sealed);
    JoinKeepsInv(s, a.id, Effect(s, a).actors[a.id]);
  }

  lemma BeginDescribeKeepsInv(s: State, id: nat, b: nat)
    requires Inv(s) && Enabled(s, BeginDescribe(id, b))
    ensures Inv(Effect(s, BeginDescribe(id, b)))
  {
    var t := Seal(s, b);
    SealKeepsInv(s, b);
    assert BlockFits(b, t.blocks[b], Holders(t.actors, b), t.used, t.sealed);
    JoinKeepsInv(t, id, Actor(b, t.blocks[b].current, Describe, Started));
  }

  lemma StoreUidKeepsInv(s: State, id: nat)
    requires Inv(s) && Enabled(s, StoreUid(id))
    ensures Inv(Effect(s, StoreUid(id)))
  {
    var s' := Effect(s, StoreUid(id));
    HoldersStay(s.actors, id, s'.actors[id]);
    ActorChange(s, s', id);
  }

  lemma ReadClockKeepsInv(s: State, id: nat)
    requires Inv(s) && Enabled(s, ReadClock(id))
    ensures Inv(Effect(s, ReadClock(id)))
  {
    assert ActorFits(s.actors[id], BlockOf(s, id), s.actors);
    AdvanceKeepsInv(s, id, ClockRead(s.clock));
  }

  lemma LoadKeepsInv(s: State, id: nat)
    requires Inv(s) && Enabled(s, Load(id))
    ensures Inv(Effect(s, Load(id)))
  {
    assert ActorFits(s.actors[id], BlockOf(s, id), s.actors);
    AdvanceKeepsInv(s, id, Loaded(BlockOf(s, id).word));
  }

  // Calls run only inside a buffer that is held.
  lemma OnlyHeldIsParent(s: State, id: nat, c: nat)
    requires Inv(s) && id in s.actors && s.actors[id].pc != Held
    requires c in s.actors
    ensures !s.actors[c].InsideParent(id)
  {
    assert ActorFits(s.actors[c], BlockOf(s, c), s.actors);
  }

  // A thread that holds nothing gives up.
  lemma GiveUpKeepsInv(s: State, id: nat)
    requires Inv(s) && id in s.actors && !s.actors[id].HoldsReference()
    ensures Inv(DropActor(s, id))
  {
    HoldersLeave(s.actors, id);
    assert Holders(s.actors - {id}, s.actors[id].block) == Holders(s.actors, s.actors[id].block);
    forall c | c in s.actors ensures !s.actors[c].InsideParent(id) { OnlyHeldIsParent(s, id, c); }
    ActorLeaves(s, DropActor(s, id), id);
  }

  lemma StampKeepsInv(s: State, id: nat)
    requires Inv(s) && Enabled(s, Stamp(id))
    ensures Inv(Effect(s, Stamp(id)))
  {
    StampedNotFresh(s, id);
    StampIsNotViewed(s, s.actors[id].block, s.actors[id].pc.time);
    GiveUpKeepsInv(PutBlock(s, s.actors[id].block, BlockOf(s, id).(stamp := s.actors[id].pc.time)), id);
  }

  // Nobody's view of a block depends on its stamp.
  lemma StampIsNotViewed(s: State, b: nat, time: nat)
    requires Inv(s) && b in s.blocks && !s.blocks[b].phase.Preparing()
    ensures Inv(PutBlock(s, b, s.blocks[b].(stamp := time)))
  {
    assert BlockFits(b, s.blocks[b], Holders(s.actors, b), s.used, s.sealed);
    BlockChange(s, PutBlock(s, b, s.blocks[b].(stamp := time)), b);
  }

  // A stamp is only ever stored while the block is past its first preparation.
  lemma StampedNotFresh(s: State, id: nat)
    requires Inv(s) && id in s.actors && s.actors[id].pc.ClockRead?
    ensures s.actors[id].block in s.blocks && !BlockOf(s, id).phase.Preparing()
  {
    var a := s.actors[id];
    assert ActorFits(a, BlockOf(s, id), s.actors);
    if a.role.Relay? {
      assert a.role.parent in Holders(s.actors, a.block);
    }
    assert BlockFits(a.block, s.blocks[a.block], Holders(s.actors, a.block), s.used, s.sealed);
  }

  lemma ValidateKeepsInv(s: State, id: nat)
    requires Inv(s) && Enabled(s, Validate(id))
    ensures Inv(Effect(s, Validate(id)))
  {
    assert BlockFits(s.actors[id].block, BlockOf(s, id), Holders(s.actors, s.actors[id].block), s.used, s.sealed);
    if BlockOf(s, id).uid == s.actors[id].uid {
      AdvanceKeepsInv(s, id, Validated);
    } else {
      GiveUpKeepsInv(s, id);
    }
  }

  // ---- The compare-and-swap, the second uid check and the release ----

  // No thread's view of its block depends on the control word.
  lemma WordIsNotViewed(a: Actor, k: Block, w: Word, actors: map<nat, Actor>)
    ensures ActorFits(a, k.(word := w), actors) <==> ActorFits(a, k, actors)
  {
  }

  lemma AcquiredFits(a: Actor, pc: Pc, k: Block, actors: map<nat, Actor>, actors': map<nat, Actor>)
    requires ActorFits(a, k, actors) && a.pc.Loaded?
    requires pc == if a.role == Import then Acquired else Held
    ensures ActorFits(a.(pc := pc), k, actors')
  {
  }

  lemma CountedUp(b: nat, k: Block, holders: set<nat>, id: nat, used: map<nat, nat>, sealed: map<nat, seq<Byte>>)
    requires BlockFits(b, k, holders, used, sealed) && !k.phase.Fresh()
    requires !AcquireRefused(k.word) && id !in holders
    ensures BlockFits(b, k.(word := PlusOne(k.word)), holders + {id}, used, sealed)
  {
    AcquireAddsOne(k.word);
  }

  // A successful compare-and-swap: one more reference, held by `id`.
  lemma TakeReferenceKeepsInv(s: State, id: nat, a: Actor)
    requires Inv(s) && id in s.actors && s.actors[id].pc.Loaded?
    requires a == s.actors[id].(pc := if s.actors[id].role == Import then Acquired else Held)
    requires !AcquireRefused(BlockOf(s, id).word)
    ensures Inv(PutActor(PutBlock(s, a.block, BlockOf(s, id).(word := PlusOne(BlockOf(s, id).word))), id, a))
  {
    var b, k := a.block, BlockOf(s, id);
    var k' := k.(word := PlusOne(k.word));
    HoldersJoin(s.actors, id, a);
    assert BlockFits(b, k, Holders(s.actors, b), s.used, s.sealed);
    assert ActorFits(s.actors[id], k, s.actors);
    CountedUp(b, k, Holders(s.actors, b), id, s.used, s.sealed);
    forall j | j in s.actors && s.actors[j].block == b
      ensures ActorFits(s.actors[j], k', s.actors)
    {
      WordIsNotViewed(s.actors[j], k, k'.word, s.actors);
    }
    AcquiredFits(s.actors[id], a.pc, k', s.actors, s.actors[id := a]);
    ActorChange(s, PutActor(PutBlock(s, b, k'), id, a), id);
  }

  lemma CasKeepsInv(s: State, id: nat)
    requires Inv(s) && Enabled(s, Cas(id))
    ensures Inv(Effect(s, Cas(id)))
  {
    assert ActorFits(s.actors[id], BlockOf(s, id), s.actors);
    if AcquireRefused(s.actors[id].pc.seen) {
      GiveUpKeepsInv(s, id);
    } else if BlockOf(s, id).word != s.actors[id].pc.seen {
      AdvanceKeepsInv(s, id, Loaded(BlockOf(s, id).word));
    } else {
      TakeReferenceKeepsInv(s, id, Effect(s, Cas(id)).actors[id]);
    }
  }

  lemma RecheckKeepsInv(s: State, id: nat)
    requires Inv(s) && Enabled(s, Recheck(id))
    ensures Inv(Effect(s, Recheck(id)))
  {
    var b, k := s.actors[id].block, BlockOf(s, id);
    assert id in Holders(s.actors, b);
    assert BlockFits(b, k, Holders(s.actors, b), s.used, s.sealed);
    assert ActorFits(s.actors[id], k, s.actors);
    AdvanceKeepsInv(s, id, if k.uid == s.actors[id].uid then Held else Stale);
  }

  lemma CountedDown(b: nat, k: Block, holders: set<nat>, id: nat, used: map<nat, nat>, sealed: map<nat, seq<Byte>>)
    requires BlockFits(b, k, holders, used, sealed) && id in holders
    ensures BlockFits(b, k.(word := MinusOne(k.word)), holders - {id}, used, sealed)
  {
    ReleaseDropsOne(k.word);
  }

  // One reference fewer, that of `id`, who leaves.
  lemma DropReferenceKeepsInv(s: State, id: nat)
    requires Inv(s) && id in s.actors && s.actors[id].HoldsReference() && forall c | c in s.actors :: !s.actors[c].InsideParent(id)
    ensures Inv(DropActor(PutBlock(s, s.actors[id].block, BlockOf(s, id).(word := MinusOne(BlockOf(s, id).word))), id))
  {
    var b, k := s.actors[id].block, BlockOf(s, id);
    var k' := k.(word := MinusOne(k.word));
    HoldersLeave(s.actors, id);
    assert BlockFits(b, k, Holders(s.actors, b), s.used, s.sealed);
    CountedDown(b, k, Holders(s.actors, b), id, s.used, s.sealed);
    forall j | j in s.actors && s.actors[j].block == b
      ensures ActorFits(s.actors[j], k', s.actors)
    {
      WordIsNotViewed(s.actors[j], k, k'.word, s.actors);
    }
    ActorLeaves(s, DropActor(PutBlock(s, b, k'), id), id);
  }

  lemma ReleaseKeepsInv(s: State, id: nat)
    requires Inv(s) && Enabled(s, Release(id))
    ensures Inv(Effect(s, Release(id)))
  {
    DropReferenceKeepsInv(s, id);
  }

  lemma ScanStepKeepsInv(s: State, a: Action)
    requires Inv(s) && Enabled(s, a) && (a.Probe? || a.CheckGrace? || a.Claim? || a.FreeBlock?)
    ensures Inv(Effect(s, a))
  {
    match a
    case Probe(b) => ProbeKeepsInv(s, b);
    case CheckGrace(b) => CheckGraceKeepsInv(s, b);
    case Claim(b) => ClaimKeepsInv(s, b);
    case FreeBlock(b) => FreeBlockKeepsInv(s, b);
  }

  lemma PoolStepKeepsInv(s: State, a: Action)
    requires Inv(s) && PoolAction(a) && Enabled(s, a)
    ensures Inv(Effect(s, a))
  {
    if a.Create? {
      CreateKeepsInv(s, a.b, a.size);
    } else if a.Draw? {
      DrawKeepsInv(s, a.b, a.u);
    } else if a.ClearUid? || a.ClearTime? || a.OpenWord? {
      PreparationKeepsInv(s, a);
    } else {
      ScanStepKeepsInv(s, a);
    }
  }

  lemma ThreadStepKeepsInv(s: State, a: Action)
    requires Inv(s) && !PoolAction(a) && !BeginAction(a) && Enabled(s, a)
    ensures Inv(Effect(s, a))
  {
    match a
    case GetWrite(b) => GetWriteKeepsInv(s, b);
    case WriteByte(b, i, v) => WriteByteKeepsInv(s, b, i, v);
    case DropWrite(b) => SealKeepsInv(s, b);
    case StoreUid(id) => StoreUidKeepsInv(s, id);
    case ReadClock(id) => ReadClockKeepsInv(s, id);
    case Stamp(id) => StampKeepsInv(s, id);
    case Validate(id) => ValidateKeepsInv(s, id);
    case Load(id) => LoadKeepsInv(s, id);
    case Cas(id) => CasKeepsInv(s, id);
    case Recheck(id) => RecheckKeepsInv(s, id);
    case Release(id) => ReleaseKeepsInv(s, id);
    case ReadByte(_, _) =>
    case Tick(_) =>
  }

  lemma StepKeepsInv(s: State, a: Action)
    requires Inv(s) && Enabled(s, a)
    ensures Inv(Effect(s, a))
  {
    if PoolAction(a) {
      PoolStepKeepsInv(s, a);
    } else if !BeginAction(a) {
      ThreadStepKeepsInv(s, a);
    } else if a.BeginDescribe? {
      BeginDescribeKeepsInv(s, a.id, a.b);
    } else if a.BeginRelay? || a.BeginImportRead? {
      BeginOnBufferKeepsInv(s, a);
    } else {
      BeginOnBlockKeepsInv(s, a);
    }
  }
}
