// With cooperative writers, every interleaving of the protocol is a run of the byte store.

module ProtocolRefinement {
  import opened WriteState
  import opened Bytes
  import opened ControlWord
  import opened Protocol
  import opened ProtocolFrames
  import opened ProtocolInvariant
  import opened ProtocolRuns
  import ByteStore

  // A write handle was acquired before the buffer is first described.
  predicate Cooperative(s: State, a: Action) {
    a.BeginDescribe? && a.b in s.blocks && s.blocks[a.b].phase.Live? ==> s.blocks[a.b].phase.writing != Unset
  }

  predicate IsCooperativeRun(trace: seq<State>, actions: seq<Action>) {
    IsRun(trace, actions) && forall i | 0 <= i < |actions| :: Cooperative(trace[i], actions[i])
  }

  // Only finalised generations are ever described or named by a header.
  predicate Published(s: State) {
    && (forall b | b in s.blocks :: s.blocks[b].uid != 0 ==> s.blocks[b].uid in s.sealed)
    && (forall id | id in s.actors && s.actors[id].role == Describe ::
          s.actors[id].block in s.blocks && BlockOf(s, id).phase == Live(Finalized))
  }

  lemma SealedGrows(s: State, a: Action)
    requires Inv(s) && Enabled(s, a)
    ensures forall u | u in s.sealed :: u in Effect(s, a).sealed && Effect(s, a).sealed[u] == s.sealed[u]
  {
    if PoolAction(a) {
      PoolFrame(s, a);
    } else if a.DropWrite? || a.BeginDescribe? {
      assert BlockFits(a.b, s.blocks[a.b], Holders(s.actors, a.b), s.used, s.sealed);
    } else if BeginAction(a) {
      BeginFrame(s, a);
    } else if WriteAction(a) {
      WriteFrame(s, a);
    } else if MoveAction(a) {
      MoveFrame(s, a);
    }
  }

  lemma PoolKeepsPublished(s: State, a: Action)
    requires Inv(s) && Published(s) && Enabled(s, a) && PoolAction(a)
    ensures Published(Effect(s, a))
  {
    PoolFrame(s, a);
  }

  lemma DescribeKeepsPublished(s: State, id: nat, b: nat)
    requires Inv(s) && Published(s) && Enabled(s, BeginDescribe(id, b)) && Cooperative(s, BeginDescribe(id, b))
    ensures Published(Effect(s, BeginDescribe(id, b)))
  {
  }

  lemma StoreUidKeepsPublished(s: State, id: nat)
    requires Inv(s) && Published(s) && Enabled(s, StoreUid(id))
    ensures Published(Effect(s, StoreUid(id)))
  {
    assert ActorFits(s.actors[id], BlockOf(s, id), s.actors);
    assert BlockFits(s.actors[id].block, BlockOf(s, id), Holders(s.actors, s.actors[id].block), s.used, s.sealed);
  }

  lemma MovePublishes(s: State, s': State, id: nat)
    requires Published(s) && ThreadMoves(s, s', id)
    requires s'.blocks[s.actors[id].block].uid == s.blocks[s.actors[id].block].uid
    ensures Published(s')
  {
    forall j | j in s'.actors && s'.actors[j].role == Describe
      ensures s'.actors[j].block in s'.blocks && BlockOf(s', j).phase == Live(Finalized)
    {
      assert s.actors[j].role == Describe;
    }
  }

  lemma WritePublishes(s: State, s': State, b: nat)
    requires Published(s) && OwnerWrites(s, s', b)
    requires forall u | u in s.sealed :: u in s'.sealed
    ensures Published(s')
  {
  }

  lemma OtherStepKeepsPublished(s: State, a: Action)
    requires Inv(s) && Published(s) && Enabled(s, a)
    requires !PoolAction(a) && !a.BeginDescribe? && !a.StoreUid?
    ensures Published(Effect(s, a))
  {
    if BeginAction(a) {
      BeginFrame(s, a);
    } else if WriteAction(a) {
      SealedGrows(s, a);
      WriteFrame(s, a);
      WritePublishes(s, Effect(s, a), a.b);
    } else if MoveAction(a) {
      MoveFrame(s, a);
      MovePublishes(s, Effect(s, a), a.id);
    }
  }

  lemma StepKeepsPublished(s: State, a: Action)
    requires Inv(s) && Published(s) && Enabled(s, a) && Cooperative(s, a)
    ensures Published(Effect(s, a))
  {
    if PoolAction(a) {
      PoolKeepsPublished(s, a);
    } else if a.BeginDescribe? {
      DescribeKeepsPublished(s, a.id, a.b);
    } else if a.StoreUid? {
      StoreUidKeepsPublished(s, a.id);
    } else {
      OtherStepKeepsPublished(s, a);
    }
  }

  lemma {:induction false} RunKeepsPublished(trace: seq<State>, actions: seq<Action>, i: nat)
    requires IsCooperativeRun(trace, actions) && trace[0] == INITIAL && i < |trace|
    ensures Inv(trace[i]) && Published(trace[i])
  {
    InitialInv();
    RunKeepsInv(trace, actions, i);
    if i > 0 {
      RunKeepsPublished(trace, actions, i - 1);
      StepKeepsPublished(trace[i - 1], actions[i - 1]);
    }
  }

  // ---- The refinement ----

  // A live block whose write is not finalised yet.
  predicate IsDraft(k: Block) {
    k.phase.Live? && k.phase.writing != Finalized
  }

  function DraftOf(k: Block): ByteStore.Draft {
    ByteStore.Draft(k.current, k.payload)
  }

  function Drafts(blocks: map<nat, Block>): map<nat, ByteStore.Draft> {
    map b | b in blocks && IsDraft(blocks[b]) :: DraftOf(blocks[b])
  }

  // Handles on a finalised generation.
  function OpenHandles(actors: map<nat, Actor>, sealed: map<nat, seq<Byte>>): map<nat, nat> {
    map id | id in actors && actors[id].CanRead() && actors[id].uid in sealed :: actors[id].uid
  }

  function View(s: State): ByteStore.Store {
    ByteStore.Store(Drafts(s.blocks), s.sealed, OpenHandles(s.actors, s.sealed))
  }

  // What an observer of clients sees of an action; a read reports the byte found in the mapping.
  function EventOf(s: State, a: Action): ByteStore.Event
    requires Enabled(s, a)
  {
    match a
    case OpenWord(b) => ByteStore.Begin(b, s.blocks[b].current, s.blocks[b].payload)
    case WriteByte(b, i, v) => ByteStore.Write(b, i, v)
    case DropWrite(b) => ByteStore.Finalise(b)
    case BeginDescribe(_, b) => if WritingIs(s, b, InUse) then ByteStore.Finalise(b) else ByteStore.Silent
    case FreeBlock(b) => if WritingIs(s, b, Finalized) then ByteStore.Silent else ByteStore.Abandon(b)
    case Recheck(id) =>
      if BlockOf(s, id).uid == s.actors[id].uid then ByteStore.OpenHandle(id, s.actors[id].uid) else ByteStore.Silent
    case Cas(id) =>
      var x := s.actors[id];
      if !AcquireRefused(x.pc.seen) && BlockOf(s, id).word == x.pc.seen && x.role != Import && x.role != OwnerHold && x.uid in s.sealed
      then ByteStore.OpenHandle(id, x.uid) else ByteStore.Silent
    case ReadByte(id, i) =>
      if s.actors[id].uid in s.sealed then ByteStore.Read(id, i, BlockOf(s, id).payload[i]) else ByteStore.Silent
    case Release(id) =>
      if s.actors[id].CanRead() && s.actors[id].uid in s.sealed then ByteStore.CloseHandle(id) else ByteStore.Silent
    case _ => ByteStore.Silent
  }

  // A reading handle is on the block's current generation and sees its sealed bytes.
  lemma ReaderSees(s: State, id: nat)
    requires Inv(s) && id in s.actors && s.actors[id].CanRead()
    ensures s.actors[id].block in s.blocks && BlockOf(s, id).current == s.actors[id].uid
    ensures s.actors[id].uid in s.used && s.used[s.actors[id].uid] == s.actors[id].block
    ensures s.actors[id].uid in s.sealed ==> BlockOf(s, id).payload == s.sealed[s.actors[id].uid]
  {
    var b := s.actors[id].block;
    assert ActorFits(s.actors[id], BlockOf(s, id), s.actors);
    assert id in Holders(s.actors, b);
    assert BlockFits(b, s.blocks[b], Holders(s.actors, b), s.used, s.sealed);
  }

  // Finalising a write opens no handle: whoever reads that generation reads it sealed already.
  lemma FinaliseOpensNoHandle(s: State, b: nat)
    requires Inv(s) && Published(s) && WritingIs(s, b, InUse)
    ensures s.blocks[b].current !in s.sealed
    ensures OpenHandles(s.actors, Seal(s, b).sealed) == OpenHandles(s.actors, s.sealed)
  {
    assert BlockFits(b, s.blocks[b], Holders(s.actors, b), s.used, s.sealed);
    forall id | id in s.actors && s.actors[id].CanRead()
      ensures s.actors[id].uid != s.blocks[b].current
    {
      ReaderSees(s, id);
      assert ActorFits(s.actors[id], BlockOf(s, id), s.actors);
    }
  }

  lemma DraftsAfter(blocks: map<nat, Block>, b: nat, k: Block)
    ensures Drafts(blocks[b := k]) == if IsDraft(k) then Drafts(blocks)[b := DraftOf(k)] else Drafts(blocks) - {b}
  {
  }

  lemma SealRefines(s: State, b: nat)
    requires WritingIs(s, b, InUse) && s.blocks[b].current !in s.sealed
    requires OpenHandles(s.actors, Seal(s, b).sealed) == OpenHandles(s.actors, s.sealed)
    ensures ByteStore.Step(View(s), ByteStore.Finalise(b), View(Seal(s, b)))
  {
    DraftsAfter(s.blocks, b, s.blocks[b].(phase := Live(Finalized)));
  }

  // A thread that cannot read yet opens nothing by joining.
  lemma JoinOpensNothing(actors: map<nat, Actor>, sealed: map<nat, seq<Byte>>, id: nat, a: Actor)
    requires id !in actors && !a.CanRead()
    ensures OpenHandles(actors[id := a], sealed) == OpenHandles(actors, sealed)
  {
  }

  lemma DescribeRefines(s: State, id: nat, b: nat)
    requires Inv(s) && Published(s) && Enabled(s, BeginDescribe(id, b))
    ensures ByteStore.Step(View(s), EventOf(s, BeginDescribe(id, b)), View(Effect(s, BeginDescribe(id, b))))
  {
    var t := Seal(s, b);
    JoinOpensNothing(t.actors, t.sealed, id, Actor(b, t.blocks[b].current, Describe, Started));
    if WritingIs(s, b, InUse) {
      FinaliseOpensNoHandle(s, b);
      SealRefines(s, b);
    }
  }

  lemma OpenWordRefines(s: State, b: nat)
    requires Inv(s) && Enabled(s, OpenWord(b))
    ensures ByteStore.Step(View(s), EventOf(s, OpenWord(b)), View(Effect(s, OpenWord(b))))
  {
    assert BlockFits(b, s.blocks[b], Holders(s.actors, b), s.used, s.sealed);
    DraftsAfter(s.blocks, b, Effect(s, OpenWord(b)).blocks[b]);
  }

  lemma FreeBlockRefines(s: State, b: nat)
    requires Enabled(s, FreeBlock(b))
    ensures ByteStore.Step(View(s), EventOf(s, FreeBlock(b)), View(Effect(s, FreeBlock(b))))
  {
    DraftsAfter(s.blocks, b, s.blocks[b].(phase := Free));
    if WritingIs(s, b, Finalized) {
      assert Drafts(s.blocks) - {b} == Drafts(s.blocks);
    }
  }

  lemma PoolRefines(s: State, a: Action)
    requires Enabled(s, a) && PoolAction(a) && !a.OpenWord? && !a.FreeBlock?
    ensures ByteStore.Step(View(s), EventOf(s, a), View(Effect(s, a)))
  {
    PoolFrame(s, a);
    var s' := Effect(s, a);
    DraftsAfter(s.blocks, a.b, s'.blocks[a.b]);
    assert Drafts(s.blocks) - {a.b} == Drafts(s.blocks);
  }

  lemma WriteRefines(s: State, a: Action)
    requires Inv(s) && Published(s) && Enabled(s, a) && WriteAction(a)
    ensures ByteStore.Step(View(s), EventOf(s, a), View(Effect(s, a)))
  {
    if a.DropWrite? {
      FinaliseOpensNoHandle(s, a.b);
      SealRefines(s, a.b);
    } else {
      DraftsAfter(s.blocks, a.b, Effect(s, a).blocks[a.b]);
      if a.GetWrite? {
        assert Drafts(s.blocks)[a.b := DraftOf(s.blocks[a.b])] == Drafts(s.blocks);
      }
    }
  }

  lemma HandlesAfter(actors: map<nat, Actor>, sealed: map<nat, seq<Byte>>, id: nat, a: Actor)
    ensures OpenHandles(actors[id := a], sealed) ==
            if a.CanRead() && a.uid in sealed then OpenHandles(actors, sealed)[id := a.uid] else OpenHandles(actors, sealed) - {id}
  {
  }

  lemma HandlesWithout(actors: map<nat, Actor>, sealed: map<nat, seq<Byte>>, id: nat)
    ensures OpenHandles(actors - {id}, sealed) == OpenHandles(actors, sealed) - {id}
  {
  }

  lemma NotOpen(actors: map<nat, Actor>, sealed: map<nat, seq<Byte>>, id: nat)
    requires id !in OpenHandles(actors, sealed)
    ensures OpenHandles(actors, sealed) - {id} == OpenHandles(actors, sealed)
  {
  }

  // A change of header fields is no event of the store.
  lemma HeaderIsHidden(blocks: map<nat, Block>, b: nat, k: Block)
    requires b in blocks && k == blocks[b].(word := k.word, uid := k.uid, stamp := k.stamp)
    ensures Drafts(blocks[b := k]) == Drafts(blocks)
  {
    DraftsAfter(blocks, b, k);
    if !IsDraft(k) {
      assert Drafts(blocks) - {b} == Drafts(blocks);
    }
  }

  lemma RecheckRefines(s: State, id: nat)
    requires Inv(s) && Published(s) && Enabled(s, Recheck(id))
    ensures ByteStore.Step(View(s), EventOf(s, Recheck(id)), View(Effect(s, Recheck(id))))
  {
    HandlesAfter(s.actors, s.sealed, id, Effect(s, Recheck(id)).actors[id]);
    NotOpen(s.actors, s.sealed, id);
    assert ActorFits(s.actors[id], BlockOf(s, id), s.actors);
  }

  lemma CasRefines(s: State, id: nat)
    requires Enabled(s, Cas(id))
    ensures ByteStore.Step(View(s), EventOf(s, Cas(id)), View(Effect(s, Cas(id))))
  {
    var s' := Effect(s, Cas(id));
    NotOpen(s.actors, s.sealed, id);
    if id in s'.actors {
      HandlesAfter(s.actors, s.sealed, id, s'.actors[id]);
    } else {
      HandlesWithout(s.actors, s.sealed, id);
    }
    if s'.blocks != s.blocks {
      HeaderIsHidden(s.blocks, s.actors[id].block, s'.blocks[s.actors[id].block]);
    }
  }

  lemma ReleaseRefines(s: State, id: nat)
    requires Enabled(s, Release(id))
    ensures ByteStore.Step(View(s), EventOf(s, Release(id)), View(Effect(s, Release(id))))
  {
    var s' := Effect(s, Release(id));
    HandlesWithout(s.actors, s.sealed, id);
    HeaderIsHidden(s.blocks, s.actors[id].block, s'.blocks[s.actors[id].block]);
    if id !in OpenHandles(s.actors, s.sealed) {
      NotOpen(s.actors, s.sealed, id);
    }
  }

  lemma ReadRefines(s: State, id: nat, i: nat)
    requires Inv(s) && Enabled(s, ReadByte(id, i))
    ensures ByteStore.Step(View(s), EventOf(s, ReadByte(id, i)), View(Effect(s, ReadByte(id, i))))
  {
    ReaderSees(s, id);
  }

  // Describing, stamping, validating and loading are invisible.
  lemma QuietMoveRefines(s: State, a: Action)
    requires Enabled(s, a) && (a.StoreUid? || a.ReadClock? || a.Stamp? || a.Validate? || a.Load?)
    ensures ByteStore.Step(View(s), EventOf(s, a), View(Effect(s, a)))
  {
    var s' := Effect(s, a);
    var b := s.actors[a.id].block;
    NotOpen(s.actors, s.sealed, a.id);
    if a.id in s'.actors {
      HandlesAfter(s.actors, s.sealed, a.id, s'.actors[a.id]);
    } else {
      HandlesWithout(s.actors, s.sealed, a.id);
    }
    if s'.blocks != s.blocks {
      HeaderIsHidden(s.blocks, b, s'.blocks[b]);
    }
  }

  lemma JoinRefines(s: State, a: Action)
    requires Inv(s) && Published(s) && Enabled(s, a) && BeginAction(a)
    ensures ByteStore.Step(View(s), EventOf(s, a), View(Effect(s, a)))
  {
    if a.BeginDescribe? {
      DescribeRefines(s, a.id, a.b);
    } else {
      JoinOpensNothing(s.actors, s.sealed, a.id, Effect(s, a).actors[a.id]);
    }
  }

  lemma StepRefines(s: State, a: Action)
    requires Inv(s) && Published(s) && Enabled(s, a)
    ensures ByteStore.Step(View(s), EventOf(s, a), View(Effect(s, a)))
  {
    if a.OpenWord? {
      OpenWordRefines(s, a.b);
    } else if a.FreeBlock? {
      FreeBlockRefines(s, a.b);
    } else if PoolAction(a) {
      PoolRefines(s, a);
    } else if WriteAction(a) {
      WriteRefines(s, a);
    } else if BeginAction(a) {
      JoinRefines(s, a);
    } else if a.Cas? {
      CasRefines(s, a.id);
    } else if a.Recheck? {
      RecheckRefines(s, a.id);
    } else if a.Release? {
      ReleaseRefines(s, a.id);
    } else if a.ReadByte? {
      ReadRefines(s, a.id, a.i);
    } else if !a.Tick? {
      QuietMoveRefines(s, a);
    }
  }

  // What an observer of the store sees of a run.
  function Views(trace: seq<State>): (stores: seq<ByteStore.Store>)
    ensures |stores| == |trace|
  {
    if trace == [] then [] else Views(trace[..|trace| - 1]) + [View(trace[|trace| - 1])]
  }

  function Events(trace: seq<State>, actions: seq<Action>): (events: seq<ByteStore.Event>)
    requires IsRun(trace, actions)
    ensures |events| == |actions|
  {
    if actions == [] then []
    else
      var n := |actions| - 1;
      Events(trace[..|actions|], actions[..n]) + [EventOf(trace[n], actions[n])]
  }

  // Every cooperative run of the protocol, seen through `View`, is a run of the byte store.
  lemma {:induction false} EveryRunRefinesTheStore(trace: seq<State>, actions: seq<Action>)
    requires IsCooperativeRun(trace, actions) && trace[0] == INITIAL
    ensures ByteStore.IsRun(Views(trace), Events(trace, actions))
    decreases |actions|
  {
    if actions == [] {
      InitialView(trace);
    } else {
      var trace', actions' := trace[..|actions|], actions[..|actions| - 1];
      RunsShorten(trace, actions);
      EveryRunRefinesTheStore(trace', actions');
      ViewOfLast(trace');
      RunGoesOn(trace, actions, Views(trace'), Events(trace', actions'));
    }
  }

  lemma InitialView(trace: seq<State>)
    requires trace == [INITIAL]
    ensures Views(trace) == [ByteStore.EMPTY]
  {
    assert Views(trace) == Views([]) + [View(INITIAL)];
  }

  lemma RunsShorten(trace: seq<State>, actions: seq<Action>)
    requires IsCooperativeRun(trace, actions) && actions != []
    ensures IsCooperativeRun(trace[..|actions|], actions[..|actions| - 1]) && trace[..|actions|][0] == trace[0]
  {
  }

  lemma RunStepRefines(trace: seq<State>, actions: seq<Action>, i: nat)
    requires IsCooperativeRun(trace, actions) && trace[0] == INITIAL && i < |actions|
    ensures ByteStore.Step(View(trace[i]), EventOf(trace[i], actions[i]), View(trace[i + 1]))
  {
    RunKeepsPublished(trace, actions, i);
    StepRefines(trace[i], actions[i]);
  }

  lemma RunGoesOn(trace: seq<State>, actions: seq<Action>, stores: seq<ByteStore.Store>, events: seq<ByteStore.Event>)
    requires IsCooperativeRun(trace, actions) && trace[0] == INITIAL && |actions| == |events| + 1
    requires ByteStore.IsRun(stores, events) && stores[|events|] == View(trace[|events|])
    ensures ByteStore.IsRun(stores + [View(trace[|actions|])], events + [EventOf(trace[|events|], actions[|events|])])
  {
    RunStepRefines(trace, actions, |events|);
    LastStep(stores, events, EventOf(trace[|events|], actions[|events|]), View(trace[|actions|]));
  }

  lemma ViewOfLast(trace: seq<State>)
    requires trace != []
    ensures Views(trace)[|trace| - 1] == View(trace[|trace| - 1])
  {
  }

  lemma LastStep(stores: seq<ByteStore.Store>, events: seq<ByteStore.Event>, e: ByteStore.Event, s: ByteStore.Store)
    requires ByteStore.IsRun(stores, events) && ByteStore.Step(stores[|events|], e, s)
    ensures ByteStore.IsRun(stores + [s], events + [e])
  {
    assert (stores + [s])[..|events| + 1] == stores && (events + [e])[..|events|] == events;
  }

  lemma {:induction false} SealedOnceForAll(trace: seq<State>, actions: seq<Action>, i: nat, j: nat, u: nat)
    requires IsCooperativeRun(trace, actions) && trace[0] == INITIAL && i <= j < |trace| && u in trace[i].sealed
    ensures u in trace[j].sealed && trace[j].sealed[u] == trace[i].sealed[u]
  {
    if i < j {
      SealedOnceForAll(trace, actions, i, j - 1, u);
      RunKeepsPublished(trace, actions, j - 1);
      SealedGrows(trace[j - 1], actions[j - 1]);
    }
  }

  // Whoever pins generation `u` finds its finalised bytes: the ones recorded by any moment `i` of the run at
  // which `u` was already sealed.
  lemma PinnedBytesAreFinalised(trace: seq<State>, actions: seq<Action>, i: nat, j: nat, id: nat, b: nat, u: nat)
    requires IsCooperativeRun(trace, actions) && trace[0] == INITIAL && j < |trace| && PinsGeneration(trace[j], id, b, u)
    ensures u in trace[j].sealed && trace[j].blocks[b].payload == trace[j].sealed[u]
    ensures i <= j && u in trace[i].sealed ==> trace[j].blocks[b].payload == trace[i].sealed[u]
  {
    RunKeepsPublished(trace, actions, j);
    HeldPins(trace[j], id, b, u);
    ReaderSees(trace[j], id);
    if i <= j && u in trace[i].sealed {
      SealedOnceForAll(trace, actions, i, j, u);
    }
  }

  lemma HeldIsThere(trace: seq<State>, actions: seq<Action>, j: nat, id: nat)
    requires IsRun(trace, actions) && trace[0] == INITIAL && j < |trace| && id in trace[j].actors && trace[j].actors[id].pc == Held
    ensures ActorAt(trace[j], id, Held)
  {
    InitialInv();
    RunKeepsInv(trace, actions, j);
    assert ActorFits(trace[j].actors[id], BlockOf(trace[j], id), trace[j].actors);
  }

  // An importer that was given a descriptor of generation `u` of block `b`, and holds a buffer, finds in
  // that block, until it releases, exactly the bytes finalised for `u`.
  lemma ImportReadsFinalisedBytes(trace: seq<State>, actions: seq<Action>, m: nat, i: nat, j: nat, id: nat, b: nat, u: nat)
    requires IsCooperativeRun(trace, actions) && trace[0] == INITIAL
    requires ImportRuns(trace, actions, m, j, id, b, u) && trace[j].actors[id].pc == Held
    ensures b in trace[j].blocks && u in trace[j].sealed && trace[j].blocks[b].payload == trace[j].sealed[u]
    ensures i <= j && u in trace[i].sealed ==> trace[j].blocks[b].payload == trace[i].sealed[u]
  {
    ImporterKeepsDescriptor(trace, actions, m, j, id, b, u);
    HeldIsThere(trace, actions, j, id);
    PinnedBytesAreFinalised(trace, actions, i, j, id, b, u);
  }

  // The same for a read handle taken through such a buffer, for as long as the handle lives.
  lemma HandleReadsFinalisedBytes(
    trace: seq<State>, actions: seq<Action>, m: nat, n: nat, i: nat, j: nat, p: nat, id: nat, b: nat, u: nat)
    requires IsCooperativeRun(trace, actions) && trace[0] == INITIAL
    requires ImportRuns(trace, actions, m, n, p, b, u) && ImportReadRuns(trace, actions, n, j, id, p) && trace[j].actors[id].pc == Held
    ensures b in trace[j].blocks && u in trace[j].sealed && trace[j].blocks[b].payload == trace[j].sealed[u]
    ensures i <= j && u in trace[i].sealed ==> trace[j].blocks[b].payload == trace[i].sealed[u]
  {
    ImportReaderKeepsDescriptor(trace, actions, m, n, j, p, id, b, u);
    HeldIsThere(trace, actions, j, id);
    PinnedBytesAreFinalised(trace, actions, i, j, id, b, u);
  }
}
