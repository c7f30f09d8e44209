// What each kind of action can and cannot touch.

module ProtocolFrames {
  import opened WriteState
  import opened Protocol

  predicate PoolAction(a: Action) {
    a.Create? || a.Probe? || a.CheckGrace? || a.Claim? || a.Draw? || a.ClearUid? || a.ClearTime? || a.OpenWord? || a.FreeBlock?
  }

  predicate BeginAction(a: Action) {
    a.BeginDescribe? || a.BeginRelay? || a.BeginImport? || a.BeginOwnerLease? || a.BeginImportRead?
  }

  predicate WriteAction(a: Action) {
    a.GetWrite? || a.WriteByte? || a.DropWrite?
  }

  predicate MoveAction(a: Action) {
    a.StoreUid? || a.ReadClock? || a.Stamp? || a.Validate? || a.Load? || a.Cas? || a.Recheck? || a.Release?
  }

  // The pool works on one block, and threads stay where they are.
  predicate PoolWorks(s: State, s': State, b: nat) {
    && s'.actors == s.actors && s'.clock == s.clock && s'.sealed == s.sealed
    && b in s'.blocks && s'.blocks == s.blocks[b := s'.blocks[b]]
  }

  lemma PoolFrame(s: State, a: Action)
    requires Enabled(s, a) && PoolAction(a)
    ensures PoolWorks(s, Effect(s, a), a.b)
    ensures Effect(s, a).used == if a.Draw? then s.used[a.u := a.b] else s.used
  {
  }

  // One thread moves on or leaves; its block changes in the shared header at most.
  ghost predicate ThreadMoves(s: State, s': State, id: nat) {
    && id in s.actors && s.actors[id].block in s.blocks
    && (forall j | j != id :: j in s'.actors <==> j in s.actors)
    && (forall j | j in s'.actors && j != id :: s'.actors[j] == s.actors[j])
    && (id in s'.actors ==> s'.actors[id] == s.actors[id].(pc := s'.actors[id].pc))
    && s'.used == s.used && s'.sealed == s.sealed && s'.clock == s.clock
    && s'.blocks.Keys == s.blocks.Keys
    && (forall b | b in s.blocks && b != s.actors[id].block :: s'.blocks[b] == s.blocks[b])
    && (var k, k' := s.blocks[s.actors[id].block], s'.blocks[s.actors[id].block];
        k' == k.(word := k'.word, uid := k'.uid, stamp := k'.stamp))
  }

  lemma MoveFrame(s: State, a: Action)
    requires Enabled(s, a) && MoveAction(a)
    ensures ThreadMoves(s, Effect(s, a), a.id)
    ensures !a.StoreUid? ==> Effect(s, a).blocks[s.actors[a.id].block].uid == BlockOf(s, a.id).uid
    ensures !a.Stamp? ==> Effect(s, a).blocks[s.actors[a.id].block].stamp == BlockOf(s, a.id).stamp
  {
  }

  // One thread joins; only describing can change its block, by finalising the write.
  predicate ThreadJoins(s: State, s': State, id: nat) {
    && id !in s.actors && id in s'.actors && s'.actors == s.actors[id := s'.actors[id]]
    && s'.actors[id].pc == Started && s'.actors[id].block in s.blocks
    && s'.used == s.used && s'.clock == s.clock
    && s'.blocks.Keys == s.blocks.Keys
    && (forall b | b in s.blocks && b != s'.actors[id].block :: s'.blocks[b] == s.blocks[b])
    && (var k, k' := s.blocks[s'.actors[id].block], s'.blocks[s'.actors[id].block];
        k' == k || (k.phase == Live(InUse) && k' == k.(phase := Live(Finalized))))
  }

  lemma BeginFrame(s: State, a: Action)
    requires Enabled(s, a) && BeginAction(a)
    ensures ThreadJoins(s, Effect(s, a), a.id)
    ensures !a.BeginDescribe? ==> Effect(s, a).blocks == s.blocks && Effect(s, a).sealed == s.sealed
    ensures a.BeginDescribe? <==> Effect(s, a).actors[a.id].role == Describe
  {
  }

  // The owner's write handle changes phase or payload of a live block.
  predicate OwnerWrites(s: State, s': State, b: nat) {
    && s'.actors == s.actors && s'.used == s.used && s'.clock == s.clock
    && b in s.blocks && s'.blocks.Keys == s.blocks.Keys
    && (forall c | c in s.blocks && c != b :: s'.blocks[c] == s.blocks[c])
    && s.blocks[b].phase.Live? && s'.blocks[b].phase.Live? && s.blocks[b].phase.writing != Finalized
    && s'.blocks[b] == s.blocks[b].(payload := s'.blocks[b].payload, phase := s'.blocks[b].phase)
  }

  lemma WriteFrame(s: State, a: Action)
    requires Enabled(s, a) && WriteAction(a)
    ensures OwnerWrites(s, Effect(s, a), a.b)
    ensures !a.DropWrite? ==> Effect(s, a).sealed == s.sealed
  {
  }

  // Threads other than the pool leave every block's generation alone.
  predicate SameGeneration(k: Block, k': Block) {
    k'.current == k.current && (k'.phase == k.phase || (k.phase.Live? && k'.phase.Live?))
  }

  lemma ThreadFrame(s: State, a: Action)
    requires Enabled(s, a) && !PoolAction(a)
    ensures
      var s' := Effect(s, a);
      s'.used == s.used && s'.blocks.Keys == s.blocks.Keys &&
      forall b | b in s.blocks :: SameGeneration(s.blocks[b], s'.blocks[b])
  {
    if BeginAction(a) {
      BeginFrame(s, a);
    } else if WriteAction(a) {
      WriteFrame(s, a);
    } else if MoveAction(a) {
      MoveFrame(s, a);
    }
  }

  // A held buffer or handle leaves only by its own release.
  lemma HeldStays(s: State, a: Action, id: nat)
    requires Enabled(s, a) && ActorAt(s, id, Held) && a != Release(id)
    ensures ActorAt(Effect(s, a), id, Held) && Effect(s, a).actors[id] == s.actors[id]
  {
    if PoolAction(a) {
      PoolFrame(s, a);
    } else if BeginAction(a) {
      BeginFrame(s, a);
    } else if WriteAction(a) {
      WriteFrame(s, a);
    } else if MoveAction(a) {
      MoveFrame(s, a);
      assert a.id != id;
    }
  }
}
