// Publication is complete: a named generation stays importable until its block is claimed again.

module ProtocolPublication {
  import opened ControlWord
  import opened Protocol
  import opened ProtocolFrames
  import opened ProtocolInvariant
  import opened ProtocolRuns

  // The header of block `b` names its current generation `u`.
  predicate Named(s: State, b: nat, u: nat) {
    b in s.blocks && u != 0 && s.blocks[b].uid == u == s.blocks[b].current && !s.blocks[b].phase.Preparing()
  }

  // Storing the uid, the first half of `mark_published`, names the generation described.
  lemma StoreUidNames(s: State, id: nat)
    requires Inv(s) && Enabled(s, StoreUid(id))
    ensures Named(Effect(s, StoreUid(id)), s.actors[id].block, s.actors[id].uid)
  {
    assert ActorFits(s.actors[id], BlockOf(s, id), s.actors);
  }

  lemma OnlyClaimsUnname(s: State, a: Action, b: nat, u: nat)
    requires Enabled(s, a) && Named(s, b, u) && (a == Claim(b) ==> !ClaimWins(s, a))
    ensures Named(Effect(s, a), b, u)
  {
    if PoolAction(a) {
      PoolFrame(s, a);
    } else {
      ThreadFrame(s, a);
      NamedStays(s, a, b);
    }
  }

  lemma NamedStays(s: State, a: Action, b: nat)
    requires Enabled(s, a) && !PoolAction(a) && b in s.blocks && s.blocks[b].uid == s.blocks[b].current
    ensures b in Effect(s, a).blocks && Effect(s, a).blocks[b].uid == s.blocks[b].uid
  {
    if BeginAction(a) {
      BeginFrame(s, a);
    } else if WriteAction(a) {
      WriteFrame(s, a);
    } else if MoveAction(a) {
      MoveFrame(s, a);
    }
  }

  // From the moment its uid is stored, a generation stays named until a claim of its block succeeds.
  lemma {:induction false} NamedUntilClaimed(trace: seq<State>, actions: seq<Action>, m: nat, i: nat, id: nat)
    requires IsRun(trace, actions) && trace[0] == INITIAL && m < i < |trace| && actions[m] == StoreUid(id)
    requires forall k | m < k < i :: actions[k] == Claim(trace[m].actors[id].block) ==> !ClaimWins(trace[k], actions[k])
    ensures Named(trace[i], trace[m].actors[id].block, trace[m].actors[id].uid)
  {
    if i == m + 1 {
      InitialInv();
      RunKeepsInv(trace, actions, m);
      StoreUidNames(trace[m], id);
    } else {
      NamedUntilClaimed(trace, actions, m, i - 1, id);
      OnlyClaimsUnname(trace[i - 1], actions[i - 1], trace[m].actors[id].block, trace[m].actors[id].uid);
    }
  }

  // ---- An undisturbed import of a named generation succeeds ----

  lemma ImportActs(s: State, id: nat, x: Actor, a: Action, y: Actor)
    requires Enabled(PutActor(s, id, x), a) && Effect(PutActor(s, id, x), a) == PutActor(PutActor(s, id, x), id, y)
    ensures Effect(PutActor(s, id, x), a) == PutActor(s, id, y)
  {
    assert s.actors[id := x][id := y] == s.actors[id := y];
  }

  lemma ImportChecks(s: State, b: nat, u: nat, id: nat) returns (trace: seq<State>, actions: seq<Action>)
    requires Named(s, b, u) && id !in s.actors
    ensures IsRun(trace, actions) && trace[0] == s && actions == [BeginImport(id, b, u), Validate(id), Load(id)]
    ensures trace[3] == PutActor(s, id, Actor(b, u, Import, Loaded(s.blocks[b].word)))
  {
    var x := Actor(b, u, Import, Started);
    var y, z := x.(pc := Validated), x.(pc := Loaded(s.blocks[b].word));
    ImportActs(s, id, x, Validate(id), y);
    ImportActs(s, id, y, Load(id), z);
    trace, actions := [s, PutActor(s, id, x), PutActor(s, id, y), PutActor(s, id, z)], [BeginImport(id, b, u), Validate(id), Load(id)];
  }

  lemma ImportSwaps(s: State, id: nat, x: Actor)
    requires x.role == Import && x.block in s.blocks && x.pc == Loaded(s.blocks[x.block].word) && !AcquireRefused(s.blocks[x.block].word)
    ensures Enabled(PutActor(s, id, x), Cas(id))
    ensures
      var t := PutBlock(s, x.block, s.blocks[x.block].(word := s.blocks[x.block].word + 1));
      Effect(PutActor(s, id, x), Cas(id)) == PutActor(t, id, x.(pc := Acquired))
  {
    assert s.actors[id := x][id := x.(pc := Acquired)] == s.actors[id := x.(pc := Acquired)];
  }

  lemma ImportAcquires(s: State, b: nat, u: nat, id: nat) returns (trace: seq<State>, actions: seq<Action>)
    requires Named(s, b, u) && id !in s.actors && !AcquireRefused(s.blocks[b].word)
    ensures IsRun(trace, actions) && actions == [Cas(id), Recheck(id)]
    ensures trace[0] == PutActor(s, id, Actor(b, u, Import, Loaded(s.blocks[b].word)))
    ensures trace[2] == PutActor(PutBlock(s, b, s.blocks[b].(word := s.blocks[b].word + 1)), id, Actor(b, u, Import, Held))
  {
    var x, t := Actor(b, u, Import, Loaded(s.blocks[b].word)), PutBlock(s, b, s.blocks[b].(word := s.blocks[b].word + 1));
    var y, z := x.(pc := Acquired), x.(pc := Held);
    ImportSwaps(s, id, x);
    ImportActs(t, id, y, Recheck(id), z);
    trace, actions := [PutActor(s, id, x), PutActor(t, id, y), PutActor(t, id, z)], [Cas(id), Recheck(id)];
  }

  // The claim bit is down on a named generation, so only an exhausted reader count can refuse.
  lemma NamedIsOpen(s: State, b: nat, u: nat)
    requires Inv(s) && Named(s, b, u)
    ensures AcquireRefused(s.blocks[b].word) <==> Readers(s.blocks[b].word) == READER_COUNT_MASK
  {
    assert BlockFits(b, s.blocks[b], Holders(s.actors, b), s.used, s.sealed);
  }

  // Run through without interruption, the import of a named generation hands out a buffer on it, unless
  // the reader count is exhausted; it adds one reference and changes nothing else.
  lemma ImportOfNamedSucceeds(s: State, b: nat, u: nat, id: nat) returns (trace: seq<State>, actions: seq<Action>)
    requires Inv(s) && Named(s, b, u) && id !in s.actors && Readers(s.blocks[b].word) != READER_COUNT_MASK
    ensures IsRun(trace, actions) && trace[0] == s
    ensures actions == [BeginImport(id, b, u), Validate(id), Load(id), Cas(id), Recheck(id)]
    ensures trace[5] == PutActor(PutBlock(s, b, s.blocks[b].(word := s.blocks[b].word + 1)), id, Actor(b, u, Import, Held))
    ensures PinsGeneration(trace[5], id, b, u)
  {
    NamedIsOpen(s, b, u);
    var t1, a1 := ImportChecks(s, b, u, id);
    var t2, a2 := ImportAcquires(s, b, u, id);
    RunsJoin(t1, a1, t2, a2);
    trace, actions := t1 + t2[1..], a1 + a2;
  }
}
