// What every run of the protocol keeps, whatever the interleaving.

module ProtocolRuns {
  import opened ControlWord
  import opened Protocol
  import opened ProtocolFrames
  import opened ProtocolInvariant
  import opened ProtocolSteps

  // A run: each state follows from the one before by one atomic action.
  predicate IsRun(trace: seq<State>, actions: seq<Action>) {
    && |trace| == |actions| + 1
    && forall i | 0 <= i < |actions| :: Enabled(trace[i], actions[i]) && trace[i + 1] == Effect(trace[i], actions[i])
  }

  // A run and its continuation.
  lemma RunsJoin(t1: seq<State>, a1: seq<Action>, t2: seq<State>, a2: seq<Action>)
    requires IsRun(t1, a1) && IsRun(t2, a2) && t1[|a1|] == t2[0]
    ensures IsRun(t1 + t2[1..], a1 + a2)
  {
    var trace, actions := t1 + t2[1..], a1 + a2;
    forall i | 0 <= i < |actions|
      ensures Enabled(trace[i], actions[i]) && trace[i + 1] == Effect(trace[i], actions[i])
    {
      if i >= |a1| {
        assert trace[i] == t2[i - |a1|] && trace[i + 1] == t2[i + 1 - |a1|];
      }
    }
  }

  lemma InitialInv()
    ensures Inv(INITIAL)
  {
  }

  lemma {:induction false} RunKeepsInv(trace: seq<State>, actions: seq<Action>, i: nat)
    requires IsRun(trace, actions) && Inv(trace[0]) && i < |trace|
    ensures Inv(trace[i])
  {
    if i > 0 {
      RunKeepsInv(trace, actions, i - 1);
      StepKeepsInv(trace[i - 1], actions[i - 1]);
    }
  }

  // ---- Reference conservation ----

  // The low 31 bits count the outstanding references exactly, and a claimed block has none.
  lemma ReferencesAreCounted(trace: seq<State>, actions: seq<Action>, i: nat, b: nat)
    requires IsRun(trace, actions) && trace[0] == INITIAL && i < |trace| && b in trace[i].blocks
    ensures
      var word, holders := trace[i].blocks[b].word, Holders(trace[i].actors, b);
      Readers(word) == |holders| && (Claimed(word) ==> holders == {} && word == REUSE_CLAIMED)
  {
    InitialInv();
    RunKeepsInv(trace, actions, i);
    assert BlockFits(b, trace[i].blocks[b], Holders(trace[i].actors, b), trace[i].used, trace[i].sealed);
  }

  // A release finds its own reference counted, so `fetch_sub` never underflows.
  lemma ReleaseIsCounted(s: State, id: nat)
    requires Inv(s) && Enabled(s, Release(id))
    ensures
      var w, w' := BlockOf(s, id).word, Effect(s, Release(id)).blocks[s.actors[id].block].word;
      w == w' + 1 && Claimed(w) == Claimed(w')
  {
    HolderIsCounted(s, id);
    ReleaseDropsOne(BlockOf(s, id).word);
  }

  lemma HolderIsCounted(s: State, id: nat)
    requires Inv(s) && id in s.actors && s.actors[id].HoldsReference()
    ensures s.actors[id].block in s.blocks && Readers(BlockOf(s, id).word) > 0
  {
    var b := s.actors[id].block;
    assert ActorFits(s.actors[id], BlockOf(s, id), s.actors);
    assert BlockFits(b, s.blocks[b], Holders(s.actors, b), s.used, s.sealed);
    assert id in Holders(s.actors, b);
  }

  // An acquisition adds one and never carries into the claim bit; a lost race changes nothing.
  lemma AcquisitionIsCounted(s: State, id: nat)
    requires Enabled(s, Cas(id))
    ensures
      var w, w' := BlockOf(s, id).word, Effect(s, Cas(id)).blocks[s.actors[id].block].word;
      if w == s.actors[id].pc.seen && !AcquireRefused(w) then w' == w + 1 && !Claimed(w') else w' == w
  {
    if !AcquireRefused(BlockOf(s, id).word) {
      AcquireAddsOne(BlockOf(s, id).word);
    }
  }

  // The blind `store(0)` erases the claim and no reader: there is none before, and none after.
  lemma BlindStoreErasesNoReader(s: State, b: nat)
    requires Inv(s) && Enabled(s, OpenWord(b))
    ensures s.blocks[b].word == if s.blocks[b].phase.brandNew then 0 else REUSE_CLAIMED
    ensures Holders(s.actors, b) == {} == Holders(Effect(s, OpenWord(b)).actors, b)
  {
    assert BlockFits(b, s.blocks[b], Holders(s.actors, b), s.used, s.sealed);
  }

  // ---- Generation pinning ----

  // Someone holds an imported buffer, or a read lease taken through one, on generation `u` of block `b`.
  predicate PinsGeneration(s: State, id: nat, b: nat, u: nat) {
    ActorAt(s, id, Held) && s.actors[id].block == b && s.actors[id].uid == u &&
    (s.actors[id].role == Import || s.actors[id].role.ImportRead?)
  }

  lemma HeldPins(s: State, id: nat, b: nat, u: nat)
    requires Inv(s) && PinsGeneration(s, id, b, u)
    ensures s.blocks[b].uid == u == s.blocks[b].current
    ensures !Claimed(s.blocks[b].word) && s.blocks[b].word != 0 && !s.blocks[b].phase.Preparing()
  {
    assert ActorFits(s.actors[id], BlockOf(s, id), s.actors);
    assert id in Holders(s.actors, b);
    assert BlockFits(b, s.blocks[b], Holders(s.actors, b), s.used, s.sealed);
  }

  // From a successful second check until the release, the header keeps the descriptor's uid, the
  // claim bit stays clear and every reuse attempt fails, whether or not the owner freed the block.
  lemma GenerationIsPinned(trace: seq<State>, actions: seq<Action>, i: nat, id: nat, b: nat, u: nat)
    requires IsRun(trace, actions) && trace[0] == INITIAL && i < |trace| && PinsGeneration(trace[i], id, b, u)
    ensures trace[i].blocks[b].uid == u == trace[i].blocks[b].current && !Claimed(trace[i].blocks[b].word)
    ensures i < |actions| && actions[i] == Claim(b) ==>
      trace[i + 1].blocks[b] == trace[i].blocks[b].(phase := Free)
    ensures i < |actions| ==> PinsGeneration(trace[i + 1], id, b, u) || actions[i] == Release(id)
  {
    InitialInv();
    RunKeepsInv(trace, actions, i);
    HeldPins(trace[i], id, b, u);
    if i < |actions| {
      if actions[i] != Release(id) {
        HeldStays(trace[i], actions[i], id);
      }
    }
  }

  // ---- Threads keep what they began with ----

  // Thread `id`, begun at step `m`, is still there at state `i`.
  predicate Lives(trace: seq<State>, m: nat, i: nat, id: nat) {
    m < i < |trace| && forall k | m < k <= i :: id in trace[k].actors
  }

  // An import of the descriptor that names generation `u` of block `b` was begun at step `m`, and its thread
  // (acquiring, or holding the buffer) is still there at state `i`.
  predicate ImportRuns(trace: seq<State>, actions: seq<Action>, m: nat, i: nat, id: nat, b: nat, u: nat) {
    m < |actions| && actions[m] == BeginImport(id, b, u) && Lives(trace, m, i, id)
  }

  // A read handle was begun at step `m` inside import `p`, and is still there at state `i`.
  predicate ImportReadRuns(trace: seq<State>, actions: seq<Action>, m: nat, i: nat, id: nat, p: nat) {
    m < |actions| && actions[m] == BeginImportRead(id, p) && Lives(trace, m, i, id)
  }

  predicate SameStart(a: Actor, b: Actor) {
    a.block == b.block && a.uid == b.uid && a.role == b.role
  }

  lemma ThreadKeepsStart(s: State, a: Action, s': State, id: nat)
    requires Enabled(s, a) && s' == Effect(s, a) && id in s.actors && id in s'.actors
    ensures SameStart(s.actors[id], s'.actors[id])
  {
    if PoolAction(a) {
      PoolFrame(s, a);
    } else if BeginAction(a) {
      BeginFrame(s, a);
    } else if WriteAction(a) {
      WriteFrame(s, a);
    } else if MoveAction(a) {
      MoveFrame(s, a);
    }
  }

  lemma StepKeepsStart(trace: seq<State>, actions: seq<Action>, i: nat, id: nat)
    requires IsRun(trace, actions) && i < |actions| && id in trace[i].actors && id in trace[i + 1].actors
    ensures SameStart(trace[i].actors[id], trace[i + 1].actors[id])
  {
    ThreadKeepsStart(trace[i], actions[i], trace[i + 1], id);
  }

  lemma {:induction false} StartCarries(trace: seq<State>, m: nat, i: nat, id: nat)
    requires Lives(trace, m, i, id) && forall k | m < k < i :: SameStart(trace[k].actors[id], trace[k + 1].actors[id])
    ensures SameStart(trace[m + 1].actors[id], trace[i].actors[id])
  {
    if i > m + 1 {
      StartCarries(trace, m, i - 1, id);
      assert SameStart(trace[i - 1].actors[id], trace[i - 1 + 1].actors[id]);
    }
  }

  lemma StartIsKept(trace: seq<State>, actions: seq<Action>, m: nat, i: nat, id: nat)
    requires IsRun(trace, actions) && Lives(trace, m, i, id)
    ensures SameStart(trace[m + 1].actors[id], trace[i].actors[id])
  {
    forall k | m < k < i ensures SameStart(trace[k].actors[id], trace[k + 1].actors[id]) {
      StepKeepsStart(trace, actions, k, id);
    }
    StartCarries(trace, m, i, id);
  }

  // An importer works for the descriptor it was given, from the first step to the last.
  lemma ImporterKeepsDescriptor(trace: seq<State>, actions: seq<Action>, m: nat, i: nat, id: nat, b: nat, u: nat)
    requires IsRun(trace, actions) && ImportRuns(trace, actions, m, i, id, b, u)
    ensures trace[i].actors[id] == Actor(b, u, Import, trace[i].actors[id].pc)
  {
    StartIsKept(trace, actions, m, i, id);
    ImportStarts(trace[m], id, b, u);
  }

  lemma ImportStarts(s: State, id: nat, b: nat, u: nat)
    requires Enabled(s, BeginImport(id, b, u))
    ensures Effect(s, BeginImport(id, b, u)).actors[id] == Actor(b, u, Import, Started)
  {
  }

  // So does a read handle taken inside an import, even after that import was released.
  lemma ImportReaderKeepsDescriptor(
    trace: seq<State>, actions: seq<Action>, m: nat, n: nat, i: nat, p: nat, id: nat, b: nat, u: nat)
    requires IsRun(trace, actions) && ImportRuns(trace, actions, m, n, p, b, u) && ImportReadRuns(trace, actions, n, i, id, p)
    ensures trace[i].actors[id] == Actor(b, u, ImportRead(p), trace[i].actors[id].pc)
  {
    StartIsKept(trace, actions, n, i, id);
    ImporterKeepsDescriptor(trace, actions, m, n, p, b, u);
    ImportReadStarts(trace[n], id, p);
  }

  lemma ImportReadStarts(s: State, id: nat, p: nat)
    requires Enabled(s, BeginImportRead(id, p))
    ensures Effect(s, BeginImportRead(id, p)).actors[id] == Actor(s.actors[p].block, s.actors[p].uid, ImportRead(p), Started)
  {
  }

  // ---- Stale rejection ----

  // The compare-and-swap of a claim goes through.
  predicate ClaimWins(s: State, a: Action) {
    a.Claim? && a.b in s.blocks && s.blocks[a.b].phase.Graced? && s.blocks[a.b].word == 0
  }

  // The block that generation `u` was drawn for has been claimed again.
  predicate Retired(s: State, u: nat) {
    && u in s.used && s.used[u] in s.blocks
    && (s.blocks[s.used[u]].current == u ==> s.blocks[s.used[u]].phase.Reserved?)
  }

  lemma ClaimRetires(s: State, b: nat)
    requires Inv(s) && ClaimWins(s, Claim(b))
    ensures Retired(Effect(s, Claim(b)), s.blocks[b].current)
  {
    assert BlockFits(b, s.blocks[b], Holders(s.actors, b), s.used, s.sealed);
  }

  lemma RetiredStaysRetired(s: State, a: Action, u: nat)
    requires Inv(s) && Enabled(s, a) && Retired(s, u)
    ensures Retired(Effect(s, a), u)
  {
    if PoolAction(a) {
      PoolFrame(s, a);
    } else {
      ThreadFrame(s, a);
      assert SameGeneration(s.blocks[s.used[u]], Effect(s, a).blocks[s.used[u]]);
    }
  }

  lemma RetiredIsNotHeld(s: State, u: nat, id: nat, b: nat)
    requires Inv(s) && Retired(s, u)
    ensures !PinsGeneration(s, id, b, u)
  {
    if b in s.blocks {
      assert BlockFits(b, s.blocks[b], Holders(s.actors, b), s.used, s.sealed);
    }
    if PinsGeneration(s, id, b, u) {
      HeldPins(s, id, b, u);
      assert false;
    }
  }

  // A retired generation is never held again.
  lemma {:induction false} RetiredForGood(trace: seq<State>, actions: seq<Action>, i: nat, j: nat, u: nat)
    requires IsRun(trace, actions) && trace[0] == INITIAL && i <= j < |trace| && Retired(trace[i], u)
    ensures Retired(trace[j], u)
    ensures forall id, b :: !PinsGeneration(trace[j], id, b, u)
  {
    if i < j {
      RetiredForGood(trace, actions, i, j - 1, u);
      InitialInv();
      RunKeepsInv(trace, actions, j - 1);
      RetiredStaysRetired(trace[j - 1], actions[j - 1], u);
    }
    RetiredIsHeldByNobody(trace, actions, j, u);
  }

  // Once a block has been claimed for a later generation, no import begun with a descriptor of the one it
  // had holds a buffer, wherever the claim fell between the two uid checks, and whether the import was
  // begun before the claim or after.
  lemma StaleIsRejected(trace: seq<State>, actions: seq<Action>, i: nat, m: nat, j: nat, b: nat, id: nat, b': nat)
    requires IsRun(trace, actions) && trace[0] == INITIAL && i < |actions| && i < j < |trace|
    requires actions[i] == Claim(b) && ClaimWins(trace[i], actions[i])
    requires ImportRuns(trace, actions, m, j, id, b', trace[i].blocks[b].current)
    ensures trace[j].actors[id].pc != Held
  {
    ImporterKeepsDescriptor(trace, actions, m, j, id, b', trace[i].blocks[b].current);
    RetiredByClaim(trace, actions, i, j, b);
    assert !PinsGeneration(trace[j], id, b', trace[i].blocks[b].current);
    InitialInv();
    RunKeepsInv(trace, actions, j);
    assert ActorFits(trace[j].actors[id], BlockOf(trace[j], id), trace[j].actors);
  }

  lemma RetiredByClaim(trace: seq<State>, actions: seq<Action>, i: nat, j: nat, b: nat)
    requires IsRun(trace, actions) && trace[0] == INITIAL && i < |actions| && i < j < |trace|
    requires actions[i] == Claim(b) && ClaimWins(trace[i], actions[i])
    ensures forall id, b' :: !PinsGeneration(trace[j], id, b', trace[i].blocks[b].current)
  {
    InitialInv();
    RunKeepsInv(trace, actions, i);
    ClaimRetires(trace[i], b);
    RetiredForGood(trace, actions, i + 1, j, trace[i].blocks[b].current);
  }

  // No two headers name the same generation: a header that holds a descriptor's uid is that of the block
  // the descriptor was made of.
  lemma UidNamesOneBlock(trace: seq<State>, actions: seq<Action>, i: nat, b: nat, c: nat)
    requires IsRun(trace, actions) && trace[0] == INITIAL && i < |trace| && b in trace[i].blocks && c in trace[i].blocks
    requires trace[i].blocks[b].uid == trace[i].blocks[c].uid != 0
    ensures b == c
  {
    InitialInv();
    RunKeepsInv(trace, actions, i);
    assert BlockFits(b, trace[i].blocks[b], Holders(trace[i].actors, b), trace[i].used, trace[i].sealed);
    assert BlockFits(c, trace[i].blocks[c], Holders(trace[i].actors, c), trace[i].used, trace[i].sealed);
  }

  lemma RetiredIsHeldByNobody(trace: seq<State>, actions: seq<Action>, j: nat, u: nat)
    requires IsRun(trace, actions) && trace[0] == INITIAL && j < |trace| && Retired(trace[j], u)
    ensures forall id, b :: !PinsGeneration(trace[j], id, b, u)
  {
    InitialInv();
    RunKeepsInv(trace, actions, j);
    forall id, b ensures !PinsGeneration(trace[j], id, b, u) {
      RetiredIsNotHeld(trace[j], u, id, b);
    }
  }
}
