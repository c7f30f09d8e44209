// When can a reuse come too early after a stamp? Exactly when the header names the generation at the
// moment the pool has checked its grace period: then an importer may still stamp the block.

module ProtocolStamps {
  import opened ControlWord
  import opened Protocol
  import opened ProtocolFrames
  import opened ProtocolInvariant
  import opened ProtocolSteps
  import opened ProtocolRuns
  import opened ProtocolGrace
  import opened ProtocolPublication

  // ---- A stamp belongs to a named generation ----

  predicate StampNamed(k: Block) {
    k.uid == 0 && (!k.phase.Preparing() || k.phase.TimeCleared?) ==> k.stamp == 0
  }

  // A descriptor's thread names the generation before it stamps.
  predicate NamedFirst(a: Actor, k: Block) {
    a.role == Describe && a.pc != Started ==> k.uid == a.uid
  }

  predicate StampsNamed(s: State) {
    && (forall b | b in s.blocks :: StampNamed(s.blocks[b]))
    && (forall id | id in s.actors :: s.actors[id].block in s.blocks && NamedFirst(s.actors[id], BlockOf(s, id)))
  }

  lemma PoolKeepsStampsNamed(s: State, a: Action)
    requires Inv(s) && StampsNamed(s) && Enabled(s, a) && PoolAction(a)
    ensures StampsNamed(Effect(s, a))
  {
    PoolFrame(s, a);
    var s' := Effect(s, a);
    if a.b in s.blocks {
      assert BlockFits(a.b, s.blocks[a.b], Holders(s.actors, a.b), s.used, s.sealed);
    }
    forall id | id in s'.actors ensures s'.actors[id].block in s'.blocks && NamedFirst(s'.actors[id], BlockOf(s', id)) {
      assert NamedFirst(s.actors[id], BlockOf(s, id));
      assert ActorFits(s.actors[id], BlockOf(s, id), s.actors);
    }
  }

  lemma MovedStampsNamed(s: State, s': State, id: nat)
    requires StampsNamed(s) && ThreadMoves(s, s', id)
    requires s'.blocks[s.actors[id].block].uid == s.blocks[s.actors[id].block].uid
    requires s'.blocks[s.actors[id].block].stamp == s.blocks[s.actors[id].block].stamp || s.blocks[s.actors[id].block].uid != 0
    requires id in s'.actors ==> NamedFirst(s'.actors[id], s'.blocks[s.actors[id].block])
    ensures StampsNamed(s')
  {
    forall j | j in s'.actors ensures s'.actors[j].block in s'.blocks && NamedFirst(s'.actors[j], BlockOf(s', j)) {
      assert j in s.actors && NamedFirst(s.actors[j], BlockOf(s, j));
    }
  }

  lemma StoreUidNamesFirst(s: State, id: nat)
    requires Inv(s) && StampsNamed(s) && Enabled(s, StoreUid(id))
    ensures StampsNamed(Effect(s, StoreUid(id)))
  {
    var s' := Effect(s, StoreUid(id));
    StampsAreCurrent(s, id);
    assert ActorFits(s.actors[id], BlockOf(s, id), s.actors);
    forall j | j in s'.actors ensures s'.actors[j].block in s'.blocks && NamedFirst(s'.actors[j], BlockOf(s', j)) {
      assert ActorFits(s.actors[j], BlockOf(s, j), s.actors) && NamedFirst(s.actors[j], BlockOf(s, j));
    }
  }

  lemma QuietMoveKeepsStampsNamed(s: State, a: Action)
    requires StampsNamed(s) && Enabled(s, a) && MoveAction(a) && !a.StoreUid? && !a.Stamp?
    ensures StampsNamed(Effect(s, a))
  {
    MoveFrame(s, a);
    assert NamedFirst(s.actors[a.id], BlockOf(s, a.id));
    MovedStampsNamed(s, Effect(s, a), a.id);
  }

  lemma StampKeepsStampsNamed(s: State, id: nat)
    requires Inv(s) && StampsNamed(s) && Enabled(s, Stamp(id))
    ensures StampsNamed(Effect(s, Stamp(id)))
  {
    MoveFrame(s, Stamp(id));
    StamperIsNamed(s, id);
    MovedStampsNamed(s, Effect(s, Stamp(id)), id);
  }

  lemma StamperIsNamed(s: State, id: nat)
    requires Inv(s) && StampsNamed(s) && Enabled(s, Stamp(id))
    ensures BlockOf(s, id).uid != 0
  {
    var a := s.actors[id];
    assert ActorFits(a, BlockOf(s, id), s.actors) && NamedFirst(a, BlockOf(s, id));
    if a.role.Relay? {
      assert ActorFits(s.actors[a.role.parent], BlockOf(s, a.role.parent), s.actors);
    }
  }

  lemma JoinedStampsNamed(s: State, s': State, id: nat)
    requires StampsNamed(s) && ThreadJoins(s, s', id)
    ensures StampsNamed(s')
  {
    forall j | j in s'.actors ensures s'.actors[j].block in s'.blocks && NamedFirst(s'.actors[j], BlockOf(s', j)) {
      assert j != id ==> NamedFirst(s.actors[j], BlockOf(s, j));
    }
  }

  lemma WrittenStampsNamed(s: State, s': State, b: nat)
    requires StampsNamed(s) && OwnerWrites(s, s', b)
    ensures StampsNamed(s')
  {
    forall j | j in s'.actors ensures s'.actors[j].block in s'.blocks && NamedFirst(s'.actors[j], BlockOf(s', j)) {
      assert NamedFirst(s.actors[j], BlockOf(s, j));
    }
  }

  lemma StepKeepsStampsNamed(s: State, a: Action)
    requires Inv(s) && StampsNamed(s) && Enabled(s, a)
    ensures StampsNamed(Effect(s, a))
  {
    if PoolAction(a) {
      PoolKeepsStampsNamed(s, a);
    } else if BeginAction(a) {
      BeginFrame(s, a);
      JoinedStampsNamed(s, Effect(s, a), a.id);
    } else if WriteAction(a) {
      WriteFrame(s, a);
      WrittenStampsNamed(s, Effect(s, a), a.b);
    } else if a.StoreUid? {
      StoreUidNamesFirst(s, a.id);
    } else if a.Stamp? {
      StampKeepsStampsNamed(s, a.id);
    } else if MoveAction(a) {
      QuietMoveKeepsStampsNamed(s, a);
    }
  }

  lemma {:induction false} RunKeepsStampsNamed(trace: seq<State>, actions: seq<Action>, i: nat)
    requires IsRun(trace, actions) && Inv(trace[0]) && StampsNamed(trace[0]) && i < |trace|
    ensures Inv(trace[i]) && StampsNamed(trace[i])
  {
    RunKeepsInv(trace, actions, i);
    if i > 0 {
      RunKeepsStampsNamed(trace, actions, i - 1);
      StepKeepsStampsNamed(trace[i - 1], actions[i - 1]);
    }
  }

  // ---- Between the check and the claim ----

  // The pool does nothing with block `b`: its next move is the claim.
  predicate LeavesAlone(actions: seq<Action>, b: nat) {
    forall i | 0 <= i < |actions| && PoolAction(actions[i]) :: actions[i].b != b
  }

  predicate GracedAt(s: State, b: nat) {
    b in s.blocks && s.blocks[b].phase.Graced?
  }

  // The claim comes late enough after the stamp in the header.
  predicate StampRespected(s: State, b: nat)
    requires b in s.blocks
  {
    s.blocks[b].stamp == 0 || s.clock >= s.blocks[b].stamp + 100000
  }

  // However the run goes on, the claim that follows this check respects the header's stamp.
  ghost predicate ClaimWillRespectStamp(s: State, b: nat) {
    forall trace: seq<State>, actions: seq<Action> :: IsRun(trace, actions) && trace[0] == s && LeavesAlone(actions, b) ==>
      var last := trace[|actions|];
      GracedAt(last, b) && (last.blocks[b].word == 0 ==> StampRespected(last, b))
  }

  lemma GracedStays(s: State, a: Action, b: nat)
    requires Enabled(s, a) && GracedAt(s, b) && LeavesAlone([a], b)
    ensures GracedAt(Effect(s, a), b) && Effect(s, a).blocks[b].current == s.blocks[b].current
  {
    assert [a][0] == a;
    if PoolAction(a) {
      PoolFrame(s, a);
    } else {
      ThreadFrame(s, a);
      assert SameGeneration(s.blocks[b], Effect(s, a).blocks[b]);
    }
  }

  lemma UnnamedStays(s: State, a: Action, b: nat)
    requires Inv(s) && Enabled(s, a) && GracedAt(s, b) && s.blocks[b].uid == 0 && LeavesAlone([a], b)
    ensures GracedAt(Effect(s, a), b) && Effect(s, a).blocks[b].uid == 0
  {
    assert [a][0] == a;
    GracedStays(s, a, b);
    if MoveAction(a) {
      MoveNamesNothing(s, a, b);
    } else {
      UidStays(s, a, b);
    }
  }

  // Only a descriptor stores a uid, and none is made of a block that is not live.
  lemma MoveNamesNothing(s: State, a: Action, b: nat)
    requires Inv(s) && Enabled(s, a) && MoveAction(a) && GracedAt(s, b)
    ensures b in Effect(s, a).blocks && Effect(s, a).blocks[b].uid == s.blocks[b].uid
  {
    if a.StoreUid? {
      DescribedElsewhere(s, a.id, b);
    }
    MoveFrame(s, a);
  }

  lemma DescribedElsewhere(s: State, id: nat, b: nat)
    requires Inv(s) && Enabled(s, StoreUid(id)) && GracedAt(s, b)
    ensures s.actors[id].block != b
  {
    StampsAreCurrent(s, id);
  }

  lemma UidStays(s: State, a: Action, b: nat)
    requires Enabled(s, a) && !MoveAction(a) && b in s.blocks && (PoolAction(a) ==> a.b != b)
    ensures b in Effect(s, a).blocks && Effect(s, a).blocks[b].uid == s.blocks[b].uid
  {
    if PoolAction(a) {
      PoolFrame(s, a);
    } else if BeginAction(a) {
      BeginFrame(s, a);
    } else if WriteAction(a) {
      WriteFrame(s, a);
    }
  }

  lemma {:induction false} UnnamedRunStays(trace: seq<State>, actions: seq<Action>, b: nat, i: nat)
    requires IsRun(trace, actions) && Inv(trace[0]) && LeavesAlone(actions, b) && i < |trace|
    requires GracedAt(trace[0], b) && trace[0].blocks[b].uid == 0
    ensures GracedAt(trace[i], b) && trace[i].blocks[b].uid == 0
  {
    if i > 0 {
      UnnamedRunStays(trace, actions, b, i - 1);
      RunKeepsInv(trace, actions, i - 1);
      UnnamedStays(trace[i - 1], actions[i - 1], b);
    }
  }

  lemma {:induction false} GracedRunStays(trace: seq<State>, actions: seq<Action>, b: nat, i: nat)
    requires IsRun(trace, actions) && LeavesAlone(actions, b) && GracedAt(trace[0], b) && i < |trace|
    ensures GracedAt(trace[i], b) && trace[i].blocks[b].current == trace[0].blocks[b].current
  {
    if i > 0 {
      GracedRunStays(trace, actions, b, i - 1);
      GracedStays(trace[i - 1], actions[i - 1], b);
    }
  }

  // ---- Emptying a block of its readers ----

  predicate IsInside(a: Actor) {
    a.role.Relay? || (a.role.ImportRead? && a.pc != Held)
  }

  // Threads that hold a reference on block `b`, or run inside a buffer on it.
  function Busy(s: State, b: nat): set<nat> {
    set id | id in s.actors && s.actors[id].block == b && (s.actors[id].HoldsReference() || IsInside(s.actors[id]))
  }

  // A run of threads alone, within one clock reading, that keeps block `b` named and graced.
  ghost predicate Drains(s: State, trace: seq<State>, actions: seq<Action>, b: nat) {
    && GracedAt(s, b) && IsRun(trace, actions) && trace[0] == s && LeavesAlone(actions, b)
    && var t := trace[|actions|];
       Inv(t) && GracedAt(t, b) && t.blocks[b].uid == s.blocks[b].uid && t.blocks[b].current == s.blocks[b].current && t.clock == s.clock
  }

  lemma DrainsJoin(s: State, t1: seq<State>, a1: seq<Action>, t2: seq<State>, a2: seq<Action>, b: nat)
    requires GracedAt(s, b) && Drains(s, t1, a1, b) && Drains(t1[|a1|], t2, a2, b)
    ensures Drains(s, t1 + t2[1..], a1 + a2, b) && (t1 + t2[1..])[|a1 + a2|] == t2[|a2|]
  {
    RunsJoin(t1, a1, t2, a2);
  }

  lemma OthersStayBusy(s: State, s': State, id: nat, b: nat)
    requires ThreadMoves(s, s', id)
    ensures Busy(s', b) - {id} == Busy(s, b) - {id}
  {
  }

  // One step from `s` to `s'` by a thread on `b`.
  lemma StepDrains(s: State, a: Action, s': State, b: nat) returns (trace: seq<State>, actions: seq<Action>)
    requires Inv(s) && GracedAt(s, b) && !PoolAction(a) && Enabled(s, a) && s' == Effect(s, a)
    requires b in s'.blocks && s'.blocks[b] == s.blocks[b].(word := s'.blocks[b].word, stamp := s'.blocks[b].stamp) && s'.clock == s.clock
    ensures Drains(s, trace, actions, b) && |actions| == 1 && trace[1] == s'
  {
    StepKeepsInv(s, a);
    trace, actions := [s, s'], [a];
  }

  // One operation of thread `id`.
  lemma OneMove(s: State, a: Action, b: nat) returns (trace: seq<State>, actions: seq<Action>)
    requires MoveAction(a) && !a.StoreUid? && a.id in s.actors && s.actors[a.id].block == b
    requires Inv(s) && GracedAt(s, b) && Enabled(s, a)
    ensures Drains(s, trace, actions, b) && |actions| == 1 && trace[1] == Effect(s, a)
    ensures Busy(trace[1], b) - {a.id} == Busy(s, b) - {a.id}
  {
    MoveFrame(s, a);
    trace, actions := StepDrains(s, a, Effect(s, a), b);
    MoveLeavesOthersBusy(s, a, b);
  }

  lemma MoveLeavesOthersBusy(s: State, a: Action, b: nat)
    requires MoveAction(a) && Enabled(s, a)
    ensures Busy(Effect(s, a), b) - {a.id} == Busy(s, b) - {a.id}
  {
    MoveFrame(s, a);
    OthersStayBusy(s, Effect(s, a), a.id, b);
  }

  lemma DrainStamper(s: State, b: nat, id: nat) returns (trace: seq<State>, actions: seq<Action>)
    requires Inv(s) && GracedAt(s, b) && id in s.actors && s.actors[id].block == b && s.actors[id].pc.ClockRead?
    ensures Drains(s, trace, actions, b) && Busy(trace[|actions|], b) == Busy(s, b) - {id}
  {
    trace, actions := OneMove(s, Stamp(id), b);
  }

  lemma DrainRelay(s: State, b: nat, id: nat) returns (trace: seq<State>, actions: seq<Action>)
    requires Inv(s) && GracedAt(s, b) && id in Busy(s, b) && s.actors[id].role.Relay?
    ensures Drains(s, trace, actions, b) && Busy(trace[|actions|], b) == Busy(s, b) - {id}
  {
    assert ActorFits(s.actors[id], BlockOf(s, id), s.actors);
    if s.actors[id].pc == Started {
      var t1, a1 := OneMove(s, ReadClock(id), b);
      var t2, a2 := DrainStamper(t1[1], b, id);
      DrainsJoin(s, t1, a1, t2, a2, b);
      trace, actions := t1 + t2[1..], a1 + a2;
    } else {
      trace, actions := DrainStamper(s, b, id);
    }
  }

  // A reference no call depends on is released.
  lemma DrainHeld(s: State, b: nat, id: nat) returns (trace: seq<State>, actions: seq<Action>)
    requires Inv(s) && GracedAt(s, b) && id in Busy(s, b) && (s.actors[id].pc == Held || s.actors[id].pc == Stale)
    requires forall c | c in s.actors :: !s.actors[c].InsideParent(id)
    ensures Drains(s, trace, actions, b) && Busy(trace[|actions|], b) == Busy(s, b) - {id}
  {
    trace, actions := OneMove(s, Release(id), b);
  }

  lemma NobodyInside(s: State, id: nat)
    requires Inv(s) && id in s.actors && (s.actors[id].role != Import || s.actors[id].pc != Held)
    ensures forall c | c in s.actors :: !s.actors[c].InsideParent(id)
  {
    forall c | c in s.actors ensures !s.actors[c].InsideParent(id) {
      assert ActorFits(s.actors[c], BlockOf(s, c), s.actors);
    }
  }

  lemma DrainLoaded(s: State, b: nat, id: nat) returns (trace: seq<State>, actions: seq<Action>)
    requires Inv(s) && GracedAt(s, b) && id in s.actors && s.actors[id].block == b && s.actors[id].role.ImportRead?
    requires s.actors[id].pc == Loaded(s.blocks[b].word)
    ensures Drains(s, trace, actions, b) && Busy(trace[|actions|], b) == Busy(s, b) - {id}
  {
    trace, actions := OneMove(s, Cas(id), b);
    var s' := trace[|actions|];
    if id in s'.actors {
      NobodyInside(s', id);
      var t2, a2 := DrainHeld(s', b, id);
      DrainsJoin(s, trace, actions, t2, a2, b);
      trace, actions := trace + t2[1..], actions + a2;
    }
  }

  lemma DrainImportRead(s: State, b: nat, id: nat) returns (trace: seq<State>, actions: seq<Action>)
    requires Inv(s) && GracedAt(s, b) && id in Busy(s, b) && s.actors[id].role.ImportRead? && s.actors[id].pc != Held
    ensures Drains(s, trace, actions, b) && Busy(trace[|actions|], b) == Busy(s, b) - {id}
  {
    assert ActorFits(s.actors[id], BlockOf(s, id), s.actors);
    var t1, a1 := OneMove(s, Load(id), b);
    var t2, a2 := DrainLoaded(t1[|a1|], b, id);
    DrainsJoin(s, t1, a1, t2, a2, b);
    trace, actions := t1 + t2[1..], a1 + a2;
  }

  lemma DrainHolder(s: State, b: nat, id: nat) returns (trace: seq<State>, actions: seq<Action>)
    requires Inv(s) && GracedAt(s, b) && id in Busy(s, b) && s.actors[id].HoldsReference()
    requires forall c | c in Busy(s, b) :: !IsInside(s.actors[c])
    ensures Drains(s, trace, actions, b) && Busy(trace[|actions|], b) == Busy(s, b) - {id}
  {
    if s.actors[id].pc == Acquired {
      var t1, a1 := OneMove(s, Recheck(id), b);
      var s1 := t1[|a1|];
      StillNobodyInside(s, s1, b, id);
      var t2, a2 := DrainHeld(s1, b, id);
      DrainsJoin(s, t1, a1, t2, a2, b);
      trace, actions := t1 + t2[1..], a1 + a2;
    } else {
      ChildrenAreBusy(s, b, id);
      trace, actions := DrainHeld(s, b, id);
    }
  }

  lemma ChildrenAreBusy(s: State, b: nat, id: nat)
    requires Inv(s) && id in s.actors && s.actors[id].block == b && forall c | c in Busy(s, b) :: !IsInside(s.actors[c])
    ensures forall c | c in s.actors :: !s.actors[c].InsideParent(id)
  {
    forall c | c in s.actors ensures !s.actors[c].InsideParent(id) {
      assert ActorFits(s.actors[c], BlockOf(s, c), s.actors);
      assert c !in Busy(s, b) || !IsInside(s.actors[c]);
    }
  }

  lemma StillNobodyInside(s: State, s1: State, b: nat, id: nat)
    requires Inv(s) && Inv(s1) && ActorAt(s, id, Acquired) && s.actors[id].block == b && s1 == Effect(s, Recheck(id))
    requires forall c | c in Busy(s, b) :: !IsInside(s.actors[c])
    ensures forall c | c in s1.actors :: !s1.actors[c].InsideParent(id)
    ensures id in Busy(s1, b) && (s1.actors[id].pc == Held || s1.actors[id].pc == Stale)
  {
    ChildrenAreBusy(s, b, id);
    assert ActorFits(s.actors[id], BlockOf(s, id), s.actors);
  }

  lemma DrainOne(s: State, b: nat) returns (trace: seq<State>, actions: seq<Action>)
    requires Inv(s) && GracedAt(s, b) && Busy(s, b) != {}
    ensures Drains(s, trace, actions, b) && |Busy(trace[|actions|], b)| < |Busy(s, b)|
  {
    var id: nat;
    if c :| c in Busy(s, b) && IsInside(s.actors[c]) {
      id := c;
      if s.actors[c].role.Relay? {
        trace, actions := DrainRelay(s, b, c);
      } else {
        trace, actions := DrainImportRead(s, b, c);
      }
    } else {
      id :| id in Busy(s, b);
      trace, actions := DrainHolder(s, b, id);
    }
    assert |Busy(s, b) - {id}| < |Busy(s, b)|;
  }

  lemma DrainAll(s: State, b: nat) returns (trace: seq<State>, actions: seq<Action>)
    requires Inv(s) && GracedAt(s, b)
    ensures Drains(s, trace, actions, b) && Busy(trace[|actions|], b) == {}
    decreases |Busy(s, b)|
  {
    if Busy(s, b) == {} {
      trace, actions := [s], [];
    } else {
      var t1, a1 := DrainOne(s, b);
      var t2, a2 := DrainAll(t1[|a1|], b);
      DrainsJoin(s, t1, a1, t2, a2, b);
      trace, actions := t1 + t2[1..], a1 + a2;
    }
  }

  // ---- A named block can be stamped and claimed at once ----

  predicate Goes(s: State, trace: seq<State>, actions: seq<Action>, b: nat) {
    IsRun(trace, actions) && trace[0] == s && LeavesAlone(actions, b)
  }

  lemma GoesJoin(s: State, t1: seq<State>, a1: seq<Action>, t2: seq<State>, a2: seq<Action>, b: nat)
    requires Goes(s, t1, a1, b) && Goes(t1[|a1|], t2, a2, b)
    ensures Goes(s, t1 + t2[1..], a1 + a2, b) && (t1 + t2[1..])[|a1 + a2|] == t2[|a2|]
  {
    RunsJoin(t1, a1, t2, a2);
  }

  lemma {:induction false} FreshId(keys: set<nat>) returns (id: nat)
    ensures id !in keys && forall k | k in keys :: k < id
  {
    if keys == {} {
      id := 0;
    } else {
      var k :| k in keys;
      var below := FreshId(keys - {k});
      id := if k < below then below else k + 1;
      forall x | x in keys ensures x < id {
        assert x == k || x in keys - {k};
      }
    }
  }

  lemma NobodyBusyIsFree(s: State, b: nat)
    requires Inv(s) && GracedAt(s, b) && Busy(s, b) == {}
    ensures s.blocks[b].word == 0 && (s.blocks[b].uid == 0 || s.blocks[b].uid == s.blocks[b].current)
  {
    assert Holders(s.actors, b) <= Busy(s, b);
    assert BlockFits(b, s.blocks[b], Holders(s.actors, b), s.used, s.sealed);
    FreeWordIsZero(s.blocks[b].word);
  }

  // An importer comes to a block nobody holds.
  lemma ImporterComes(s: State, b: nat, p: nat) returns (trace: seq<State>, actions: seq<Action>)
    requires Inv(s) && GracedAt(s, b) && Busy(s, b) == {} && s.blocks[b].uid != 0 && p !in s.actors
    ensures Goes(s, trace, actions, b)
    ensures
      var t := trace[|actions|];
      && Inv(t) && GracedAt(t, b) && t.blocks[b].word == 1 && t.clock == s.clock
      && IsImported(t, p) && t.actors[p].block == b && forall c | c in t.actors :: !t.actors[c].InsideParent(p)
  {
    NobodyBusyIsFree(s, b);
    trace, actions := ImportOfNamedSucceeds(s, b, s.blocks[b].uid, p);
    RunKeepsInv(trace, actions, 5);
    NobodyJoined(s, trace[5], p);
  }

  // Nobody runs inside a buffer that was not there.
  lemma NobodyJoined(s: State, s1: State, p: nat)
    requires Inv(s) && p !in s.actors && p in s1.actors && s1.actors == s.actors[p := s1.actors[p]] && s1.actors[p].role == Import
    ensures forall c | c in s1.actors :: !s1.actors[c].InsideParent(p)
  {
    forall c | c in s.actors ensures !s.actors[c].InsideParent(p) {
      assert ActorFits(s.actors[c], BlockOf(s, c), s.actors);
    }
  }

  // The last reader goes.
  lemma ReaderGoes(s: State, b: nat, p: nat) returns (trace: seq<State>, actions: seq<Action>)
    requires GracedAt(s, b) && s.blocks[b].word == 1 && IsImported(s, p) && s.actors[p].block == b
    requires forall c | c in s.actors :: !s.actors[c].InsideParent(p)
    ensures Goes(s, trace, actions, b) && trace[|actions|].clock == s.clock
    ensures b in trace[|actions|].blocks && trace[|actions|].blocks[b] == s.blocks[b].(word := 0)
  {
    trace, actions := [s, Effect(s, Release(p))], [Release(p)];
  }

  // The importer stamps the block as a relay, and leaves.
  lemma StampAndLeave(s: State, b: nat) returns (trace: seq<State>, actions: seq<Action>)
    requires Inv(s) && GracedAt(s, b) && Busy(s, b) == {} && s.blocks[b].uid != 0
    ensures Goes(s, trace, actions, b)
    ensures
      var t := trace[|actions|];
      GracedAt(t, b) && t.blocks[b].word == 0 && t.blocks[b].stamp == t.clock == s.clock
  {
    var p := FreshId(s.actors.Keys);
    var t1, a1 := ImporterComes(s, b, p);
    var s1 := t1[|a1|];
    var id := FreshId(s1.actors.Keys);
    var t2, a2 := RelayOnlyStamps(s1, b, p, id);
    var t3, a3 := ReaderGoes(t2[3], b, p);
    GoesJoin(s1, t2, a2, t3, a3, b);
    GoesJoin(s, t1, a1, t2 + t3[1..], a2 + a3, b);
    trace, actions := t1 + (t2 + t3[1..])[1..], a1 + (a2 + a3);
  }

  // Whenever the pool has checked the grace period of a block whose header names the generation, the
  // readers it has can leave, an importer can come, stamp the block as a relay and leave, and the claim
  // that follows succeeds at the very time of the stamp.
  lemma RelayStampCanBeMissed(s: State, b: nat) returns (trace: seq<State>, actions: seq<Action>)
    requires Inv(s) && GracedAt(s, b) && s.blocks[b].uid != 0
    ensures Goes(s, trace, actions, b)
    ensures
      var t := trace[|actions|];
      GracedAt(t, b) && t.blocks[b].word == 0 && !StampRespected(t, b) && t.blocks[b].stamp == t.clock == s.clock + 1
  {
    var s1 := Effect(s, Tick(1));
    StepKeepsInv(s, Tick(1));
    var t1, a1 := DrainAll(s1, b);
    var t2, a2 := StampAndLeave(t1[|a1|], b);
    GoesJoin(s1, t1, a1, t2, a2, b);
    GoesJoin(s, [s, s1], [Tick(1)], t1 + t2[1..], a1 + a2, b);
    trace, actions := [s, s1] + (t1 + t2[1..])[1..], [Tick(1)] + (a1 + a2);
  }

  // Once the pool has checked the grace period of a block, the claim that follows respects the header's
  // stamp, however the run goes on, if and only if the header never named the generation.
  lemma ClaimRespectsStampIffNeverNamed(trace: seq<State>, actions: seq<Action>, i: nat, b: nat)
    requires IsRun(trace, actions) && trace[0] == INITIAL && i < |trace| && GracedAt(trace[i], b)
    ensures ClaimWillRespectStamp(trace[i], b) <==> trace[i].blocks[b].uid == 0
  {
    var s := trace[i];
    RunKeepsStampsNamed(trace, actions, i);
    if s.blocks[b].uid == 0 {
      forall t: seq<State>, a: seq<Action> | IsRun(t, a) && t[0] == s && LeavesAlone(a, b)
        ensures GracedAt(t[|a|], b) && (t[|a|].blocks[b].word == 0 ==> StampRespected(t[|a|], b))
      {
        UnnamedRunStays(t, a, b, |a|);
        RunKeepsStampsNamed(t, a, |a|);
        assert StampNamed(t[|a|].blocks[b]);
      }
    } else {
      var t, a := RelayStampCanBeMissed(s, b);
      assert !StampRespected(t[|a|], b);
    }
  }

  // ---- Every stamp of a generation ----

  // Step `m` stores a stamp on generation `u` of block `b`.
  predicate StampsGeneration(trace: seq<State>, actions: seq<Action>, m: nat, b: nat, u: nat)
    requires |trace| == |actions| + 1
  {
    && m < |actions| && actions[m].Stamp? && actions[m].id in trace[m].actors
    && OnGeneration(trace[m].actors[actions[m].id], b, u) && trace[m].actors[actions[m].id].pc.ClockRead?
  }

  // At time `now`, every nonzero stamp the run stored on the generation is old enough.
  predicate StampsOldEnough(trace: seq<State>, actions: seq<Action>, b: nat, u: nat, now: nat)
    requires |trace| == |actions| + 1
  {
    forall m | 0 <= m < |actions| && StampsGeneration(trace, actions, m, b, u) ::
      var time := trace[m].actors[actions[m].id].pc.time;
      time == 0 || now >= time + 100000
  }

  // However the run goes on, the claim that follows comes late enough after every stamp of the generation
  // it ends, those stored before the check and those stored after.
  ghost predicate ClaimWillRespectEveryStamp(trace: seq<State>, actions: seq<Action>, b: nat)
    requires |trace| == |actions| + 1 && GracedAt(trace[|actions|], b)
  {
    var s := trace[|actions|];
    forall t: seq<State>, a: seq<Action> :: IsRun(t, a) && t[0] == s && LeavesAlone(a, b) && GracedAt(t[|a|], b) && t[|a|].blocks[b].word == 0 ==>
      && StampsOldEnough(trace, actions, b, s.blocks[b].current, t[|a|].clock)
      && StampsOldEnough(t, a, b, s.blocks[b].current, t[|a|].clock)
  }

  // A generation that was stamped stays named until its block is claimed again.
  predicate NamedSince(s: State, b: nat, u: nat) {
    && b in s.blocks && u in s.used
    && (s.blocks[b].current == u ==> s.blocks[b].phase.Reserved? || (s.blocks[b].uid == u && !s.blocks[b].phase.Preparing()))
  }

  lemma StampNames(s: State, id: nat)
    requires Inv(s) && StampsNamed(s) && Enabled(s, Stamp(id))
    ensures NamedSince(Effect(s, Stamp(id)), s.actors[id].block, s.actors[id].uid)
  {
    var b := s.actors[id].block;
    assert ActorFits(s.actors[id], BlockOf(s, id), s.actors);
    StampsAreCurrent(s, id);
    StamperIsNamed(s, id);
    assert BlockFits(b, s.blocks[b], Holders(s.actors, b), s.used, s.sealed);
  }

  lemma StepKeepsNamedSince(s: State, a: Action, b: nat, u: nat)
    requires Enabled(s, a) && NamedSince(s, b, u)
    ensures NamedSince(Effect(s, a), b, u)
  {
    if PoolAction(a) {
      PoolFrame(s, a);
    } else {
      ThreadFrame(s, a);
      assert SameGeneration(s.blocks[b], Effect(s, a).blocks[b]);
      if s.blocks[b].current == u && s.blocks[b].uid == u {
        NamedStays(s, a, b);
      }
    }
  }

  lemma {:induction false} StampedIsNamed(trace: seq<State>, actions: seq<Action>, m: nat, i: nat, b: nat, u: nat)
    requires IsRun(trace, actions) && trace[0] == INITIAL && m < i < |trace| && StampsGeneration(trace, actions, m, b, u)
    ensures NamedSince(trace[i], b, u)
  {
    if i == m + 1 {
      RunKeepsStampsNamed(trace, actions, m);
      StampNames(trace[m], actions[m].id);
    } else {
      StampedIsNamed(trace, actions, m, i - 1, b, u);
      StepKeepsNamedSince(trace[i - 1], actions[i - 1], b, u);
    }
  }

  // Nobody stamps a block that has no name.
  lemma UnnamedIsNotStamped(trace: seq<State>, actions: seq<Action>, b: nat, u: nat, m: nat)
    requires IsRun(trace, actions) && Inv(trace[0]) && StampsNamed(trace[0]) && LeavesAlone(actions, b) && m < |actions|
    requires GracedAt(trace[0], b) && trace[0].blocks[b].uid == 0
    ensures !StampsGeneration(trace, actions, m, b, u)
  {
    UnnamedRunStays(trace, actions, b, m);
    RunKeepsStampsNamed(trace, actions, m);
    if StampsGeneration(trace, actions, m, b, u) {
      StamperIsNamed(trace[m], actions[m].id);
      assert false;
    }
  }

  predicate StampsNow(s: State, a: Action, b: nat, time: nat) {
    a.Stamp? && a.id in s.actors && s.actors[a.id].block == b && s.actors[a.id].pc == ClockRead(time)
  }

  // If the header's stamp has changed, the run has stored the one that is there now.
  lemma {:induction false} StampHasComeFrom(trace: seq<State>, actions: seq<Action>, b: nat, i: nat) returns (m: nat)
    requires IsRun(trace, actions) && LeavesAlone(actions, b) && GracedAt(trace[0], b) && i < |trace|
    requires b in trace[i].blocks && trace[i].blocks[b].stamp != trace[0].blocks[b].stamp
    ensures m < i && StampsNow(trace[m], actions[m], b, trace[i].blocks[b].stamp)
  {
    GracedRunStays(trace, actions, b, i - 1);
    if trace[i].blocks[b].stamp == trace[i - 1].blocks[b].stamp {
      m := StampHasComeFrom(trace, actions, b, i - 1);
    } else {
      m := i - 1;
      StampIsStoredBy(trace[m], actions[m], b);
    }
  }

  lemma StampIsStoredBy(s: State, a: Action, b: nat)
    requires Enabled(s, a) && b in s.blocks && (PoolAction(a) ==> a.b != b)
    requires b in Effect(s, a).blocks && Effect(s, a).blocks[b].stamp != s.blocks[b].stamp
    ensures StampsNow(s, a, b, Effect(s, a).blocks[b].stamp)
  {
    if !(a.Stamp? && s.actors[a.id].block == b) {
      StampStays(s, a, b);
      assert false;
    }
  }

  lemma StampStays(s: State, a: Action, b: nat)
    requires Enabled(s, a) && b in s.blocks && (PoolAction(a) ==> a.b != b) && (a.Stamp? ==> s.actors[a.id].block != b)
    ensures b in Effect(s, a).blocks && Effect(s, a).blocks[b].stamp == s.blocks[b].stamp
  {
    if PoolAction(a) {
      PoolFrame(s, a);
    } else if BeginAction(a) {
      BeginFrame(s, a);
    } else if WriteAction(a) {
      WriteFrame(s, a);
    } else if MoveAction(a) {
      MoveFrame(s, a);
    }
  }

  // A named block: a stamp that comes now is not waited for.
  lemma NewStampIsMissed(s: State, b: nat) returns (t: seq<State>, a: seq<Action>)
    requires Inv(s) && ClockFits(s) && GracedAt(s, b) && s.blocks[b].uid != 0
    ensures Goes(s, t, a, b) && GracedAt(t[|a|], b) && t[|a|].blocks[b].word == 0
    ensures !StampsOldEnough(t, a, b, s.blocks[b].current, t[|a|].clock)
  {
    t, a := RelayStampCanBeMissed(s, b);
    var m := StampHasComeFrom(t, a, b, |a|);
    RunKeepsInv(t, a, m);
    GracedRunStays(t, a, b, m);
    assert ActorFits(t[m].actors[a[m].id], BlockOf(t[m], a[m].id), t[m].actors);
    StampsAreCurrent(t[m], a[m].id);
    assert StampsGeneration(t, a, m, b, s.blocks[b].current);
  }

  lemma UnnamedHasNoStamps(trace: seq<State>, actions: seq<Action>, b: nat, m: nat)
    requires IsRun(trace, actions) && trace[0] == INITIAL && GracedAt(trace[|actions|], b) && trace[|actions|].blocks[b].uid == 0 && m < |actions|
    ensures !StampsGeneration(trace, actions, m, b, trace[|actions|].blocks[b].current)
  {
    var s := trace[|actions|];
    InitialInv();
    RunKeepsInv(trace, actions, |actions|);
    assert BlockFits(b, s.blocks[b], Holders(s.actors, b), s.used, s.sealed);
    if StampsGeneration(trace, actions, m, b, s.blocks[b].current) {
      StampedIsNamed(trace, actions, m, |actions|, b, s.blocks[b].current);
      assert false;
    }
  }

  // Once the pool has checked the grace period of a block, the claim that follows respects every stamp its
  // generation ever gets, however the run goes on, if and only if the header never named the generation.
  lemma ClaimRespectsEveryStampIffNeverNamed(trace: seq<State>, actions: seq<Action>, b: nat)
    requires IsRun(trace, actions) && trace[0] == INITIAL && GracedAt(trace[|actions|], b)
    ensures ClaimWillRespectEveryStamp(trace, actions, b) <==> trace[|actions|].blocks[b].uid == 0
  {
    var s := trace[|actions|];
    RunKeepsStampsNamed(trace, actions, |actions|);
    RunKeepsClockFits(trace, actions, |actions|);
    if s.blocks[b].uid == 0 {
      forall m | 0 <= m < |actions| ensures !StampsGeneration(trace, actions, m, b, s.blocks[b].current) {
        UnnamedHasNoStamps(trace, actions, b, m);
      }
      forall t: seq<State>, a: seq<Action>, m | IsRun(t, a) && t[0] == s && LeavesAlone(a, b) && 0 <= m < |a|
        ensures !StampsGeneration(t, a, m, b, s.blocks[b].current)
      {
        UnnamedIsNotStamped(t, a, b, s.blocks[b].current, m);
      }
    } else {
      var t, a := NewStampIsMissed(s, b);
    }
  }

  // A free block that was never named and that nobody holds is as good as new: its header shows no stamp
  // and a zero word.
  lemma UnpublishedIsIdle(trace: seq<State>, actions: seq<Action>, i: nat, b: nat)
    requires IsRun(trace, actions) && trace[0] == INITIAL && i < |trace| && b in trace[i].blocks
    requires trace[i].blocks[b].phase == Free && trace[i].blocks[b].uid == 0 && Holders(trace[i].actors, b) == {}
    ensures trace[i].blocks[b].stamp == 0 && trace[i].blocks[b].word == 0
  {
    RunKeepsStampsNamed(trace, actions, i);
    assert StampNamed(trace[i].blocks[b]);
    assert BlockFits(b, trace[i].blocks[b], Holders(trace[i].actors, b), trace[i].used, trace[i].sealed);
    FreeWordIsZero(trace[i].blocks[b].word);
  }
}
