// The reuse grace period over whole runs. The timestamp load and the claim are separate operations,
// so the bound is relative to the loaded stamp; it is a bound on the last stamp of a generation that
// only its owner stamps, one descriptor at a time.

module ProtocolGrace {
  import opened Grace
  import opened Protocol
  import opened ProtocolFrames
  import opened ProtocolInvariant
  import opened ProtocolRuns

  // ---- The bound every run keeps ----

  predicate GraceChecked(s: State) {
    forall b | b in s.blocks && s.blocks[b].phase.Graced? :: GraceElapsed(s.blocks[b].phase.published, s.clock)
  }

  lemma StepKeepsGraceChecked(s: State, a: Action)
    requires GraceChecked(s) && Enabled(s, a)
    ensures GraceChecked(Effect(s, a))
  {
    if PoolAction(a) {
      PoolFrame(s, a);
    } else if !a.Tick? {
      ThreadFrame(s, a);
      ClockStands(s, a);
    }
  }

  lemma ClockStands(s: State, a: Action)
    requires Enabled(s, a) && !a.Tick?
    ensures Effect(s, a).clock == s.clock
  {
    if PoolAction(a) {
      PoolFrame(s, a);
    } else if BeginAction(a) {
      BeginFrame(s, a);
    } else if WriteAction(a) {
      WriteFrame(s, a);
    } else if MoveAction(a) {
      MoveFrame(s, a);
    }
  }

  // A block is claimed only if the stamp loaded for it was 0 or at least 100000 us old.
  lemma {:induction false} ClaimWaitsForLoadedStamp(trace: seq<State>, actions: seq<Action>, i: nat)
    requires IsRun(trace, actions) && trace[0] == INITIAL && i < |trace|
    ensures GraceChecked(trace[i])
    ensures i < |actions| && ClaimWins(trace[i], actions[i]) ==>
      var published := trace[i].blocks[actions[i].b].phase.published;
      published == 0 || trace[i].clock >= published + 100000
  {
    if i > 0 {
      ClaimWaitsForLoadedStamp(trace, actions, i - 1);
      StepKeepsGraceChecked(trace[i - 1], actions[i - 1]);
    }
  }

  predicate OnePass(actions: seq<Action>, j: nat, i: nat, b: nat) {
    j < i <= |actions| && actions[j] == Probe(b) && forall k | j < k < i :: actions[k] != Probe(b) && actions[k] != Claim(b)
  }

  predicate Loaded(s: State, b: nat, published: nat) {
    b in s.blocks && (s.blocks[b].phase == Probed(published) || s.blocks[b].phase == Graced(published))
  }

  lemma LoadStays(s: State, a: Action, b: nat, published: nat)
    requires Enabled(s, a) && Loaded(Effect(s, a), b, published)
    ensures if a == Probe(b) then b in s.blocks && s.blocks[b].stamp == published else a != Claim(b) && Loaded(s, b, published)
  {
    if PoolAction(a) {
      PoolFrame(s, a);
    } else {
      ThreadFrame(s, a);
    }
  }

  // What the pool has loaded is what the header showed when this attempt began.
  lemma {:induction false} LoadedAtProbe(trace: seq<State>, actions: seq<Action>, i: nat, b: nat, published: nat) returns (j: nat)
    requires IsRun(trace, actions) && trace[0] == INITIAL && i < |trace| && Loaded(trace[i], b, published)
    ensures OnePass(actions, j, i, b) && b in trace[j].blocks && trace[j].blocks[b].stamp == published
  {
    LoadStays(trace[i - 1], actions[i - 1], b, published);
    if actions[i - 1] == Probe(b) {
      j := i - 1;
    } else {
      j := LoadedAtProbe(trace, actions, i - 1, b, published);
    }
  }

  // Every winning claim goes back to a load of the stamp of its own: that stamp was 0, or is 100000 us old
  // at the claim, and the pool looked at the block no second time in between.
  lemma ClaimFollowsItsLoad(trace: seq<State>, actions: seq<Action>, i: nat) returns (j: nat)
    requires IsRun(trace, actions) && trace[0] == INITIAL && i < |actions| && ClaimWins(trace[i], actions[i])
    ensures OnePass(actions, j, i, actions[i].b) && actions[i].b in trace[j].blocks
    ensures var stamp := trace[j].blocks[actions[i].b].stamp; stamp == 0 || trace[i].clock >= stamp + 100000
  {
    ClaimWaitsForLoadedStamp(trace, actions, i);
    j := LoadedAtProbe(trace, actions, i, actions[i].b, trace[i].blocks[actions[i].b].phase.published);
  }

  // ---- The bound for a generation that only its owner stamps, one descriptor at a time ----

  predicate OnGeneration(a: Actor, b: nat, u: nat) {
    a.block == b && a.uid == u
  }

  // Nobody begins to relay generation `u` of block `b`, and its owner begins no descriptor of it while
  // another one is being made. Other blocks and generations are free.
  predicate OwnerStampsAlone(s: State, a: Action, b: nat, u: nat) {
    && (a.BeginRelay? && a.p in s.actors ==> !OnGeneration(s.actors[a.p], b, u))
    && (a.BeginDescribe? && a.b == b && b in s.blocks && s.blocks[b].current == u ==>
          forall id | id in s.actors :: !(s.actors[id].role == Describe && OnGeneration(s.actors[id], b, u)))
  }

  // No stamp and no clock reading lies in the future.
  predicate ClockFits(s: State) {
    && (forall b | b in s.blocks :: s.blocks[b].stamp <= s.clock)
    && (forall id | id in s.actors && s.actors[id].pc.ClockRead? :: s.actors[id].pc.time <= s.clock)
  }

  lemma StepKeepsClockFits(s: State, a: Action)
    requires ClockFits(s) && Enabled(s, a)
    ensures ClockFits(Effect(s, a))
  {
    if PoolAction(a) {
      PoolFrame(s, a);
    } else if BeginAction(a) {
      BeginFrame(s, a);
    } else if WriteAction(a) {
      WriteFrame(s, a);
    } else if MoveAction(a) {
      MoveKeepsClockFits(s, a);
    }
  }

  lemma MovedClockFits(s: State, s': State, id: nat)
    requires ClockFits(s) && ThreadMoves(s, s', id)
    requires s'.blocks[s.actors[id].block].stamp <= s.clock
    requires id in s'.actors && s'.actors[id].pc.ClockRead? ==> s'.actors[id].pc.time <= s.clock
    ensures ClockFits(s')
  {
  }

  lemma MoveKeepsClockFits(s: State, a: Action)
    requires ClockFits(s) && Enabled(s, a) && MoveAction(a)
    ensures ClockFits(Effect(s, a))
  {
    MoveFrame(s, a);
    MovedClockFits(s, Effect(s, a), a.id);
  }

  lemma {:induction false} RunKeepsClockFits(trace: seq<State>, actions: seq<Action>, i: nat)
    requires IsRun(trace, actions) && ClockFits(trace[0]) && i < |trace|
    ensures ClockFits(trace[i])
  {
    if i > 0 {
      RunKeepsClockFits(trace, actions, i - 1);
      StepKeepsClockFits(trace[i - 1], actions[i - 1]);
    }
  }

  predicate LoadedIsPresent(k: Block) {
    (k.phase.Probed? ==> k.phase.published == k.stamp) && (k.phase.Graced? ==> k.phase.published == k.stamp)
  }

  predicate StampOrdered(a: Actor, k: Block) {
    !a.role.Relay? && (a.role == Describe && a.pc.ClockRead? ==> k.stamp <= a.pc.time)
  }

  predicate StampsFit(s: State, b: nat, u: nat) {
    && (b in s.blocks && s.blocks[b].current == u ==> LoadedIsPresent(s.blocks[b]))
    && (forall id | id in s.actors && OnGeneration(s.actors[id], b, u) :: b in s.blocks && StampOrdered(s.actors[id], s.blocks[b]))
    && (forall i, j | i in s.actors && j in s.actors && OnGeneration(s.actors[i], b, u) && OnGeneration(s.actors[j], b, u) &&
                      s.actors[i].role == Describe && s.actors[j].role == Describe :: i == j)
  }

  // Whoever is about to stamp a block stamps its current generation.
  lemma StampsAreCurrent(s: State, id: nat)
    requires Inv(s) && id in s.actors && (s.actors[id].role == Describe || s.actors[id].role.Relay?)
    ensures s.actors[id].block in s.blocks && BlockOf(s, id).current == s.actors[id].uid && !BlockOf(s, id).phase.Preparing()
    ensures s.actors[id].role == Describe ==> BlockOf(s, id).phase.Live?
  {
    var a := s.actors[id];
    assert ActorFits(a, BlockOf(s, id), s.actors);
    if a.role.Relay? {
      var p := a.role.parent;
      assert p in Holders(s.actors, a.block) && ActorFits(s.actors[p], BlockOf(s, p), s.actors);
    }
    assert BlockFits(a.block, BlockOf(s, id), Holders(s.actors, a.block), s.used, s.sealed);
  }

  lemma PoolKeepsStampsFit(s: State, a: Action, b: nat, u: nat)
    requires Inv(s) && StampsFit(s, b, u) && Enabled(s, a) && PoolAction(a)
    ensures StampsFit(Effect(s, a), b, u)
  {
    PoolFrame(s, a);
    var s' := Effect(s, a);
    forall id | id in s'.actors && OnGeneration(s'.actors[id], b, u)
      ensures b in s'.blocks && StampOrdered(s'.actors[id], s'.blocks[b])
    {
      assert StampOrdered(s.actors[id], s.blocks[b]);
      if s.actors[id].role == Describe {
        StampsAreCurrent(s, id);
      }
    }
  }

  lemma JoinKeepsStampsFit(s: State, s': State, id: nat, b: nat, u: nat)
    requires StampsFit(s, b, u) && ThreadJoins(s, s', id)
    requires OnGeneration(s'.actors[id], b, u) ==> !s'.actors[id].role.Relay?
    requires OnGeneration(s'.actors[id], b, u) && s'.actors[id].role == Describe ==>
      forall j | j in s.actors :: !(s.actors[j].role == Describe && OnGeneration(s.actors[j], b, u))
    ensures StampsFit(s', b, u)
  {
    forall j | j in s'.actors && OnGeneration(s'.actors[j], b, u)
      ensures b in s'.blocks && StampOrdered(s'.actors[j], s'.blocks[b])
    {
      assert j != id ==> StampOrdered(s.actors[j], s.blocks[b]);
    }
  }

  lemma BeginKeepsStampsFit(s: State, a: Action, b: nat, u: nat)
    requires StampsFit(s, b, u) && Enabled(s, a) && BeginAction(a) && OwnerStampsAlone(s, a, b, u)
    ensures StampsFit(Effect(s, a), b, u)
  {
    BeginFrame(s, a);
    JoinKeepsStampsFit(s, Effect(s, a), a.id, b, u);
  }

  lemma WriteKeepsStampsFit(s: State, a: Action, b: nat, u: nat)
    requires StampsFit(s, b, u) && Enabled(s, a) && WriteAction(a)
    ensures StampsFit(Effect(s, a), b, u)
  {
    WriteFrame(s, a);
  }

  // The stamp stays, and whoever read the clock read it just now.
  lemma MovedStampsFit(s: State, s': State, id: nat, b: nat, u: nat)
    requires StampsFit(s, b, u) && ThreadMoves(s, s', id)
    requires s'.blocks[s.actors[id].block].stamp == s.blocks[s.actors[id].block].stamp <= s.clock
    requires id in s'.actors && s'.actors[id].pc.ClockRead? ==> s'.actors[id].pc == ClockRead(s.clock) || s'.actors[id].pc == s.actors[id].pc
    ensures StampsFit(s', b, u)
  {
    forall j | j in s'.actors && OnGeneration(s'.actors[j], b, u)
      ensures b in s'.blocks && StampOrdered(s'.actors[j], s'.blocks[b])
    {
      assert StampOrdered(s.actors[j], s.blocks[b]);
    }
  }

  lemma QuietMoveKeepsStampsFit(s: State, a: Action, b: nat, u: nat)
    requires ClockFits(s) && StampsFit(s, b, u) && Enabled(s, a) && MoveAction(a) && !a.Stamp?
    ensures StampsFit(Effect(s, a), b, u)
  {
    MoveFrame(s, a);
    MovedStampsFit(s, Effect(s, a), a.id, b, u);
  }

  lemma StampKeepsStampsFit(s: State, id: nat, b: nat, u: nat)
    requires Inv(s) && StampsFit(s, b, u) && Enabled(s, Stamp(id))
    ensures StampsFit(Effect(s, Stamp(id)), b, u)
    ensures s.actors[id].block == b && s.blocks[b].current == u ==> s.actors[id].role == Describe && s.blocks[b].stamp <= s.actors[id].pc.time
  {
    MoveFrame(s, Stamp(id));
    assert ActorFits(s.actors[id], BlockOf(s, id), s.actors);
    StampsAreCurrent(s, id);
    var s' := Effect(s, Stamp(id));
    forall j | j in s'.actors && OnGeneration(s'.actors[j], b, u)
      ensures b in s'.blocks && StampOrdered(s'.actors[j], s'.blocks[b])
    {
      assert StampOrdered(s.actors[j], s.blocks[b]);
      if s.actors[j].role == Describe {
        StampsAreCurrent(s, j);
      }
    }
  }

  lemma StepKeepsStampsFit(s: State, a: Action, b: nat, u: nat)
    requires Inv(s) && ClockFits(s) && StampsFit(s, b, u) && Enabled(s, a) && OwnerStampsAlone(s, a, b, u)
    ensures StampsFit(Effect(s, a), b, u)
  {
    if PoolAction(a) {
      PoolKeepsStampsFit(s, a, b, u);
    } else if BeginAction(a) {
      BeginKeepsStampsFit(s, a, b, u);
    } else if WriteAction(a) {
      WriteKeepsStampsFit(s, a, b, u);
    } else if a.Stamp? {
      StampKeepsStampsFit(s, a.id, b, u);
    } else if MoveAction(a) {
      QuietMoveKeepsStampsFit(s, a, b, u);
    }
  }

  // A stamp of value `time` was stored on generation `u` of block `b`; nothing later is older.
  predicate StampedSince(s: State, b: nat, u: nat, time: nat) {
    && b in s.blocks && u in s.used
    && (s.blocks[b].current != u || s.blocks[b].phase.Reserved? || (!s.blocks[b].phase.Preparing() && s.blocks[b].stamp >= time))
  }

  lemma MovedStampedSince(s: State, s': State, id: nat, b: nat, u: nat, time: nat)
    requires ThreadMoves(s, s', id) && StampedSince(s, b, u, time)
    requires s.actors[id].block == b && s.blocks[b].current == u ==> s'.blocks[b].stamp >= s.blocks[b].stamp
    ensures StampedSince(s', b, u, time)
  {
  }

  lemma MoveKeepsStampedSince(s: State, a: Action, b: nat, u: nat, time: nat)
    requires Inv(s) && StampsFit(s, b, u) && Enabled(s, a) && MoveAction(a) && StampedSince(s, b, u, time)
    ensures StampedSince(Effect(s, a), b, u, time)
  {
    MoveFrame(s, a);
    if a.Stamp? {
      StampKeepsStampsFit(s, a.id, b, u);
    }
    MovedStampedSince(s, Effect(s, a), a.id, b, u, time);
  }

  lemma QuietStepKeepsStampedSince(s: State, a: Action, b: nat, u: nat, time: nat)
    requires Enabled(s, a) && !PoolAction(a) && !MoveAction(a) && StampedSince(s, b, u, time)
    ensures StampedSince(Effect(s, a), b, u, time)
  {
    if BeginAction(a) {
      BeginFrame(s, a);
    } else if WriteAction(a) {
      WriteFrame(s, a);
    }
  }

  lemma StepKeepsStampedSince(s: State, a: Action, b: nat, u: nat, time: nat)
    requires Inv(s) && StampsFit(s, b, u) && Enabled(s, a) && StampedSince(s, b, u, time)
    ensures StampedSince(Effect(s, a), b, u, time)
  {
    if PoolAction(a) {
      PoolFrame(s, a);
    } else if MoveAction(a) {
      MoveKeepsStampedSince(s, a, b, u, time);
    } else {
      QuietStepKeepsStampedSince(s, a, b, u, time);
    }
  }

  // A run in which generation `u` of block `b` is stamped by its owner alone, one descriptor at a time.
  predicate IsDisciplinedRun(trace: seq<State>, actions: seq<Action>, b: nat, u: nat) {
    IsRun(trace, actions) && forall i | 0 <= i < |actions| :: OwnerStampsAlone(trace[i], actions[i], b, u)
  }

  lemma {:induction false} RunKeepsStampsFit(trace: seq<State>, actions: seq<Action>, b: nat, u: nat, i: nat)
    requires IsDisciplinedRun(trace, actions, b, u) && trace[0] == INITIAL && i < |trace|
    ensures Inv(trace[i]) && ClockFits(trace[i]) && StampsFit(trace[i], b, u)
  {
    InitialInv();
    RunKeepsInv(trace, actions, i);
    RunKeepsClockFits(trace, actions, i);
    if i > 0 {
      RunKeepsStampsFit(trace, actions, b, u, i - 1);
      StepKeepsStampsFit(trace[i - 1], actions[i - 1], b, u);
    }
  }

  lemma StampIsStored(s: State, id: nat)
    requires Inv(s) && Enabled(s, Stamp(id))
    ensures StampedSince(Effect(s, Stamp(id)), s.actors[id].block, s.actors[id].uid, s.actors[id].pc.time)
  {
    var a := s.actors[id];
    assert ActorFits(a, BlockOf(s, id), s.actors);
    StampsAreCurrent(s, id);
    assert BlockFits(a.block, s.blocks[a.block], Holders(s.actors, a.block), s.used, s.sealed);
  }

  lemma {:induction false} RunKeepsStampedSince(trace: seq<State>, actions: seq<Action>, b: nat, u: nat, m: nat, i: nat, id: nat)
    requires IsDisciplinedRun(trace, actions, b, u) && trace[0] == INITIAL && m < i < |trace|
    requires actions[m] == Stamp(id) && OnGeneration(trace[m].actors[id], b, u)
    ensures StampedSince(trace[i], b, u, trace[m].actors[id].pc.time)
  {
    RunKeepsStampsFit(trace, actions, b, u, i - 1);
    if i == m + 1 {
      StampIsStored(trace[m], id);
    } else {
      RunKeepsStampedSince(trace, actions, b, u, m, i - 1, id);
      StepKeepsStampedSince(trace[i - 1], actions[i - 1], b, u, trace[m].actors[id].pc.time);
    }
  }

  // A generation that only its owner stamps, one descriptor at a time, is reused at least 100000 us after
  // every nonzero stamp it received, whatever happens to other blocks and generations.
  lemma ReuseWaitsForLastStamp(trace: seq<State>, actions: seq<Action>, b: nat, u: nat, m: nat, i: nat, id: nat)
    requires IsDisciplinedRun(trace, actions, b, u) && trace[0] == INITIAL && m < i < |actions|
    requires actions[m] == Stamp(id) && OnGeneration(trace[m].actors[id], b, u) && trace[m].actors[id].pc.time != 0
    requires actions[i] == Claim(b) && ClaimWins(trace[i], Claim(b)) && trace[i].blocks[b].current == u
    ensures trace[i].clock >= trace[m].actors[id].pc.time + 100000
  {
    RunKeepsStampsFit(trace, actions, b, u, i);
    RunKeepsStampedSince(trace, actions, b, u, m, i, id);
    ClaimWaitsForLoadedStamp(trace, actions, i);
  }

  // ---- What a relay does ----

  lemma RelayBegins(s: State, p: nat, id: nat)
    requires Inv(s) && IsImported(s, p) && id !in s.actors
    ensures Enabled(s, BeginRelay(id, p))
    ensures Effect(s, BeginRelay(id, p)) == PutActor(s, id, Actor(s.actors[p].block, s.actors[p].uid, Relay(p), Started))
  {
    HeldPins(s, p, s.actors[p].block, s.actors[p].uid);
  }

  lemma RelayReadsClock(s: State, id: nat, x: Actor)
    requires x.role.Relay? && x.pc == Started && x.block in s.blocks
    ensures Enabled(PutActor(s, id, x), ReadClock(id))
    ensures Effect(PutActor(s, id, x), ReadClock(id)) == PutActor(s, id, x.(pc := ClockRead(s.clock)))
  {
    assert s.actors[id := x][id := x.(pc := ClockRead(s.clock))] == s.actors[id := x.(pc := ClockRead(s.clock))];
  }

  lemma RelayStores(s: State, id: nat, x: Actor)
    requires id !in s.actors && x.block in s.blocks && x.pc.ClockRead?
    ensures
      var s2 := PutActor(s, id, x);
      Enabled(s2, Stamp(id)) && Effect(s2, Stamp(id)) == s.(blocks := s.blocks[x.block := s.blocks[x.block].(stamp := x.pc.time)])
  {
    assert s.actors[id := x] - {id} == s.actors;
  }

  lemma RunOfThree(s: State, a: Action, s1: State, a1: Action, s2: State, a2: Action, s3: State)
    returns (trace: seq<State>, actions: seq<Action>)
    requires Enabled(s, a) && s1 == Effect(s, a) && Enabled(s1, a1) && s2 == Effect(s1, a1) && Enabled(s2, a2) && s3 == Effect(s2, a2)
    ensures IsRun(trace, actions) && trace == [s, s1, s2, s3] && actions == [a, a1, a2]
  {
    trace, actions := [s, s1, s2, s3], [a, a1, a2];
  }

  // Describing a held import cannot fail its uid check, whatever the pool is doing with the block, and
  // changes nothing but the stamp. In particular a phase keeps the older stamp it has loaded.
  lemma RelayOnlyStamps(s: State, b: nat, p: nat, id: nat) returns (trace: seq<State>, actions: seq<Action>)
    requires Inv(s) && IsImported(s, p) && s.actors[p].block == b && id !in s.actors
    ensures IsRun(trace, actions) && trace[0] == s && actions == [BeginRelay(id, p), ReadClock(id), Stamp(id)]
    ensures trace[3] == s.(blocks := s.blocks[b := s.blocks[b].(stamp := s.clock)])
  {
    var x := Actor(b, s.actors[p].uid, Relay(p), Started);
    var y := x.(pc := ClockRead(s.clock));
    RelayBegins(s, p, id);
    RelayReadsClock(s, id, x);
    RelayStores(s, id, y);
    var t := s.(blocks := s.blocks[b := s.blocks[b].(stamp := s.clock)]);
    trace, actions := RunOfThree(s, BeginRelay(id, p), PutActor(s, id, x), ReadClock(id), PutActor(s, id, y), Stamp(id), t);
  }
}
