// Runs from the start in which a block is reused too early after it was stamped: by a relay, and by two
// overlapping descriptors of its owner.

module ProtocolWitnesses {
  import opened WriteState
  import opened Grace
  import opened Protocol
  import opened ProtocolInvariant
  import opened ProtocolRuns
  import opened ProtocolGrace
  import opened ProtocolSteps
  import opened ProtocolImmutability
  import opened ProtocolStamps

  // ---- Pieces of runs ----

  // A one-byte block of generation 1, written once.
  const WRITTEN := Block(0, 0, 0, [0], 1, Live(Finalized))

  function Only(k: Block, actors: map<nat, Actor>, clock: nat): State {
    State(map[0 := k], actors, map[1 := 0], map[1 := [0]], clock)
  }

  lemma BlockIsMade() returns (trace: seq<State>, actions: seq<Action>)
    ensures IsRun(trace, actions) && trace[0] == INITIAL
    ensures actions == [Create(0, 1), Draw(0, 1), ClearUid(0), ClearTime(0), OpenWord(0)]
    ensures trace[5] == State(map[0 := WRITTEN.(phase := Live(Unset))], map[], map[1 := 0], map[], 0)
  {
    var k := Block(0, 0, 0, [0], 0, Reserved(true));
    assert seq(1, _ => 0) == [0];
    var s1 := State(map[0 := k], map[], map[], map[], 0);
    var s2 := State(map[0 := k.(current := 1, phase := Drawn(true))], map[], map[1 := 0], map[], 0);
    var s3 := State(map[0 := k.(current := 1, phase := UidCleared(true))], map[], map[1 := 0], map[], 0);
    var s4 := State(map[0 := k.(current := 1, phase := TimeCleared(true))], map[], map[1 := 0], map[], 0);
    var s5 := State(map[0 := WRITTEN.(phase := Live(Unset))], map[], map[1 := 0], map[], 0);
    Replaced(k, s2.blocks[0]);
    Replaced(s2.blocks[0], s3.blocks[0]);
    Replaced(s3.blocks[0], s4.blocks[0]);
    Replaced(s4.blocks[0], s5.blocks[0]);
    trace, actions := [INITIAL, s1, s2, s3, s4, s5], [Create(0, 1), Draw(0, 1), ClearUid(0), ClearTime(0), OpenWord(0)];
  }

  lemma Replaced(k: Block, k': Block)
    ensures (map[0 := k])[0 := k'] == map[0 := k']
  {
  }

  lemma BlockIsWritten() returns (trace: seq<State>, actions: seq<Action>)
    ensures IsRun(trace, actions) && trace[0] == INITIAL && trace[|actions|] == Only(WRITTEN, map[], 0)
    ensures NoRelay(actions)
  {
    var t1, a1 := BlockIsMade();
    var t2, a2 := WriterComesAndGoes();
    trace, actions := Join(t1, a1, t2, a2);
  }

  lemma WriterComesAndGoes() returns (trace: seq<State>, actions: seq<Action>)
    ensures IsRun(trace, actions) && actions == [GetWrite(0), DropWrite(0)]
    ensures trace[0] == State(map[0 := WRITTEN.(phase := Live(Unset))], map[], map[1 := 0], map[], 0)
    ensures trace[2] == Only(WRITTEN, map[], 0)
  {
    var s := State(map[0 := WRITTEN.(phase := Live(Unset))], map[], map[1 := 0], map[], 0);
    var s1 := s.(blocks := map[0 := WRITTEN.(phase := Live(InUse))]);
    Replaced(s.blocks[0], s1.blocks[0]);
    Replaced(s1.blocks[0], WRITTEN);
    trace, actions := [s, s1, Only(WRITTEN, map[], 0)], [GetWrite(0), DropWrite(0)];
  }

  predicate NoRelay(actions: seq<Action>) {
    forall i | 0 <= i < |actions| :: !actions[i].BeginRelay?
  }

  lemma Join(t1: seq<State>, a1: seq<Action>, t2: seq<State>, a2: seq<Action>) returns (trace: seq<State>, actions: seq<Action>)
    requires IsRun(t1, a1) && IsRun(t2, a2) && t1[|a1|] == t2[0]
    ensures IsRun(trace, actions) && trace[0] == t1[0] && trace[|actions|] == t2[|a2|]
    ensures trace == t1 + t2[1..] && actions == a1 + a2
    ensures NoRelay(a1) && NoRelay(a2) ==> NoRelay(actions)
  {
    RunsJoin(t1, a1, t2, a2);
    trace, actions := t1 + t2[1..], a1 + a2;
  }

  predicate Described(k: Block) {
    k == WRITTEN.(uid := k.uid, stamp := k.stamp)
  }

  lemma OneAction(s: State, a: Action, s': State) returns (trace: seq<State>, actions: seq<Action>)
    requires Enabled(s, a) && s' == Effect(s, a)
    ensures IsRun(trace, actions) && trace == [s, s'] && actions == [a]
  {
    trace, actions := [s, s'], [a];
  }

  lemma OwnerBegins(k: Block, actors: map<nat, Actor>, clock: nat, id: nat)
    requires Described(k) && id !in actors
    ensures Enabled(Only(k, actors, clock), BeginDescribe(id, 0))
    ensures Effect(Only(k, actors, clock), BeginDescribe(id, 0)) == Only(k, actors[id := Actor(0, 1, Describe, Started)], clock)
  {
  }

  lemma OwnerNames(k: Block, actors: map<nat, Actor>, clock: nat, id: nat)
    requires Described(k)
    ensures
      var s := Only(k, actors[id := Actor(0, 1, Describe, Started)], clock);
      Enabled(s, StoreUid(id)) &&
      Effect(s, StoreUid(id)) == Only(k.(uid := 1), actors[id := Actor(0, 1, Describe, UidStored)], clock)
  {
    var x := Actor(0, 1, Describe, Started);
    assert actors[id := x][id := x.(pc := UidStored)] == actors[id := x.(pc := UidStored)];
    Replaced(k, k.(uid := 1));
  }

  lemma OwnerLooks(k: Block, actors: map<nat, Actor>, clock: nat, id: nat)
    ensures
      var s := Only(k, actors[id := Actor(0, 1, Describe, UidStored)], clock);
      Enabled(s, ReadClock(id)) &&
      Effect(s, ReadClock(id)) == Only(k, actors[id := Actor(0, 1, Describe, ClockRead(clock))], clock)
  {
    var x := Actor(0, 1, Describe, UidStored);
    assert actors[id := x][id := x.(pc := ClockRead(clock))] == actors[id := x.(pc := ClockRead(clock))];
  }

  // The owner describes its block, some time later, up to the reading of the clock.
  lemma OwnerReadsClock(k: Block, actors: map<nat, Actor>, clock: nat, later: nat, id: nat) returns (trace: seq<State>, actions: seq<Action>)
    requires Described(k) && id !in actors
    ensures IsRun(trace, actions) && trace[0] == Only(k, actors, clock)
    ensures |actions| == 4 && NoRelay(actions)
    ensures trace[4] == Only(k.(uid := 1), actors[id := Actor(0, 1, Describe, ClockRead(clock + later))], clock + later)
  {
    var now, x := clock + later, Actor(0, 1, Describe, Started);
    OwnerBegins(k, actors, now, id);
    OwnerNames(k, actors, now, id);
    OwnerLooks(k.(uid := 1), actors, now, id);
    var s1, s2, s3 := Only(k, actors, now), Only(k, actors[id := x], now), Only(k.(uid := 1), actors[id := x.(pc := UidStored)], now);
    var t1, a1 := OneAction(Only(k, actors, clock), Tick(later), s1);
    var t2, a2 := OneAction(s1, BeginDescribe(id, 0), s2);
    var t3, a3 := OneAction(s2, StoreUid(id), s3);
    var t4, a4 := OneAction(s3, ReadClock(id), Only(k.(uid := 1), actors[id := x.(pc := ClockRead(now))], now));
    trace, actions := Join(t1, a1, t2, a2);
    trace, actions := Join(trace, actions, t3, a3);
    trace, actions := Join(trace, actions, t4, a4);
  }

  lemma OwnerStamps(k: Block, actors: map<nat, Actor>, clock: nat, id: nat, time: nat) returns (trace: seq<State>, actions: seq<Action>)
    requires Described(k) && id !in actors
    ensures IsRun(trace, actions) && actions == [Stamp(id)]
    ensures trace[0] == Only(k, actors[id := Actor(0, 1, Describe, ClockRead(time))], clock) && trace[1] == Only(k.(stamp := time), actors, clock)
  {
    var x := Actor(0, 1, Describe, ClockRead(time));
    assert actors[id := x] - {id} == actors;
    Replaced(k, k.(stamp := time));
    trace, actions := [Only(k, actors[id := x], clock), Only(k.(stamp := time), actors, clock)], [Stamp(id)];
  }

  // The buffer dies, and the pool finds the block old enough.
  lemma BlockIsGraced(k: Block, clock: nat) returns (trace: seq<State>, actions: seq<Action>)
    requires Described(k) && GraceElapsed(k.stamp, clock)
    ensures IsRun(trace, actions) && actions == [FreeBlock(0), Probe(0), CheckGrace(0)]
    ensures trace[0] == Only(k, map[], clock) && trace[3] == Only(k.(phase := Graced(k.stamp)), map[], clock)
  {
    var k1, k2, k3 := k.(phase := Free), k.(phase := Probed(k.stamp)), k.(phase := Graced(k.stamp));
    Replaced(k, k1);
    Replaced(k1, k2);
    Replaced(k2, k3);
    trace := [Only(k, map[], clock), Only(k1, map[], clock), Only(k2, map[], clock), Only(k3, map[], clock)];
    actions := [FreeBlock(0), Probe(0), CheckGrace(0)];
  }

  // ---- A relay ----

  // The pool checks the grace period of a block whose header names its generation.
  lemma NamedIsChecked() returns (trace: seq<State>, actions: seq<Action>)
    ensures IsRun(trace, actions) && trace[0] == INITIAL
    ensures trace[|actions|] == Only(Block(0, 1, 1, [0], 1, Graced(1)), map[], 1 + GRACE_PERIOD_US)
  {
    var k := WRITTEN.(uid := 1, stamp := 1);
    var t1, a1 := BlockIsWritten();
    var t2, a2 := OwnerReadsClock(WRITTEN, map[], 0, 1, 0);
    var t3, a3 := OwnerStamps(WRITTEN.(uid := 1), map[], 1, 0, 1);
    var t4, a4 := [t3[1], Only(k, map[], 1 + GRACE_PERIOD_US)], [Tick(GRACE_PERIOD_US)];
    var t5, a5 := BlockIsGraced(k, 1 + GRACE_PERIOD_US);
    trace, actions := Join(t1, a1, t2, a2);
    trace, actions := Join(trace, actions, t3, a3);
    trace, actions := Join(trace, actions, t4, a4);
    trace, actions := Join(trace, actions, t5, a5);
  }

  lemma ClaimFollows(t: seq<State>, a: seq<Action>, b: nat) returns (trace: seq<State>, actions: seq<Action>)
    requires IsRun(t, a) && GracedAt(t[|a|], b)
    ensures IsRun(trace, actions) && |trace| == |t| + 1 && trace[..|t|] == t && actions == a + [Claim(b)]
  {
    var s := t[|a|];
    trace, actions := Join(t, a, [s, Effect(s, Claim(b))], [Claim(b)]);
  }

  // A run from the start whose last step reuses a block less than the grace period after a relay stamped it.
  lemma RelayBreaksGrace() returns (trace: seq<State>, actions: seq<Action>)
    ensures IsRun(trace, actions) && trace[0] == INITIAL && |actions| > 0
    ensures
      var s, a := trace[|actions| - 1], actions[|actions| - 1];
      ClaimWins(s, a) && s.blocks[a.b].stamp != 0 && s.clock < s.blocks[a.b].stamp + 100000
  {
    var t1, a1 := NamedIsChecked();
    InitialInv();
    RunKeepsInv(t1, a1, |a1|);
    var t2, a2 := RelayStampCanBeMissed(t1[|a1|], 0);
    var t, a := Join(t1, a1, t2, a2);
    trace, actions := ClaimFollows(t, a, 0);
    assert trace[|actions| - 1] == t[|a|];
  }

  // ---- Two descriptors of one generation ----

  // Two threads describe the block; the one that read the clock first stores its stamp last.
  lemma StampsCross() returns (trace: seq<State>, actions: seq<Action>)
    ensures IsRun(trace, actions) && trace[0] == Only(WRITTEN, map[], 0)
    ensures |actions| == 10 && actions[8] == Stamp(1) && NoRelay(actions)
    ensures 1 in trace[8].actors && trace[8].actors[1] == Actor(0, 1, Describe, ClockRead(1 + GRACE_PERIOD_US))
    ensures trace[10] == Only(WRITTEN.(uid := 1, stamp := 1), map[], 1 + GRACE_PERIOD_US)
  {
    var k, now := WRITTEN.(uid := 1), 1 + GRACE_PERIOD_US;
    var early := map[0 := Actor(0, 1, Describe, ClockRead(1))];
    var t1, a1 := OwnerReadsClock(WRITTEN, map[], 0, 1, 0);
    var t2, a2 := OwnerReadsClock(k, early, 1, GRACE_PERIOD_US, 1);
    var t3, a3 := OwnerStamps(k, early, now, 1, now);
    var t4, a4 := OwnerStamps(k.(stamp := now), map[], now, 0, 1);
    assert map[][0 := Actor(0, 1, Describe, ClockRead(1))] == early;
    trace, actions := Join(t1, a1, t2, a2);
    trace, actions := Join(trace, actions, t3, a3);
    assert trace[8] == t3[0];
    trace, actions := Join(trace, actions, t4, a4);
  }

  // A run from the start without any relay whose last step reuses a generation less than the grace period
  // after its owner stamped it.
  lemma OverlapBreaksGrace() returns (trace: seq<State>, actions: seq<Action>, m: nat, id: nat)
    ensures IsRun(trace, actions) && trace[0] == INITIAL && m + 1 < |actions|
    ensures NoRelay(actions)
    ensures actions[m] == Stamp(id) && id in trace[m].actors && trace[m].actors[id].pc.ClockRead?
    ensures
      var s, a, stamper := trace[|actions| - 1], actions[|actions| - 1], trace[m].actors[id];
      && ClaimWins(s, a) && OnGeneration(stamper, a.b, s.blocks[a.b].current)
      && stamper.pc.time != 0 && s.clock < stamper.pc.time + 100000
  {
    var t, a;
    t, a, m := CrossedIsChecked();
    id := 1;
    trace, actions := ClaimFollows(t, a, 0);
    assert trace[m] == t[m] && trace[|actions| - 1] == t[|a|];
  }

  // The pool believes the older stamp.
  lemma CrossedIsChecked() returns (trace: seq<State>, actions: seq<Action>, m: nat)
    ensures IsRun(trace, actions) && trace[0] == INITIAL && m < |actions| && actions[m] == Stamp(1)
    ensures NoRelay(actions)
    ensures 1 in trace[m].actors && trace[m].actors[1] == Actor(0, 1, Describe, ClockRead(1 + GRACE_PERIOD_US))
    ensures trace[|actions|] == Only(Block(0, 1, 1, [0], 1, Graced(1)), map[], 1 + GRACE_PERIOD_US)
  {
    var t1, a1 := BlockIsWritten();
    var t2, a2 := StampsCross();
    var t3, a3 := BlockIsGraced(WRITTEN.(uid := 1, stamp := 1), 1 + GRACE_PERIOD_US);
    trace, actions := Join(t1, a1, t2, a2);
    m := |a1| + 8;
    assert trace[m] == t2[8] && actions[m] == a2[8];
    trace, actions := Join(trace, actions, t3, a3);
  }

  // ---- A descriptor made too early ----

  lemma BlockIsDescribedEarly() returns (trace: seq<State>, actions: seq<Action>)
    ensures IsRun(trace, actions) && trace[0] == INITIAL && |actions| == 6 && actions[5] == BeginDescribe(0, 0)
    ensures Inv(trace[6]) && WritingIs(trace[6], 0, Unset)
  {
    var t1, a1 := BlockIsMade();
    InitialInv();
    RunKeepsInv(t1, a1, 5);
    BeginDescribeKeepsInv(t1[5], 0, 0);
    var t2, a2 := OneAction(t1[5], BeginDescribe(0, 0), Effect(t1[5], BeginDescribe(0, 0)));
    trace, actions := Join(t1, a1, t2, a2);
  }

  lemma ContinuationOf(t1: seq<State>, t2: seq<State>, n: nat)
    requires |t1| == n + 1 && t2 != [] && t1[n] == t2[0]
    ensures (t1 + t2[1..])[n..] == t2
  {
  }

  // A run from the start in which the owner overwrites a payload it has begun to describe: at step `m` the
  // descriptor is begun, and the last payload differs from the described one within the same generation.
  lemma EarlyDescriptorIsOverwritten() returns (trace: seq<State>, actions: seq<Action>, m: nat)
    ensures IsRun(trace, actions) && trace[0] == INITIAL && m < |actions| && actions[m] == BeginDescribe(0, 0)
    ensures StaysInGeneration(trace[m + 1..], 0)
    ensures trace[|trace| - 1].blocks[0].payload != trace[m + 1].blocks[0].payload
  {
    var t1, a1 := BlockIsDescribedEarly();
    var t2, a2 := OverwriteAfterDescribing(t1[6], 0);
    trace, actions := Join(t1, a1, t2, a2);
    m := 5;
    ContinuationOf(t1, t2, 6);
  }
}
