// What undisturbed threads achieve: from any state, a new block can carry any bytes to an importer, a
// lease on a live block is granted, and an attempt to reuse a free block is decided.

module ProtocolDelivery {
  import opened WriteState
  import opened Bytes
  import opened ControlWord
  import opened Grace
  import opened Protocol
  import opened ProtocolInvariant
  import opened ProtocolRuns
  import opened ProtocolPublication
  import opened ProtocolRefinement
  import ByteStore

  // ---- Building runs ----

  lemma Start(s: State) returns (trace: seq<State>, actions: seq<Action>)
    ensures IsRun(trace, actions) && trace == [s] && actions == []
  {
    trace, actions := [s], [];
  }

  lemma Then(t: seq<State>, a: seq<Action>, x: Action, s: State) returns (trace: seq<State>, actions: seq<Action>)
    requires IsRun(t, a) && Enabled(t[|a|], x) && Effect(t[|a|], x) == s
    ensures IsRun(trace, actions) && trace == t + [s] && actions == a + [x] && trace[|actions|] == s && trace[0] == t[0]
  {
    trace, actions := t + [s], a + [x];
  }

  lemma Follow(t1: seq<State>, a1: seq<Action>, t2: seq<State>, a2: seq<Action>) returns (trace: seq<State>, actions: seq<Action>)
    requires IsRun(t1, a1) && IsRun(t2, a2) && t1[|a1|] == t2[0]
    ensures IsRun(trace, actions) && trace[0] == t1[0] && trace[|actions|] == t2[|a2|] && actions == a1 + a2
  {
    RunsJoin(t1, a1, t2, a2);
    trace, actions := t1 + t2[1..], a1 + a2;
  }

  lemma PutTwice(s: State, b: nat, k: Block, k': Block)
    ensures PutBlock(PutBlock(s, b, k), b, k') == PutBlock(s, b, k')
  {
    assert s.blocks[b := k][b := k'] == s.blocks[b := k'];
  }

  // ---- Reuse ----

  // An undisturbed attempt to reuse a free block succeeds exactly if its stamp is 0 or 100000 us old and
  // nobody holds it; otherwise everything is as it was, and the next attempt loads the stamp anew.
  lemma AttemptIsDecided(s: State, b: nat) returns (trace: seq<State>, actions: seq<Action>)
    requires b in s.blocks && s.blocks[b].phase == Free
    ensures IsRun(trace, actions) && trace[0] == s && [Probe(b), CheckGrace(b)] <= actions <= [Probe(b), CheckGrace(b), Claim(b)]
    ensures
      var k := s.blocks[b];
      trace[|actions|] ==
        if (k.stamp == 0 || s.clock >= k.stamp + 100000) && k.word == 0
        then PutBlock(s, b, k.(word := 0x8000_0000, phase := Reserved(false)))
        else s
  {
    var k := s.blocks[b];
    var k1, k2, k3 := k.(phase := Probed(k.stamp)), k.(phase := Graced(k.stamp)), k.(word := REUSE_CLAIMED, phase := Reserved(false));
    PutTwice(s, b, k1, k2);
    PutTwice(s, b, k1, k);
    PutTwice(s, b, k2, k);
    PutTwice(s, b, k2, k3);
    assert PutBlock(s, b, k) == s;
    trace, actions := Start(s);
    trace, actions := Then(trace, actions, Probe(b), PutBlock(s, b, k1));
    if GraceElapsed(k.stamp, s.clock) {
      trace, actions := Then(trace, actions, CheckGrace(b), PutBlock(s, b, k2));
      trace, actions := Then(trace, actions, Claim(b), if k.word == 0 then PutBlock(s, b, k3) else s);
    } else {
      trace, actions := Then(trace, actions, CheckGrace(b), s);
    }
  }

  // ---- Any bytes can be delivered ----

  lemma BlockIsCreated(s: State, b: nat, n: nat, u: nat) returns (trace: seq<State>, actions: seq<Action>, k: Block)
    requires b !in s.blocks && n > 0 && u != 0 && u !in s.used
    ensures IsRun(trace, actions) && trace[0] == s && actions == [Create(b, n), Draw(b, u)]
    ensures k == Block(0, 0, 0, k.payload, u, Drawn(true)) && |k.payload| == n
    ensures trace[2] == PutBlock(s.(used := s.used[u := b]), b, k)
  {
    var k0, s' := Block(0, 0, 0, seq(n, _ => 0), 0, Reserved(true)), s.(used := s.used[u := b]);
    k := k0.(current := u, phase := Drawn(true));
    PutTwice(s', b, k0, k);
    trace, actions := Start(s);
    trace, actions := Then(trace, actions, Create(b, n), PutBlock(s, b, k0));
    trace, actions := Then(trace, actions, Draw(b, u), PutBlock(s', b, k));
  }

  lemma HeaderIsCleared(s: State, b: nat, k: Block) returns (trace: seq<State>, actions: seq<Action>)
    requires k.phase.Drawn?
    ensures IsRun(trace, actions) && trace[0] == PutBlock(s, b, k) && actions == [ClearUid(b), ClearTime(b), OpenWord(b)]
    ensures trace[3] == PutBlock(s, b, k.(word := 0, uid := 0, stamp := 0, phase := Live(Unset)))
  {
    var k1 := k.(uid := 0, phase := UidCleared(k.phase.brandNew));
    var k2 := k1.(stamp := 0, phase := TimeCleared(k.phase.brandNew));
    var k3 := k2.(word := 0, phase := Live(Unset));
    PutTwice(s, b, k, k1);
    PutTwice(s, b, k1, k2);
    PutTwice(s, b, k2, k3);
    trace, actions := Start(PutBlock(s, b, k));
    trace, actions := Then(trace, actions, ClearUid(b), PutBlock(s, b, k1));
    trace, actions := Then(trace, actions, ClearTime(b), PutBlock(s, b, k2));
    trace, actions := Then(trace, actions, OpenWord(b), PutBlock(s, b, k3));
  }

  // Byte by byte, from the front.
  lemma {:induction false} BytesAreWritten(s: State, b: nat, k: Block, bytes: seq<Byte>, n: nat) returns (trace: seq<State>, actions: seq<Action>)
    requires k.phase == Live(InUse) && |k.payload| == |bytes| && n <= |bytes|
    ensures IsRun(trace, actions) && trace[0] == PutBlock(s, b, k)
    ensures trace[|actions|] == PutBlock(s, b, k.(payload := bytes[..n] + k.payload[n..]))
  {
    if n == 0 {
      assert bytes[..0] + k.payload[0..] == k.payload;
      trace, actions := Start(PutBlock(s, b, k));
    } else {
      trace, actions := BytesAreWritten(s, b, k, bytes, n - 1);
      var k1 := k.(payload := bytes[..n - 1] + k.payload[n - 1..]);
      var k2 := k.(payload := bytes[..n] + k.payload[n..]);
      assert k1.payload[n - 1 := bytes[n - 1]] == k2.payload;
      PutTwice(s, b, k1, k2);
      trace, actions := Then(trace, actions, WriteByte(b, n - 1, bytes[n - 1]), PutBlock(s, b, k2));
    }
  }

  lemma BlockIsWritten(s: State, b: nat, k: Block, bytes: seq<Byte>) returns (trace: seq<State>, actions: seq<Action>)
    requires k.phase == Live(Unset) && |k.payload| == |bytes| && NoLocalReader(PutBlock(s, b, k), b)
    ensures IsRun(trace, actions) && trace[0] == PutBlock(s, b, k)
    ensures trace[|actions|] == PutBlock(s.(sealed := s.sealed[k.current := bytes]), b, k.(payload := bytes, phase := Live(Finalized)))
  {
    var k1, k2 := k.(phase := Live(InUse)), k.(payload := bytes, phase := Live(InUse));
    var t1, a1 := Start(PutBlock(s, b, k));
    PutTwice(s, b, k, k1);
    t1, a1 := Then(t1, a1, GetWrite(b), PutBlock(s, b, k1));
    var t2, a2 := BytesAreWritten(s, b, k1, bytes, |bytes|);
    assert bytes[..|bytes|] + k1.payload[|bytes|..] == bytes;
    trace, actions := Follow(t1, a1, t2, a2);
    var s', k3 := s.(sealed := s.sealed[k.current := bytes]), k2.(phase := Live(Finalized));
    PutTwice(s', b, k2, k3);
    trace, actions := Then(trace, actions, DropWrite(b), PutBlock(s', b, k3));
  }

  lemma ActorActs(s: State, id: nat, x: Actor, y: Actor)
    ensures PutActor(PutActor(s, id, x), id, y) == PutActor(s, id, y)
    ensures id !in s.actors ==> DropActor(PutActor(s, id, x), id) == s
  {
    assert s.actors[id := x][id := y] == s.actors[id := y];
    assert id !in s.actors ==> s.actors[id := x] - {id} == s.actors;
  }

  lemma DescriptorIsBegun(s: State, b: nat, k: Block, id: nat)
    requires k.phase == Live(Finalized) && id !in s.actors
    ensures Enabled(PutBlock(s, b, k), BeginDescribe(id, b))
    ensures Effect(PutBlock(s, b, k), BeginDescribe(id, b)) == PutActor(PutBlock(s, b, k), id, Actor(b, k.current, Describe, Started))
  {
  }

  lemma UidIsStored(s: State, b: nat, k: Block, id: nat)
    ensures
      var x := Actor(b, k.current, Describe, Started);
      && Enabled(PutActor(PutBlock(s, b, k), id, x), StoreUid(id))
      && Effect(PutActor(PutBlock(s, b, k), id, x), StoreUid(id)) ==
           PutActor(PutBlock(s, b, k.(uid := k.current)), id, x.(pc := UidStored))
  {
    PutTwice(s, b, k, k.(uid := k.current));
    ActorActs(s, id, Actor(b, k.current, Describe, Started), Actor(b, k.current, Describe, UidStored));
  }

  lemma ClockIsRead(s: State, b: nat, k: Block, id: nat)
    ensures
      var x := Actor(b, k.current, Describe, UidStored);
      && Enabled(PutActor(PutBlock(s, b, k), id, x), ReadClock(id))
      && Effect(PutActor(PutBlock(s, b, k), id, x), ReadClock(id)) == PutActor(PutBlock(s, b, k), id, x.(pc := ClockRead(s.clock)))
  {
    ActorActs(s, id, Actor(b, k.current, Describe, UidStored), Actor(b, k.current, Describe, ClockRead(s.clock)));
  }

  lemma StampIsLeft(s: State, b: nat, k: Block, id: nat)
    requires id !in s.actors
    ensures
      var x := Actor(b, k.current, Describe, ClockRead(s.clock));
      && Enabled(PutActor(PutBlock(s, b, k), id, x), Stamp(id))
      && Effect(PutActor(PutBlock(s, b, k), id, x), Stamp(id)) == PutBlock(s, b, k.(stamp := s.clock))
  {
    PutTwice(s, b, k, k.(stamp := s.clock));
    ActorActs(s, id, Actor(b, k.current, Describe, ClockRead(s.clock)), Actor(b, k.current, Describe, ClockRead(s.clock)));
  }

  lemma BlockIsDescribed(s: State, b: nat, k: Block, id: nat) returns (trace: seq<State>, actions: seq<Action>)
    requires k.phase == Live(Finalized) && id !in s.actors
    ensures IsRun(trace, actions) && trace[0] == PutBlock(s, b, k)
    ensures actions == [BeginDescribe(id, b), StoreUid(id), ReadClock(id), Stamp(id)]
    ensures trace[4] == PutBlock(s, b, k.(uid := k.current, stamp := s.clock))
  {
    hide Enabled, Effect;
    var x, named := Actor(b, k.current, Describe, Started), k.(uid := k.current);
    DescriptorIsBegun(s, b, k, id);
    UidIsStored(s, b, k, id);
    ClockIsRead(s, b, named, id);
    StampIsLeft(s, b, named, id);
    trace, actions := Start(PutBlock(s, b, k));
    trace, actions := Then(trace, actions, BeginDescribe(id, b), PutActor(PutBlock(s, b, k), id, x));
    trace, actions := Then(trace, actions, StoreUid(id), PutActor(PutBlock(s, b, named), id, x.(pc := UidStored)));
    trace, actions := Then(trace, actions, ReadClock(id), PutActor(PutBlock(s, b, named), id, x.(pc := ClockRead(s.clock))));
    trace, actions := Then(trace, actions, Stamp(id), PutBlock(s, b, named.(stamp := s.clock)));
  }

  lemma BlockIsImported(s: State, b: nat, k: Block, id: nat) returns (trace: seq<State>, actions: seq<Action>)
    requires k.phase == Live(Finalized) && k.uid == k.current != 0 && k.word == 0 && id !in s.actors
    ensures IsRun(trace, actions) && trace[0] == PutBlock(s, b, k)
    ensures actions == [BeginImport(id, b, k.uid), Validate(id), Load(id), Cas(id), Recheck(id)]
    ensures trace[5] == PutActor(PutBlock(s, b, k.(word := 1)), id, Actor(b, k.uid, Import, Held))
  {
    hide Enabled, Effect;
    var t1, a1 := ImportChecks(PutBlock(s, b, k), b, k.uid, id);
    var t2, a2 := ImportAcquires(PutBlock(s, b, k), b, k.uid, id);
    PutTwice(s, b, k, k.(word := 1));
    trace, actions := Follow(t1, a1, t2, a2);
  }

  // A block that an allocation of `n` bytes may hand out: one not made yet, or a free one that is idle
  // and old enough.
  predicate Allocatable(s: State, b: nat, n: nat) {
    b in s.blocks ==>
      var k := s.blocks[b];
      k.phase == Free && |k.payload| == n && k.word == 0 && (k.stamp == 0 || s.clock >= k.stamp + 100000)
  }

  lemma BlockIsReused(s: State, b: nat, u: nat) returns (trace: seq<State>, actions: seq<Action>, k: Block)
    requires b in s.blocks && Allocatable(s, b, |s.blocks[b].payload|) && u != 0 && u !in s.used
    ensures IsRun(trace, actions) && trace[0] == s
    ensures k == s.blocks[b].(word := 0x8000_0000, current := u, phase := Drawn(false))
    ensures trace[|actions|] == PutBlock(s.(used := s.used[u := b]), b, k)
  {
    var k0, s' := s.blocks[b].(word := 0x8000_0000, phase := Reserved(false)), s.(used := s.used[u := b]);
    k := k0.(current := u, phase := Drawn(false));
    PutTwice(s', b, k0, k);
    trace, actions := AttemptIsDecided(s, b);
    trace, actions := Then(trace, actions, Draw(b, u), PutBlock(s', b, k));
  }

  lemma BlockIsOpened(s: State, b: nat, n: nat, u: nat) returns (trace: seq<State>, actions: seq<Action>, k: Block)
    requires Allocatable(s, b, n) && n > 0 && u != 0 && u !in s.used
    ensures IsRun(trace, actions) && trace[0] == s
    ensures k == Block(0, 0, 0, k.payload, u, Live(Unset)) && |k.payload| == n
    ensures trace[|actions|] == PutBlock(s.(used := s.used[u := b]), b, k)
  {
    hide Enabled, Effect;
    if b in s.blocks {
      trace, actions, k := BlockIsReused(s, b, u);
    } else {
      trace, actions, k := BlockIsCreated(s, b, n, u);
    }
    var t2, a2 := HeaderIsCleared(s.(used := s.used[u := b]), b, k);
    trace, actions := Follow(trace, actions, t2, a2);
    k := k.(word := 0, uid := 0, stamp := 0, phase := Live(Unset));
  }

  // A block, written, with nobody on its new generation.
  lemma BlockIsPrepared(s: State, b: nat, u: nat, bytes: seq<Byte>) returns (trace: seq<State>, actions: seq<Action>)
    requires Inv(s) && Allocatable(s, b, |bytes|) && u != 0 && u !in s.used && bytes != []
    ensures IsRun(trace, actions) && trace[0] == s
    ensures trace[|actions|] == PutBlock(s.(used := s.used[u := b], sealed := s.sealed[u := bytes]), b, Block(0, 0, 0, bytes, u, Live(Finalized)))
  {
    hide Enabled, Effect;
    var t1, a1, k := BlockIsOpened(s, b, |bytes|, u);
    var s1 := s.(used := s.used[u := b]);
    NewcomerHasNoReader(s, b, u);
    var t2, a2 := BlockIsWritten(s1, b, k, bytes);
    trace, actions := Follow(t1, a1, t2, a2);
  }

  lemma NewcomerHasNoReader(s: State, b: nat, u: nat)
    requires Inv(s) && u !in s.used
    ensures forall id | id in s.actors :: !(s.actors[id].block == b && s.actors[id].role == OwnerRead && s.actors[id].uid == u)
  {
    forall id | id in s.actors && s.actors[id].block == b && s.actors[id].role == OwnerRead ensures s.actors[id].uid != u {
      assert ActorFits(s.actors[id], BlockOf(s, id), s.actors);
      assert BlockFits(b, s.blocks[b], Holders(s.actors, b), s.used, s.sealed);
    }
  }

  lemma HeldIsRead(s: State, id: nat, i: nat)
    requires ActorAt(s, id, Held) && s.actors[id].role == Import && s.actors[id].uid in s.sealed && i < |BlockOf(s, id).payload|
    ensures Enabled(s, ReadByte(id, i)) && EventOf(s, ReadByte(id, i)) == ByteStore.Read(id, i, BlockOf(s, id).payload[i])
  {
  }

  // From every reachable state, any bytes whatever can be written to a block, new or reused, described, and
  // imported: the importer then reads those bytes, and nothing else has changed.
  lemma AnyBytesCanBeDelivered(s: State, b: nat, u: nat, bytes: seq<Byte>, id: nat) returns (trace: seq<State>, actions: seq<Action>)
    requires Inv(s) && Allocatable(s, b, |bytes|) && u != 0 && u !in s.used && bytes != [] && id !in s.actors
    ensures IsRun(trace, actions) && trace[0] == s && BeginImport(id, b, u) in actions
    ensures
      var last := trace[|actions|];
      && last.blocks == s.blocks[b := Block(1, u, s.clock, bytes, u, Live(Finalized))]
      && last.actors == s.actors[id := Actor(b, u, Import, Held)]
      && last.used == s.used[u := b] && last.sealed == s.sealed[u := bytes] && last.clock == s.clock
      && forall i | 0 <= i < |bytes| :: Enabled(last, ReadByte(id, i)) && EventOf(last, ReadByte(id, i)) == ByteStore.Read(id, i, bytes[i])
  {
    hide Enabled, Effect, EventOf;
    var t1, a1 := BlockIsPrepared(s, b, u, bytes);
    var s', k := s.(used := s.used[u := b], sealed := s.sealed[u := bytes]), Block(0, 0, 0, bytes, u, Live(Finalized));
    var t2, a2 := BlockIsDescribed(s', b, k, id);
    var t3, a3 := BlockIsImported(s', b, k.(uid := u, stamp := s.clock), id);
    trace, actions := Follow(t1, a1, t2, a2);
    trace, actions := Follow(trace, actions, t3, a3);
    assert BeginImport(id, b, u) in a3;
    forall i | 0 <= i < |bytes|
      ensures Enabled(trace[|actions|], ReadByte(id, i)) && EventOf(trace[|actions|], ReadByte(id, i)) == ByteStore.Read(id, i, bytes[i])
    {
      HeldIsRead(trace[|actions|], id, i);
    }
  }

  // ---- Leases ----

  // A lease on a live block, for a read handle or for keeps, is granted unless the block is being written
  // and is to be read; it adds one reference and changes nothing else.
  lemma OwnerLeaseIsGranted(s: State, b: nat, id: nat, hold: bool) returns (trace: seq<State>, actions: seq<Action>)
    requires b in s.blocks && s.blocks[b].phase.Live? && id !in s.actors && !AcquireRefused(s.blocks[b].word)
    requires hold || s.blocks[b].phase.writing != InUse
    ensures IsRun(trace, actions) && trace[0] == s && actions == [BeginOwnerLease(id, b, hold), Load(id), Cas(id)]
    ensures trace[3] ==
      PutActor(PutBlock(s, b, s.blocks[b].(word := s.blocks[b].word + 1)), id,
        Actor(b, s.blocks[b].current, if hold then OwnerHold else OwnerRead, Held))
  {
    var x := Actor(b, s.blocks[b].current, if hold then OwnerHold else OwnerRead, Started);
    trace, actions := Start(s);
    trace, actions := Then(trace, actions, BeginOwnerLease(id, b, hold), PutActor(s, id, x));
    trace, actions := LeaseIsTaken(trace, actions, s, id, x);
  }

  // A read handle on an imported buffer.
  lemma ImportLeaseIsGranted(s: State, p: nat, id: nat) returns (trace: seq<State>, actions: seq<Action>)
    requires IsImported(s, p) && id !in s.actors && !AcquireRefused(BlockOf(s, p).word)
    ensures IsRun(trace, actions) && trace[0] == s && actions == [BeginImportRead(id, p), Load(id), Cas(id)]
    ensures trace[3] ==
      PutActor(PutBlock(s, s.actors[p].block, BlockOf(s, p).(word := BlockOf(s, p).word + 1)), id,
        Actor(s.actors[p].block, s.actors[p].uid, ImportRead(p), Held))
  {
    var x := Actor(s.actors[p].block, s.actors[p].uid, ImportRead(p), Started);
    trace, actions := Start(s);
    trace, actions := Then(trace, actions, BeginImportRead(id, p), PutActor(s, id, x));
    trace, actions := LeaseIsTaken(trace, actions, s, id, x);
  }

  lemma LeaseIsTaken(t: seq<State>, a: seq<Action>, s: State, id: nat, x: Actor) returns (trace: seq<State>, actions: seq<Action>)
    requires IsRun(t, a) && t[|a|] == PutActor(s, id, x) && x.pc == Started && (x.role == OwnerRead || x.role == OwnerHold || x.role.ImportRead?)
    requires x.block in s.blocks && !AcquireRefused(s.blocks[x.block].word)
    ensures IsRun(trace, actions) && trace[0] == t[0] && actions == a + [Load(id), Cas(id)]
    ensures trace[|actions|] == PutActor(PutBlock(s, x.block, s.blocks[x.block].(word := s.blocks[x.block].word + 1)), id, x.(pc := Held))
  {
    var y, z := x.(pc := Loaded(s.blocks[x.block].word)), x.(pc := Held);
    var s' := PutBlock(s, x.block, s.blocks[x.block].(word := s.blocks[x.block].word + 1));
    ActorActs(s, id, x, y);
    ActorActs(s', id, y, z);
    trace, actions := Then(t, a, Load(id), PutActor(s, id, y));
    trace, actions := Then(trace, actions, Cas(id), PutActor(s', id, z));
  }
}
