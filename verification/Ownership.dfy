// Programs over buffers together with the pool their blocks come from: a buffer's deleter frees the
// block its buffer was made of, and nothing else frees a block.

module Ownership {
  import opened Outcome
  import opened HandleSpec
  import opened HandleRuns
  import opened HandleTickets
  import PoolSpec

  // `origins` says which allocation a deleter's ticket stands for, and `freedBy` which ticket a free
  // was made for; both index the pool's operations so far.
  datatype Joint<!B> = Joint(
    world: World,
    ops: seq<PoolSpec.Op<B>>,
    origins: map<nat, nat>,
    freedBy: map<nat, nat>)

  datatype Move<!B> =
    | Plain(op: Op)
    | FromPool(op: Op, n: nat, tried: seq<bool>, b: B)

  // What an operation adds to the record of releases.
  function Effects(w: World, op: Op): seq<Effect>
    requires Allowed(w, op)
  {
    LogGrows(w, op);
    Next(w, op).log[|w.log|..]
  }

  lemma LogGrows(w: World, op: Op)
    requires Allowed(w, op)
    ensures |w.log| <= |Next(w, op).log| && Next(w, op).log[..|w.log|] == w.log
  {
  }

  // A deleter that stands for an allocation frees its block.
  function Ran<B>(j: Joint<B>, e: Effect): Joint<B> {
    if e.DeleterRan? && e.deleter.ticket in j.origins && j.origins[e.deleter.ticket] < |j.ops| then
      j.(ops := j.ops + [PoolSpec.Free(j.ops[j.origins[e.deleter.ticket]].b)], freedBy := j.freedBy[|j.ops| := e.deleter.ticket])
    else j
  }

  function RanAll<B>(j: Joint<B>, effects: seq<Effect>): Joint<B> {
    if effects == [] then j else Ran(RanAll(j, effects[..|effects| - 1]), effects[|effects| - 1])
  }

  // A buffer over a pool block is made right after the allocation of its block.
  predicate MoveAllowed<B>(j: Joint<B>, move: Move<B>) {
    Allowed(j.world, move.op) && (move.FromPool? ==> move.op.NewBuffer? && move.op.mapping.None?)
  }

  function NextJoint<B>(j: Joint<B>, move: Move<B>): Joint<B>
    requires MoveAllowed(j, move)
  {
    var ran := RanAll(j, Effects(j.world, move.op)).(world := Next(j.world, move.op));
    match move
    case Plain(_) => ran
    case FromPool(op, n, tried, b) =>
      ran.(ops := ran.ops + [PoolSpec.Allocate(n, tried, b)], origins := ran.origins[op.ticket := |ran.ops|])
  }

  ghost predicate IsJointRun<B>(joints: seq<Joint<B>>, moves: seq<Move<B>>) {
    && |joints| == |moves| + 1 && joints[0] == Joint(NOTHING, [], map[], map[])
    && forall i | 0 <= i < |moves| :: MoveAllowed(joints[i], moves[i]) && joints[i + 1] == NextJoint(joints[i], moves[i])
  }

  // ---- Frees and allocations are paired ----

  predicate AllocationFits<B>(ops: seq<PoolSpec.Op<B>>, i: nat) {
    i < |ops| && ops[i].Allocate?
  }

  // Free number `k` was made for a ticket that has been redeemed.
  ghost predicate FreeFits<B>(j: Joint<B>, k: nat, log: seq<Effect>) {
    && k < |j.ops| && j.ops[k].Free? && k in j.freedBy && j.freedBy[k] in j.origins
    && j.origins[j.freedBy[k]] < k && j.ops[j.origins[j.freedBy[k]]].b == j.ops[k].b
    && Redeemed(log, j.freedBy[k]) > 0
  }

  predicate Injective(f: map<nat, nat>) {
    forall x, y | x in f && y in f && f[x] == f[y] :: x == y
  }

  ghost predicate Paired<B>(j: Joint<B>, log: seq<Effect>) {
    && (forall t | t in j.origins :: AllocationFits(j.ops, j.origins[t]))
    && Injective(j.origins) && Injective(j.freedBy)
    && (forall k | k in j.freedBy :: FreeFits(j, k, log))
    && (forall k | 0 <= k < |j.ops| && j.ops[k].Free? :: k in j.freedBy)
    && (forall i | 0 <= i < |j.ops| && j.ops[i].Allocate? :: exists t :: t in j.origins && j.origins[t] == i)
  }

  function Releases<B>(j: Joint<B>): map<nat, nat> {
    map k | k in j.freedBy && j.freedBy[k] in j.origins :: j.origins[j.freedBy[k]]
  }

  lemma PairedPairs<B>(j: Joint<B>, log: seq<Effect>)
    requires Paired(j, log)
    ensures PoolSpec.PairsReleases(j.ops, Releases(j))
  {
    forall k | 0 <= k < |j.ops| && j.ops[k].Free?
      ensures k in Releases(j) && Releases(j)[k] < k && j.ops[Releases(j)[k]].Allocate? && j.ops[Releases(j)[k]].b == j.ops[k].b
    {
      assert FreeFits(j, k, log);
      assert AllocationFits(j.ops, j.origins[j.freedBy[k]]);
    }
  }

  lemma RedeemedMore(log: seq<Effect>, e: Effect, t: nat)
    ensures Redeemed(log + [e], t) == Redeemed(log, t) + if Drops(e, t) then 1 else 0
  {
    assert (log + [e])[..|log|] == log;
  }

  lemma FreedOnce<B>(j: Joint<B>, log: seq<Effect>, e: Effect)
    requires Paired(j, log) && forall t: nat :: Redeemed(log + [e], t) <= 1
    ensures Injective(Ran(j, e).freedBy)
  {
    if Ran(j, e) != j {
      var t := e.deleter.ticket;
      RedeemedMore(log, e, t);
      forall k | k in j.freedBy ensures j.freedBy[k] != t && k < |j.ops| {
        assert FreeFits(j, k, log);
      }
    }
  }

  lemma RanPairs<B>(j: Joint<B>, log: seq<Effect>, e: Effect)
    requires Paired(j, log) && forall t: nat :: Redeemed(log + [e], t) <= 1
    ensures Paired(Ran(j, e), log + [e])
  {
    var j' := Ran(j, e);
    forall k | k in j'.freedBy ensures FreeFits(j', k, log + [e]) {
      RedeemedMore(log, e, j'.freedBy[k]);
      assert k in j.freedBy ==> FreeFits(j, k, log);
    }
    FreedOnce(j, log, e);
    forall t | t in j'.origins ensures AllocationFits(j'.ops, j'.origins[t]) {
      assert AllocationFits(j.ops, j.origins[t]);
    }
  }

  lemma {:induction false} RanAllPairs<B>(j: Joint<B>, log: seq<Effect>, effects: seq<Effect>)
    requires Paired(j, log) && forall t: nat :: Redeemed(log + effects, t) <= 1
    ensures Paired(RanAll(j, effects), log + effects)
    ensures RanAll(j, effects).origins == j.origins
  {
    if effects == [] {
      assert log + effects == log;
    } else {
      var before, e := effects[..|effects| - 1], effects[|effects| - 1];
      assert log + effects == (log + before) + [e];
      forall t: nat ensures Redeemed(log + before, t) <= 1 {
        RedeemedMore(log + before, e, t);
      }
      RanAllPairs(j, log, before);
      RanPairs(RanAll(j, before), log + before, e);
    }
  }

  // Every ticket that stands for an allocation was issued.
  predicate Issued<B>(j: Joint<B>) {
    forall t | t in j.origins :: t in j.world.places
  }

  ghost predicate JointFits<B>(j: Joint<B>) {
    Kept(j.world) && Issued(j) && Paired(j, j.world.log)
  }

  lemma PlacesGrow(w: World, op: Op)
    requires Allowed(w, op)
    ensures w.places.Keys <= Next(w, op).places.Keys
    ensures op.NewBuffer? ==> op.ticket in Next(w, op).places
  {
  }

  lemma AllocationPairs<B>(j: Joint<B>, log: seq<Effect>, ticket: nat, n: nat, tried: seq<bool>, b: B)
    requires Paired(j, log) && ticket !in j.origins
    ensures Paired(j.(ops := j.ops + [PoolSpec.Allocate(n, tried, b)], origins := j.origins[ticket := |j.ops|]), log)
  {
    var j' := j.(ops := j.ops + [PoolSpec.Allocate(n, tried, b)], origins := j.origins[ticket := |j.ops|]);
    forall k | k in j'.freedBy ensures FreeFits(j', k, log) {
      assert FreeFits(j, k, log);
    }
    forall t | t in j'.origins ensures AllocationFits(j'.ops, j'.origins[t]) {
      assert t != ticket ==> AllocationFits(j.ops, j.origins[t]);
    }
    forall i | 0 <= i < |j'.ops| && j'.ops[i].Allocate? ensures exists t :: t in j'.origins && j'.origins[t] == i {
      if i < |j.ops| {
        var t :| t in j.origins && j.origins[t] == i;
        assert j'.origins[t] == i;
      } else {
        assert j'.origins[ticket] == i;
      }
    }
  }

  lemma MoveFits<B>(j: Joint<B>, move: Move<B>)
    requires JointFits(j) && MoveAllowed(j, move)
    ensures JointFits(NextJoint(j, move))
  {
    var w, w', effects := j.world, Next(j.world, move.op), Effects(j.world, move.op);
    OpKeeps(w, move.op);
    LogGrows(w, move.op);
    PlacesGrow(w, move.op);
    assert w'.log == w.log + effects;
    RanAllPairs(j, w.log, effects);
    var ran := RanAll(j, effects).(world := w');
    PairedIgnoresWorld(RanAll(j, effects), w', w'.log);
    if move.FromPool? {
      AllocationPairs(ran, w'.log, move.op.ticket, move.n, move.tried, move.b);
    }
  }

  lemma PairedIgnoresWorld<B>(j: Joint<B>, w: World, log: seq<Effect>)
    requires Paired(j, log)
    ensures Paired(j.(world := w), log)
  {
    forall k | k in j.freedBy ensures FreeFits(j.(world := w), k, log) {
      assert FreeFits(j, k, log);
    }
  }

  lemma {:induction false} JointRunFits<B>(joints: seq<Joint<B>>, moves: seq<Move<B>>, i: nat)
    requires IsJointRun(joints, moves) && i < |joints|
    ensures JointFits(joints[i])
  {
    if i > 0 {
      JointRunFits(joints, moves, i - 1);
      MoveFits(joints[i - 1], moves[i - 1]);
    }
  }

  // ---- What follows for blocks ----

  // In every program, each free ends the allocation its buffer was made of, which nothing has touched
  // since: no late free ever hits a block another buffer already owns.
  lemma NoLateFree<B>(joints: seq<Joint<B>>, moves: seq<Move<B>>, i: nat, states: seq<PoolSpec.Pool<B>>, k: nat)
    requires IsJointRun(joints, moves) && i < |joints| && PoolSpec.IsRun(states, joints[i].ops)
    requires k < |joints[i].ops| && joints[i].ops[k].Free?
    ensures
      var j := joints[i];
      && k in j.freedBy && j.freedBy[k] in j.origins
      && var from := j.origins[j.freedBy[k]];
         from < k && j.ops[from].Allocate? && j.ops[from].b == j.ops[k].b && forall m | from < m < k :: j.ops[m].b != j.ops[k].b
    ensures joints[i].ops[k].b in states[k].inUse
  {
    var j := joints[i];
    JointRunFits(joints, moves, i);
    PairedPairs(j, j.world.log);
    assert FreeFits(j, k, j.world.log);
    PoolSpec.EveryFreeEndsItsOwnAllocation(states, j.ops, Releases(j), k);
  }

  // The buffer in `slot` owes the release of a pool block: the one its ticket's allocation handed out.
  predicate OwesBlock<B>(j: Joint<B>, slot: nat) {
    && slot in j.world.buffers && Obligation(j.world.buffers[slot]).Some?
    && Obligation(j.world.buffers[slot]).value in j.origins && j.origins[Obligation(j.world.buffers[slot]).value] < |j.ops|
  }

  function OwedBlock<B>(j: Joint<B>, slot: nat): B
    requires OwesBlock(j, slot)
  {
    j.ops[j.origins[Obligation(j.world.buffers[slot]).value]].b
  }

  // The block of a live buffer is in use, and no two live buffers have the same one, whatever moves and
  // assignments brought them where they are.
  lemma LiveBuffersOwnTheirBlocks<B>(joints: seq<Joint<B>>, moves: seq<Move<B>>, i: nat, states: seq<PoolSpec.Pool<B>>, x: nat, y: nat)
    requires IsJointRun(joints, moves) && i < |joints| && PoolSpec.IsRun(states, joints[i].ops)
    requires OwesBlock(joints[i], x) && OwesBlock(joints[i], y)
    ensures OwedBlock(joints[i], x) in states[|joints[i].ops|].inUse
    ensures x != y ==> OwedBlock(joints[i], x) != OwedBlock(joints[i], y)
  {
    var j := joints[i];
    JointRunFits(joints, moves, i);
    OwnedStands(j, states, Obligation(j.world.buffers[x]).value);
    OwnedStands(j, states, Obligation(j.world.buffers[y]).value);
    if x != y && Obligation(j.world.buffers[x]) == Obligation(j.world.buffers[y]) {
      KeptInOnePlace(j.world, x, y);
    }
  }

  lemma OwnedStands<B>(j: Joint<B>, states: seq<PoolSpec.Pool<B>>, t: nat)
    requires JointFits(j) && PoolSpec.IsRun(states, j.ops) && t in j.origins && Outstanding(j.world, t)
    ensures AllocationFits(j.ops, j.origins[t]) && j.ops[j.origins[t]].b in states[|j.ops|].inUse
    ensures forall m | j.origins[t] < m < |j.ops| :: j.ops[m].b != j.ops[j.origins[t]].b
  {
    PairedPairs(j, j.world.log);
    OutstandingIsUnredeemed(j.world, t);
    forall k | k in Releases(j) ensures Releases(j)[k] != j.origins[t] {
      assert FreeFits(j, k, j.world.log);
    }
    PoolSpec.UnfreedStands(states, j.ops, Releases(j), j.origins[t]);
  }

  lemma OutstandingIsUnredeemed(w: World, t: nat)
    requires Kept(w) && t in w.places && Outstanding(w, t)
    ensures Redeemed(w.log, t) == 0
  {
    assert PlaceKept(t, w.places[t], w.buffers, w.readers);
    if slot :| slot in w.buffers && (Obligation(w.buffers[slot]) == Some(t) || TicketOf(w.buffers[slot].held) == Some(t)) {
      assert BufferKept(slot, w.buffers[slot], w.places);
    } else {
      var h :| h in w.readers && TicketOf(w.readers[h].lease) == Some(t);
      assert ReaderKept(h, w.readers[h], w.places);
    }
  }

  // ---- Every block comes back ----

  predicate DeleterTicket(w: World, t: nat) {
    t in w.places && (w.places[t].InBuffer? || w.places[t] == Gone)
  }

  // A ticket that stands for an allocation is a deleter's, and once redeemed it has freed its block.
  ghost predicate Settled<B>(j: Joint<B>, log: seq<Effect>) {
    forall t | t in j.origins && Redeemed(log, t) > 0 :: t in j.freedBy.Values
  }

  predicate DeletersOnly<B>(j: Joint<B>) {
    forall t | t in j.origins :: DeleterTicket(j.world, t)
  }

  predicate NoLeaseOf(effects: seq<Effect>, tickets: set<nat>) {
    forall i | 0 <= i < |effects| && effects[i].LeaseDropped? :: effects[i].lease.ticket !in tickets
  }

  lemma RanSettles<B>(j: Joint<B>, log: seq<Effect>, e: Effect)
    requires Paired(j, log) && Settled(j, log) && NoLeaseOf([e], j.origins.Keys)
    ensures Settled(Ran(j, e), log + [e])
  {
    var j' := Ran(j, e);
    assert NoLeaseOf([e], j.origins.Keys) && [e][0] == e;
    forall t | t in j'.origins && Redeemed(log + [e], t) > 0 ensures t in j'.freedBy.Values {
      RedeemedMore(log, e, t);
      assert AllocationFits(j.ops, j.origins[t]);
      if Redeemed(log, t) > 0 {
        var k :| k in j.freedBy && j.freedBy[k] == t;
        assert FreeFits(j, k, log);
        assert j'.freedBy[k] == t;
      } else {
        assert e.DeleterRan? && j'.freedBy[|j.ops|] == t;
      }
    }
  }

  lemma {:induction false} RanAllSettles<B>(j: Joint<B>, log: seq<Effect>, effects: seq<Effect>)
    requires Paired(j, log) && Settled(j, log) && NoLeaseOf(effects, j.origins.Keys)
    requires forall t: nat :: Redeemed(log + effects, t) <= 1
    ensures Settled(RanAll(j, effects), log + effects)
  {
    if effects == [] {
      assert log + effects == log;
    } else {
      var before, e := effects[..|effects| - 1], effects[|effects| - 1];
      assert log + effects == (log + before) + [e];
      forall t: nat ensures Redeemed(log + before, t) <= 1 {
        RedeemedMore(log + before, e, t);
      }
      RanAllSettles(j, log, before);
      RanAllPairs(j, log, before);
      RanSettles(RanAll(j, before), log + before, e);
    }
  }

  // Leases are dropped out of buffers' held leases and read handles only.
  predicate NoDeleterLeased(w: World, effects: seq<Effect>) {
    forall i | 0 <= i < |effects| && effects[i].LeaseDropped? :: !DeleterTicket(w, effects[i].lease.ticket)
  }

  lemma ResetLeases(w: World, slot: nat)
    requires Kept(w) && slot in w.buffers
    ensures NoDeleterLeased(w, ResetEffects(w.buffers[slot]))
  {
    assert BufferKept(slot, w.buffers[slot], w.places);
  }

  lemma ReleaseLeases(w: World, h: nat)
    requires Kept(w) && h in w.readers
    ensures NoDeleterLeased(w, ReleaseEffects(w.readers[h]))
  {
    assert ReaderKept(h, w.readers[h], w.places);
  }

  lemma AssignLeases(w: World, slot: nat, from: nat, leftover: bool)
    requires Kept(w) && Allowed(w, AssignBuffer(slot, from, leftover))
    ensures NoDeleterLeased(w, Effects(w, AssignBuffer(slot, from, leftover)))
  {
    ResetLeases(w, slot);
    if slot != from {
      var w' := TransferBuffer(ResetAt(w, slot), slot, from, leftover);
      assert w'.log[|w.log|..] == ResetEffects(w.buffers[slot]) + TakeMapping(CapturedBy(w'.buffers[from]));
    }
  }

  lemma LeasesAreNoDeleters(w: World, op: Op)
    requires Kept(w) && Allowed(w, op)
    ensures NoDeleterLeased(w, Effects(w, op))
  {
    match op
    case AssignBuffer(slot, from, leftover) => AssignLeases(w, slot, from, leftover);
    case DestroyBuffer(slot) =>
      ResetLeases(w, slot);
      assert Effects(w, op) == ResetEffects(w.buffers[slot]);
    case AssignRead(h, source) =>
      ReleaseLeases(w, h);
      if h != source {
        assert Effects(w, op) == ReleaseEffects(w.readers[h]);
      }
    case DestroyRead(h) =>
      ReleaseLeases(w, h);
      assert Effects(w, op) == ReleaseEffects(w.readers[h]);
    case _ => OthersDropNoLease(w, op);
  }

  lemma OthersDropNoLease(w: World, op: Op)
    requires Allowed(w, op) && !op.AssignBuffer? && !op.DestroyBuffer? && !op.AssignRead? && !op.DestroyRead?
    ensures forall i | 0 <= i < |Effects(w, op)| :: !Effects(w, op)[i].LeaseDropped?
  {
  }

  lemma TransferTickets(w: World, slot: nat, from: nat, leftover: bool, t: nat)
    requires Kept(w) && from in w.buffers && DeleterTicket(w, t)
    ensures DeleterTicket(TransferBuffer(w, slot, from, leftover), t)
  {
    assert BufferKept(from, w.buffers[from], w.places);
  }

  lemma BufferOpTickets(w: World, op: Op, t: nat)
    requires Kept(w) && Allowed(w, op) && DeleterTicket(w, t) && (op.AssignBuffer? || op.MoveBuffer?)
    ensures DeleterTicket(Next(w, op), t)
  {
    if op.MoveBuffer? {
      TransferTickets(w, op.slot, op.from, op.leftover, t);
    } else if op.slot != op.from {
      ResetKeeps(w, op.slot);
      TransferTickets(ResetAt(w, op.slot), op.slot, op.from, op.leftover, t);
    }
  }

  lemma TransferReadTickets(w: World, h: nat, source: nat, t: nat)
    requires Kept(w) && source in w.readers && DeleterTicket(w, t)
    ensures DeleterTicket(TransferRead(w, h, source), t)
  {
    assert ReaderKept(source, w.readers[source], w.places);
  }

  lemma ReadOpTickets(w: World, op: Op, t: nat)
    requires Kept(w) && Allowed(w, op) && DeleterTicket(w, t) && (op.AssignRead? || op.MoveRead?)
    ensures DeleterTicket(Next(w, op), t)
  {
    if op.MoveRead? {
      TransferReadTickets(w, op.h, op.source, t);
    } else if op.h != op.source {
      ReleaseKeeps(w, op.h);
      TransferReadTickets(ReleaseAt(w, op.h), op.h, op.source, t);
    }
  }

  lemma OtherOpTickets(w: World, op: Op, t: nat)
    requires Allowed(w, op) && DeleterTicket(w, t) && !op.AssignBuffer? && !op.MoveBuffer? && !op.AssignRead? && !op.MoveRead?
    ensures DeleterTicket(Next(w, op), t)
  {
  }

  lemma DeleterTicketsStay(w: World, op: Op, t: nat)
    requires Kept(w) && Allowed(w, op) && DeleterTicket(w, t)
    ensures DeleterTicket(Next(w, op), t)
  {
    if op.AssignBuffer? || op.MoveBuffer? {
      BufferOpTickets(w, op, t);
    } else if op.AssignRead? || op.MoveRead? {
      ReadOpTickets(w, op, t);
    } else {
      OtherOpTickets(w, op, t);
    }
  }

  lemma MoveSettles<B>(j: Joint<B>, move: Move<B>)
    requires JointFits(j) && Settled(j, j.world.log) && DeletersOnly(j) && MoveAllowed(j, move)
    ensures Settled(NextJoint(j, move), NextJoint(j, move).world.log) && DeletersOnly(NextJoint(j, move))
  {
    var w, w', effects := j.world, Next(j.world, move.op), Effects(j.world, move.op);
    OpKeeps(w, move.op);
    LogGrows(w, move.op);
    PlacesGrow(w, move.op);
    assert w'.log == w.log + effects;
    LeasesAreNoDeleters(w, move.op);
    RanAllSettles(j, w.log, effects);
    RanAllPairs(j, w.log, effects);
    forall t | t in NextJoint(j, move).origins ensures DeleterTicket(w', t) {
      if t in j.origins {
        DeleterTicketsStay(w, move.op, t);
      }
    }
  }

  lemma {:induction false} JointRunSettles<B>(joints: seq<Joint<B>>, moves: seq<Move<B>>, i: nat)
    requires IsJointRun(joints, moves) && i < |joints|
    ensures Settled(joints[i], joints[i].world.log) && DeletersOnly(joints[i])
  {
    if i > 0 {
      JointRunSettles(joints, moves, i - 1);
      JointRunFits(joints, moves, i - 1);
      MoveSettles(joints[i - 1], moves[i - 1]);
    }
  }

  // When the last buffer is gone, no block of the pool is in use any more.
  lemma EveryBlockComesBack<B>(joints: seq<Joint<B>>, moves: seq<Move<B>>, i: nat, states: seq<PoolSpec.Pool<B>>)
    requires IsJointRun(joints, moves) && i < |joints| && PoolSpec.IsRun(states, joints[i].ops)
    requires joints[i].world.buffers == map[]
    ensures states[|joints[i].ops|].inUse == {}
  {
    var j := joints[i];
    JointRunFits(joints, moves, i);
    JointRunSettles(joints, moves, i);
    forall b: B ensures b !in states[|j.ops|].inUse {
      forall m | 0 <= m < |j.ops| && j.ops[m].Allocate? && j.ops[m].b == b
        ensures exists k | m < k < |j.ops| :: j.ops[k] == PoolSpec.Free(b)
      {
        var t :| t in j.origins && j.origins[t] == m;
        var k := FreeOf(j, t);
      }
      PoolSpec.AllFreed(states, j.ops, b);
    }
  }

  // The free that a ticket without a buffer has led to.
  lemma FreeOf<B>(j: Joint<B>, t: nat) returns (k: nat)
    requires JointFits(j) && Settled(j, j.world.log) && DeletersOnly(j) && t in j.origins && j.world.buffers == map[]
    ensures j.origins[t] < k < |j.ops| && j.ops[k] == PoolSpec.Free(j.ops[j.origins[t]].b)
  {
    var w := j.world;
    assert DeleterTicket(w, t) && PlaceKept(t, w.places[t], w.buffers, w.readers);
    assert Redeemed(w.log, t) == Expected(w.places, t);
    k :| k in j.freedBy && j.freedBy[k] == t;
    assert FreeFits(j, k, w.log);
  }
}
