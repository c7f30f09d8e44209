// When is a described payload safe from its own owner? Exactly when a write handle was acquired
// before the first descriptor: finalising leaves an `Unset` state as it is, so a buffer described
// before any writer can still be handed one.

module ProtocolImmutability {
  import opened WriteState
  import opened Bytes
  import opened Protocol
  import opened ProtocolFrames
  import opened ProtocolInvariant
  import opened ProtocolSteps
  import opened ProtocolRuns

  // Block `b` stays in one generation throughout: it is not claimed again.
  predicate StaysInGeneration(trace: seq<State>, b: nat) {
    |trace| > 0 && b in trace[0].blocks &&
    forall i | 0 <= i < |trace| ::
      b in trace[i].blocks && trace[i].blocks[b].current == trace[0].blocks[b].current && !trace[i].blocks[b].phase.Preparing()
  }

  // Whatever runs on from `s`, the payload of `b` keeps its bytes until the next claim.
  ghost predicate PayloadIsFixed(s: State, b: nat) {
    forall trace: seq<State>, actions: seq<Action> :: IsRun(trace, actions) && trace[0] == s && StaysInGeneration(trace, b) ==>
      trace[|trace| - 1].blocks[b].payload == s.blocks[b].payload
  }

  lemma DescribedPayloadIsFixedIffWriterCameFirst(s: State, id: nat, b: nat)
    requires Inv(s) && Enabled(s, BeginDescribe(id, b))
    ensures PayloadIsFixed(Effect(s, BeginDescribe(id, b)), b) <==> s.blocks[b].phase.writing != Unset
  {
    var t := Effect(s, BeginDescribe(id, b));
    if s.blocks[b].phase.writing != Unset {
      forall trace: seq<State>, actions: seq<Action> | IsRun(trace, actions) && trace[0] == t && StaysInGeneration(trace, b)
        ensures trace[|trace| - 1].blocks[b].payload == t.blocks[b].payload
      {
        FinalisedStays(trace, actions, b, |trace| - 1);
      }
    } else {
      BeginDescribeKeepsInv(s, id, b);
      var trace, actions := OverwriteAfterDescribing(t, b);
      assert trace[|trace| - 1].blocks[b].payload != t.blocks[b].payload;
    }
  }

  // ---- A finalised generation is never written again ----

  predicate PastWriting(k: Block) {
    !k.phase.Preparing() && (k.phase.Live? ==> k.phase.writing == Finalized)
  }

  lemma PastWritingStays(s: State, a: Action, b: nat)
    requires Enabled(s, a) && b in s.blocks && PastWriting(s.blocks[b]) && !Effect(s, a).blocks[b].phase.Preparing()
    ensures PastWriting(Effect(s, a).blocks[b]) && Effect(s, a).blocks[b].payload == s.blocks[b].payload
  {
    if PoolAction(a) {
      PoolFrame(s, a);
    } else if BeginAction(a) {
      BeginFrame(s, a);
    } else if WriteAction(a) {
      WriteFrame(s, a);
    } else if MoveAction(a) {
      MoveFrame(s, a);
    }
  }

  lemma {:induction false} FinalisedStays(trace: seq<State>, actions: seq<Action>, b: nat, i: nat)
    requires IsRun(trace, actions) && StaysInGeneration(trace, b) && PastWriting(trace[0].blocks[b]) && i < |trace|
    ensures PastWriting(trace[i].blocks[b]) && trace[i].blocks[b].payload == trace[0].blocks[b].payload
  {
    if i > 0 {
      FinalisedStays(trace, actions, b, i - 1);
      assert trace[i] == Effect(trace[i - 1], actions[i - 1]);
      assert !trace[i].blocks[b].phase.Preparing();
      PastWritingStays(trace[i - 1], actions[i - 1], b);
    }
  }

  // ---- A generation described too early can be overwritten ----

  function LocalReaders(s: State, b: nat): set<nat>
    requires b in s.blocks
  {
    set id | id in s.actors && s.actors[id].block == b && s.actors[id].role == OwnerRead && s.actors[id].uid == s.blocks[b].current
  }

  // A run from `s` that leaves block `b` unwritten, with the same payload.
  predicate KeepsUnset(s: State, trace: seq<State>, actions: seq<Action>, b: nat) {
    && IsRun(trace, actions) && trace[0] == s && StaysInGeneration(trace, b)
    && WritingIs(trace[|trace| - 1], b, Unset)
    && trace[|trace| - 1].blocks[b].payload == s.blocks[b].payload
  }

  lemma Joined(s: State, t1: seq<State>, a1: seq<Action>, t2: seq<State>, a2: seq<Action>, b: nat)
    requires KeepsUnset(s, t1, a1, b) && KeepsUnset(t1[|t1| - 1], t2, a2, b)
    ensures KeepsUnset(s, t1 + t2[1..], a1 + a2, b)
    ensures (t1 + t2[1..])[|t1 + t2[1..]| - 1] == t2[|t2| - 1]
  {
    RunsJoin(t1, a1, t2, a2);
  }

  // One more step by a thread or handle that leaves `b` unwritten.
  lemma OneStep(s: State, a: Action, b: nat) returns (trace: seq<State>, actions: seq<Action>)
    requires WritingIs(s, b, Unset) && Enabled(s, a) && WritingIs(Effect(s, a), b, Unset)
    requires Effect(s, a).blocks[b].payload == s.blocks[b].payload && Effect(s, a).blocks[b].current == s.blocks[b].current
    ensures KeepsUnset(s, trace, actions, b) && trace[|trace| - 1] == Effect(s, a)
  {
    trace, actions := [s, Effect(s, a)], [a];
  }

  lemma ReleaseMovesReader(s: State, b: nat, id: nat)
    requires WritingIs(s, b, Unset) && id in LocalReaders(s, b) && Enabled(s, Release(id))
    ensures
      var t := Effect(s, Release(id));
      t.blocks == s.blocks[b := s.blocks[b].(word := t.blocks[b].word)] && LocalReaders(t, b) == LocalReaders(s, b) - {id}
  {
  }

  // A held local read handle can be dropped.
  lemma DropHeldReader(s: State, b: nat, id: nat) returns (trace: seq<State>, actions: seq<Action>)
    requires Inv(s) && WritingIs(s, b, Unset) && id in LocalReaders(s, b) && s.actors[id].pc == Held
    ensures KeepsUnset(s, trace, actions, b) && Inv(trace[|trace| - 1])
    ensures LocalReaders(trace[|trace| - 1], b) == LocalReaders(s, b) - {id}
  {
    forall c | c in s.actors ensures !s.actors[c].InsideParent(id) {
      assert ActorFits(s.actors[c], BlockOf(s, c), s.actors);
    }
    ReleaseKeepsInv(s, id);
    ReleaseMovesReader(s, b, id);
    trace, actions := OneStep(s, Release(id), b);
  }

  // Loading the word once more puts a local reader that holds nothing on the brink of its swap.
  lemma ReloadReader(s: State, b: nat, id: nat) returns (trace: seq<State>, actions: seq<Action>)
    requires Inv(s) && WritingIs(s, b, Unset) && id in LocalReaders(s, b) && s.actors[id].pc != Held
    ensures KeepsUnset(s, trace, actions, b) && Inv(trace[|trace| - 1])
    ensures LocalReaders(trace[|trace| - 1], b) == LocalReaders(s, b)
    ensures trace[|trace| - 1].actors[id].pc == Loaded(trace[|trace| - 1].blocks[b].word)
  {
    assert ActorFits(s.actors[id], BlockOf(s, id), s.actors);
    LoadKeepsInv(s, id);
    trace, actions := OneStep(s, Load(id), b);
  }

  // With a fresh load the swap either succeeds or is refused for good.
  lemma SwapReader(s: State, b: nat, id: nat) returns (trace: seq<State>, actions: seq<Action>)
    requires Inv(s) && WritingIs(s, b, Unset) && id in LocalReaders(s, b) && s.actors[id].pc == Loaded(s.blocks[b].word)
    ensures KeepsUnset(s, trace, actions, b) && Inv(trace[|trace| - 1])
    ensures
      var t := trace[|trace| - 1];
      if id in t.actors then t.actors[id].pc == Held && LocalReaders(t, b) == LocalReaders(s, b)
      else LocalReaders(t, b) == LocalReaders(s, b) - {id}
  {
    CasKeepsInv(s, id);
    SwapMovesReader(s, b, id);
    trace, actions := OneStep(s, Cas(id), b);
  }

  lemma SwapMovesReader(s: State, b: nat, id: nat)
    requires WritingIs(s, b, Unset) && id in LocalReaders(s, b) && s.actors[id].pc == Loaded(s.blocks[b].word)
    ensures
      var t := Effect(s, Cas(id));
      && t.blocks[b] == s.blocks[b].(word := t.blocks[b].word)
      && if id in t.actors then t.actors[id].pc == Held && LocalReaders(t, b) == LocalReaders(s, b)
         else LocalReaders(t, b) == LocalReaders(s, b) - {id}
  {
  }

  // A local reader that holds nothing yet tries once more: it gets its reference or gives up.
  lemma SettleReader(s: State, b: nat, id: nat) returns (trace: seq<State>, actions: seq<Action>)
    requires Inv(s) && WritingIs(s, b, Unset) && id in LocalReaders(s, b) && s.actors[id].pc != Held
    ensures KeepsUnset(s, trace, actions, b) && Inv(trace[|trace| - 1])
    ensures
      var t := trace[|trace| - 1];
      if id in t.actors then t.actors[id].pc == Held && LocalReaders(t, b) == LocalReaders(s, b)
      else LocalReaders(t, b) == LocalReaders(s, b) - {id}
  {
    var t1, a1 := ReloadReader(s, b, id);
    var t2, a2 := SwapReader(t1[|t1| - 1], b, id);
    Joined(s, t1, a1, t2, a2, b);
    trace, actions := t1 + t2[1..], a1 + a2;
  }

  lemma RemoveReader(s: State, b: nat, id: nat) returns (trace: seq<State>, actions: seq<Action>)
    requires Inv(s) && WritingIs(s, b, Unset) && id in LocalReaders(s, b)
    ensures KeepsUnset(s, trace, actions, b) && Inv(trace[|trace| - 1])
    ensures LocalReaders(trace[|trace| - 1], b) == LocalReaders(s, b) - {id}
    ensures |LocalReaders(trace[|trace| - 1], b)| < |LocalReaders(s, b)|
  {
    assert |LocalReaders(s, b) - {id}| < |LocalReaders(s, b)|;
    if s.actors[id].pc == Held {
      trace, actions := DropHeldReader(s, b, id);
    } else {
      trace, actions := SettleReader(s, b, id);
      var t := trace[|trace| - 1];
      if id in t.actors {
        var t2, a2 := DropHeldReader(t, b, id);
        Joined(s, trace, actions, t2, a2, b);
        trace, actions := trace + t2[1..], actions + a2;
      }
    }
  }

  lemma DrainReaders(s: State, b: nat) returns (trace: seq<State>, actions: seq<Action>)
    requires Inv(s) && WritingIs(s, b, Unset)
    ensures KeepsUnset(s, trace, actions, b)
    ensures LocalReaders(trace[|trace| - 1], b) == {}
    decreases |LocalReaders(s, b)|
  {
    if LocalReaders(s, b) == {} {
      trace, actions := [s], [];
    } else {
      var id :| id in LocalReaders(s, b);
      var t1, a1 := RemoveReader(s, b, id);
      var t2, a2 := DrainReaders(t1[|t1| - 1], b);
      Joined(s, t1, a1, t2, a2, b);
      trace, actions := t1 + t2[1..], a1 + a2;
    }
  }

  // Drain the local readers, take the write handle the pool of states still grants, and write.
  lemma OverwriteAfterDescribing(s: State, b: nat) returns (trace: seq<State>, actions: seq<Action>)
    requires Inv(s) && WritingIs(s, b, Unset)
    ensures IsRun(trace, actions) && trace[0] == s && StaysInGeneration(trace, b)
    ensures trace[|trace| - 1].blocks[b].payload != s.blocks[b].payload
  {
    assert BlockFits(b, s.blocks[b], Holders(s.actors, b), s.used, s.sealed);
    var t, a := DrainReaders(s, b);
    var s1 := t[|t| - 1];
    assert NoLocalReader(s1, b) by {
      forall id | id in s1.actors
        ensures !(s1.actors[id].block == b && s1.actors[id].role == OwnerRead && s1.actors[id].uid == s1.blocks[b].current)
      {
        assert id !in LocalReaders(s1, b);
      }
    }
    var t2, a2 := WriteFirstByte(s1, b);
    RunsJoin(t, a, t2, a2);
    trace, actions := t + t2[1..], a + a2;
  }

  // The write handle is granted, and the first byte changes.
  lemma WriteFirstByte(s: State, b: nat) returns (trace: seq<State>, actions: seq<Action>)
    requires WritingIs(s, b, Unset) && NoLocalReader(s, b) && |s.blocks[b].payload| > 0
    ensures IsRun(trace, actions) && |trace| == 3 && trace[0] == s && StaysInGeneration(trace, b)
    ensures trace[2].blocks[b].payload != s.blocks[b].payload
  {
    var v: Byte := if s.blocks[b].payload[0] == 0 then 1 else 0;
    var s1 := Effect(s, GetWrite(b));
    var s2 := Effect(s1, WriteByte(b, 0, v));
    assert s2.blocks[b].payload[0] != s.blocks[b].payload[0];
    trace, actions := [s, s1, s2], [GetWrite(b), WriteByte(b, 0, v)];
  }
}
