// What publishers and importers together are supposed to be: a store in which every nonzero uid
// names one byte string, fixed for good when its write is finalised. No blocks, words or stamps.

module ByteStore {
  import opened Bytes

  // A generation being written, or not written yet, at some location.
  datatype Draft = Draft(uid: nat, bytes: seq<Byte>)

  datatype Store = Store(drafts: map<nat, Draft>, sealed: map<nat, seq<Byte>>, open: map<nat, nat>)

  const EMPTY := Store(map[], map[], map[])

  datatype Event =
    | Silent
    | Begin(at: nat, uid: nat, bytes: seq<Byte>)
    | Write(at: nat, i: nat, v: Byte)
    | Finalise(at: nat)
    | Abandon(at: nat)
    | OpenHandle(h: nat, uid: nat)
    | Read(h: nat, i: nat, v: Byte)
    | CloseHandle(h: nat)

  predicate Step(s: Store, e: Event, s': Store) {
    match e
    case Silent => s' == s
    case Begin(at, uid, bytes) =>
      at !in s.drafts && uid != 0 && uid !in s.sealed && s' == s.(drafts := s.drafts[at := Draft(uid, bytes)])
    case Write(at, i, v) =>
      at in s.drafts && i < |s.drafts[at].bytes| &&
      s' == s.(drafts := s.drafts[at := s.drafts[at].(bytes := s.drafts[at].bytes[i := v])])
    case Finalise(at) =>
      at in s.drafts && s.drafts[at].uid !in s.sealed &&
      s' == s.(drafts := s.drafts - {at}, sealed := s.sealed[s.drafts[at].uid := s.drafts[at].bytes])
    case Abandon(at) =>
      at in s.drafts && s' == s.(drafts := s.drafts - {at})
    case OpenHandle(h, uid) =>
      h !in s.open && uid in s.sealed && s' == s.(open := s.open[h := uid])
    case Read(h, i, v) =>
      h in s.open && s.open[h] in s.sealed && i < |s.sealed[s.open[h]]| && v == s.sealed[s.open[h]][i] && s' == s
    case CloseHandle(h) =>
      h in s.open && s' == s.(open := s.open - {h})
  }

  // A run of the store: what happens to it, event by event, from nothing.
  predicate IsRun(stores: seq<Store>, events: seq<Event>) {
    |stores| == |events| + 1 &&
    if events == [] then stores[0] == EMPTY
    else
      && IsRun(stores[..|events|], events[..|events| - 1])
      && Step(stores[|events| - 1], events[|events| - 1], stores[|events|])
  }

  // A byte string once sealed never changes.
  lemma SealedForGood(s: Store, e: Event, s': Store)
    requires Step(s, e, s')
    ensures forall u | u in s.sealed :: u in s'.sealed && s'.sealed[u] == s.sealed[u]
  {
  }

  // So over a run each uid comes to name one byte string at most, and keeps it.
  lemma {:induction false} SealedOverRuns(stores: seq<Store>, events: seq<Event>, i: nat, u: nat)
    requires IsRun(stores, events) && i < |stores| && u in stores[i].sealed
    ensures u in stores[|events|].sealed && stores[|events|].sealed[u] == stores[i].sealed[u]
    decreases |events|
  {
    if i < |events| {
      SealedOverRuns(stores[..|events|], events[..|events| - 1], i, u);
      SealedForGood(stores[|events| - 1], events[|events| - 1], stores[|events|]);
    }
  }
}
