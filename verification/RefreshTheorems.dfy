/** Refreshing queue entries: which ones change, to what, and in what order it may be done
    (packages/db/src/repository.ts:344-364, 577-592). */
module RefreshTheorems {
  import opened Sequences
  import opened Domain
  import opened Keyed
  import opened Queue
  import opened Stores

  lemma ReplaceMembers<T(!new)>(b: Backend, key: T -> Key, s: seq<T>, x: T)
    requires UniqueKeys(key, s) && Lookup(key, key(x), s).Some?
    ensures UniqueKeys(key, Replace(b, key, s, x))
    ensures forall y :: y in Replace(b, key, s, x) <==> y == x || (y in s && key(y) != key(x))
  {
    match b
    case InMemory => PutMembers(key, s, x);
    case Postgres => RewriteMembers(key, s, x);
  }

  // ----- refreshing the live entries of a lease -----

  /** The queue after refreshing the entries with the given ids: those entries carry the recomputed fields
      of their lease, all others are as they were. */
  function Refreshed(b: Backend, env: Env, s: Snapshot, ids: set<Id>, now: Millis): QueueEntry -> QueueEntry {
    (e: QueueEntry) =>
      if e.id in ids then e.(fields := Fields(b, env, s, e.branchLeaseId), updatedAt := now) else e
  }

  function Ids(ids: seq<Id>): set<Id> {
    set i | i in ids
  }

  ghost predicate IsImage<A(!new), B(!new)>(f: A -> B, from: seq<A>, to: seq<B>) {
    && (forall x :: x in from ==> f(x) in to)
    && (forall y :: y in to ==> exists x :: x in from && y == f(x))
  }

  ghost predicate RefreshedTo(b: Backend, env: Env, s: Snapshot, ids: set<Id>, now: Millis, r: Snapshot) {
    && r == s.(queue := r.queue)
    && UniqueKeys(QueueKey(), r.queue)
    && IsImage(Refreshed(b, env, s, ids, now), s.queue, r.queue)
  }

  lemma RefreshOne(b: Backend, env: Env, s: Snapshot, id: Id, now: Millis)
    requires UniqueKeys(QueueKey(), s.queue) && Lookup(QueueKey(), id, s.queue).Some?
    ensures RefreshedTo(b, env, s, {id}, now, RefreshEntry(b, env, s, id, now).state)
  {
    var entry := Lookup(QueueKey(), id, s.queue).value;
    LookupFresh(QueueKey(), id, s.queue);
    var patched := PatchEntry(entry, Refresh(Fields(b, env, s, entry.branchLeaseId)), now);
    ReplaceMembers(b, QueueKey(), s.queue, patched);
    ReplacedIsImage(QueueKey(), Refreshed(b, env, s, {id}, now), s.queue, RefreshEntry(b, env, s, id, now).state.queue, entry, patched);
  }

  /** Replacing one record, and nothing else, is applying a function that changes only that record. */
  lemma ReplacedIsImage<T(!new)>(key: T -> Key, f: T -> T, before: seq<T>, after: seq<T>, x: T, patched: T)
    requires UniqueKeys(key, before) && x in before && key(patched) == key(x) && f(x) == patched
    requires forall e :: e in before && key(e) != key(x) ==> f(e) == e
    requires forall y :: y in after <==> y == patched || (y in before && key(y) != key(patched))
    ensures IsImage(f, before, after)
  {
    forall e | e in before
      ensures f(e) in after
    {
      LookupIs(key, before, e);
      LookupIs(key, before, x);
    }
    forall y | y in after
      ensures exists e :: e in before && y == f(e)
    {
      assert y == if y == patched then f(x) else f(y);
    }
  }

  lemma ImageOfImage<A(!new), B(!new), C(!new)>(f: A -> B, g: B -> C, h: A -> C, x: seq<A>, y: seq<B>, z: seq<C>)
    requires IsImage(f, x, y) && IsImage(g, y, z)
    requires forall e :: e in x ==> h(e) == g(f(e))
    ensures IsImage(h, x, z)
  {
  }

  lemma FieldsFrame(b: Backend, env: Env, s: Snapshot, t: Snapshot, lease: Id)
    requires s.leases == t.leases && s.simulations == t.simulations
    ensures Fields(b, env, s, lease) == Fields(b, env, t, lease)
  {
  }

  lemma RefreshedTwice(b: Backend, env: Env, s: Snapshot, t: Snapshot, id: Id, rest: set<Id>, now: Millis, e: QueueEntry)
    requires s.leases == t.leases && s.simulations == t.simulations
    ensures Refreshed(b, env, s, {id} + rest, now)(e) == Refreshed(b, env, t, rest, now)(Refreshed(b, env, s, {id}, now)(e))
  {
    FieldsFrame(b, env, s, t, e.branchLeaseId);
  }

  ghost predicate AllKnown(ids: seq<Id>, queue: seq<QueueEntry>) {
    forall i :: i in ids ==> Lookup(QueueKey(), i, queue).Some?
  }

  lemma KeptIds(f: QueueEntry -> QueueEntry, before: seq<QueueEntry>, after: seq<QueueEntry>, id: Id)
    requires IsImage(f, before, after) && (forall e :: e in before ==> f(e).id == e.id)
    requires Lookup(QueueKey(), id, before).Some?
    ensures Lookup(QueueKey(), id, after).Some?
  {
    LookupFresh(QueueKey(), id, before);
    LookupFresh(QueueKey(), id, after);
  }

  lemma StillKnown(b: Backend, env: Env, s: Snapshot, t: Snapshot, done: set<Id>, now: Millis, ids: seq<Id>)
    requires RefreshedTo(b, env, s, done, now, t) && AllKnown(ids, s.queue)
    ensures AllKnown(ids, t.queue)
  {
    forall i | i in ids
      ensures Lookup(QueueKey(), i, t.queue).Some?
    {
      KeptIds(Refreshed(b, env, s, done, now), s.queue, t.queue, i);
    }
  }

  lemma IdsCons(ids: seq<Id>)
    requires ids != []
    ensures Ids(ids) == {ids[0]} + Ids(ids[1..])
  {
    assert ids == [ids[0]] + ids[1..];
  }

  lemma KnownCons(ids: seq<Id>, queue: seq<QueueEntry>)
    requires ids != [] && AllKnown(ids, queue)
    ensures Lookup(QueueKey(), ids[0], queue).Some? && AllKnown(ids[1..], queue)
  {
    assert ids[0] in ids && forall i :: i in ids[1..] ==> i in ids;
  }

  lemma RefreshNone(b: Backend, env: Env, s: Snapshot, now: Millis)
    requires UniqueKeys(QueueKey(), s.queue)
    ensures RefreshedTo(b, env, s, {}, now, s)
  {
    assert forall x :: x in s.queue ==> Refreshed(b, env, s, {}, now)(x) == x;
  }

  lemma RefreshCompose(b: Backend, env: Env, s: Snapshot, t: Snapshot, r: Snapshot, id: Id, rest: set<Id>, now: Millis)
    requires RefreshedTo(b, env, s, {id}, now, t) && RefreshedTo(b, env, t, rest, now, r)
    ensures RefreshedTo(b, env, s, {id} + rest, now, r)
  {
    var f, g := Refreshed(b, env, s, {id}, now), Refreshed(b, env, t, rest, now);
    var h := Refreshed(b, env, s, {id} + rest, now);
    forall e | e in s.queue
      ensures h(e) == g(f(e))
    {
      RefreshedTwice(b, env, s, t, id, rest, now, e);
    }
    ImageOfImage(f, g, h, s.queue, t.queue, r.queue);
  }

  lemma {:induction false} RefreshAllIsImage(b: Backend, env: Env, s: Snapshot, ids: seq<Id>, now: Millis)
    requires UniqueKeys(QueueKey(), s.queue)
    requires AllKnown(ids, s.queue)
    ensures RefreshedTo(b, env, s, Ids(ids), now, RefreshAll(b, env, s, ids, now))
    decreases |ids|
  {
    if ids == [] {
      assert Ids(ids) == {};
      RefreshNone(b, env, s, now);
    } else {
      var id, rest := ids[0], ids[1..];
      KnownCons(ids, s.queue);
      RefreshOne(b, env, s, id, now);
      var t := RefreshEntry(b, env, s, id, now).state;
      StillKnown(b, env, s, t, {id}, now, rest);
      RefreshAllIsImage(b, env, t, rest, now);
      IdsCons(ids);
      RefreshCompose(b, env, s, t, RefreshAll(b, env, t, rest, now), id, Ids(rest), now);
    }
  }

  // ----- all live entries of one lease -----

  /** A live entry of the lease gets the lease's recomputed fields; any other entry stays. */
  function RefreshedLease(b: Backend, env: Env, s: Snapshot, lease: Id, now: Millis): QueueEntry -> QueueEntry {
    (e: QueueEntry) =>
      if e.branchLeaseId == lease && e.fields.status != Merged && e.fields.status != Cancelled
      then e.(fields := Fields(b, env, s, lease), updatedAt := now) else e
  }

  lemma RefreshIdsAre(b: Backend, env: Env, s: Snapshot, lease: Id)
    requires UniqueKeys(QueueKey(), s.queue)
    ensures forall e :: e in s.queue ==> (e.id in Ids(RefreshIds(b, env, s, lease)) <==> LiveOf(lease)(e))
    ensures AllKnown(RefreshIds(b, env, s, lease), s.queue)
  {
    var listed := if b == InMemory then s.queue else QueueList(b, env, s);
    SortMembers(env.QueueRows(), s.queue);
    FilterMembers(LiveOf(lease), listed);
    var live, ids := Filter(LiveOf(lease), listed), RefreshIds(b, env, s, lease);
    forall i | i in ids
      ensures exists e :: e in s.queue && LiveOf(lease)(e) && e.id == i
    {
      var k :| 0 <= k < |ids| && ids[k] == i;
      assert live[k] in live;
    }
    forall e | e in s.queue
      ensures e.id in ids <==> LiveOf(lease)(e)
    {
      LookupIs(QueueKey(), s.queue, e);
      if LiveOf(lease)(e) {
        var k :| 0 <= k < |live| && live[k] == e;
        assert ids[k] == e.id;
      } else if e.id in ids {
        var d :| d in s.queue && LiveOf(lease)(d) && d.id == e.id;
        LookupIs(QueueKey(), s.queue, d);
      }
    }
    forall i | i in ids
      ensures Lookup(QueueKey(), i, s.queue).Some?
    {
      LookupFresh(QueueKey(), i, s.queue);
    }
  }

  lemma RefreshedLeaseIs(b: Backend, env: Env, s: Snapshot, lease: Id, ids: set<Id>, now: Millis)
    requires forall e :: e in s.queue ==> (e.id in ids <==> LiveOf(lease)(e))
    ensures forall e :: e in s.queue ==> Refreshed(b, env, s, ids, now)(e) == RefreshedLease(b, env, s, lease, now)(e)
  {
  }

  lemma ImageCongruent<A(!new), B(!new)>(f: A -> B, g: A -> B, x: seq<A>, y: seq<B>)
    requires IsImage(f, x, y) && forall e :: e in x ==> f(e) == g(e)
    ensures IsImage(g, x, y)
  {
  }

  /** For both stores: exactly the live entries of the lease change, each to the recomputed fields. */
  lemma RefreshLeaseIsExact(b: Backend, env: Env, s: Snapshot, lease: Id, now: Millis)
    requires UniqueKeys(QueueKey(), s.queue)
    ensures var r := RefreshLease(b, env, s, lease, now);
            && r == s.(queue := r.queue)
            && UniqueKeys(QueueKey(), r.queue)
            && IsImage(RefreshedLease(b, env, s, lease, now), s.queue, r.queue)
  {
    var ids := RefreshIds(b, env, s, lease);
    RefreshIdsAre(b, env, s, lease);
    RefreshAllIsImage(b, env, s, ids, now);
    RefreshedLeaseIs(b, env, s, lease, Ids(ids), now);
    var r := RefreshLease(b, env, s, lease, now);
    ImageCongruent(Refreshed(b, env, s, Ids(ids), now), RefreshedLease(b, env, s, lease, now), s.queue, r.queue);
  }

  // ----- what a refresh returns -----

  function RefreshedEntry(b: Backend, env: Env, s: Snapshot, now: Millis): QueueEntry -> QueueEntry {
    (e: QueueEntry) => e.(fields := Fields(b, env, s, e.branchLeaseId), updatedAt := now)
  }

  lemma RefreshOneReturns(b: Backend, env: Env, s: Snapshot, e: QueueEntry, now: Millis)
    requires UniqueKeys(QueueKey(), s.queue) && e in s.queue
    ensures var r := RefreshEntry(b, env, s, e.id, now);
            && r.result == Ok(RefreshedEntry(b, env, s, now)(e))
            && r.state == s.(queue := r.state.queue) && UniqueKeys(QueueKey(), r.state.queue)
            && forall y :: y in s.queue && y.id != e.id ==> y in r.state.queue
  {
    LookupIs(QueueKey(), s.queue, e);
    ReplaceMembers(b, QueueKey(), s.queue, RefreshedEntry(b, env, s, now)(e));
  }

  lemma RestStored(entries: seq<QueueEntry>, e: QueueEntry, before: seq<QueueEntry>, after: seq<QueueEntry>)
    requires UniqueKeys(QueueKey(), [e] + entries) && forall y :: y in entries ==> y in before
    requires forall y :: y in before && y.id != e.id ==> y in after
    ensures UniqueKeys(QueueKey(), entries) && forall y :: y in entries ==> y in after
  {
    forall y | y in entries
      ensures y in after
    {
      var k :| 0 <= k < |entries| && entries[k] == y;
      assert ([e] + entries)[0] == e && ([e] + entries)[k + 1] == y;
    }
    assert forall k :: 0 <= k < |entries| ==> ([e] + entries)[k + 1] == entries[k];
  }

  lemma IdsOf(e: QueueEntry, rest: seq<QueueEntry>)
    ensures Map(QueueKey(), [e] + rest) == [e.id] + Map(QueueKey(), rest)
  {
    assert ([e] + rest)[1..] == rest;
  }

  lemma RefreshResultsCons(b: Backend, env: Env, s: Snapshot, id: Id, rest: seq<Id>, now: Millis)
    ensures var r := RefreshEntry(b, env, s, id, now);
            RefreshResults(b, env, s, [id] + rest, now)
              == (if r.result.Ok? then [r.result.value] else []) + RefreshResults(b, env, r.state, rest, now)
  {
    assert ([id] + rest)[1..] == rest;
  }

  lemma {:induction false} RefreshesReturn(b: Backend, env: Env, s: Snapshot, entries: seq<QueueEntry>, now: Millis)
    requires UniqueKeys(QueueKey(), s.queue) && UniqueKeys(QueueKey(), entries)
    requires forall e :: e in entries ==> e in s.queue
    ensures RefreshResults(b, env, s, Map(QueueKey(), entries), now) == Map(RefreshedEntry(b, env, s, now), entries)
    decreases |entries|
  {
    if entries != [] {
      var e, rest := entries[0], entries[1..];
      assert entries == [e] + rest && e in entries;
      RefreshOneReturns(b, env, s, e, now);
      var t := RefreshEntry(b, env, s, e.id, now).state;
      RestStored(rest, e, s.queue, t.queue);
      RefreshesReturn(b, env, t, rest, now);
      RefreshedEntryFramed(b, env, s, t, now, rest);
      IdsOf(e, rest);
      RefreshResultsCons(b, env, s, e.id, Map(QueueKey(), rest), now);
    }
  }

  lemma RefreshedEntryFramed(b: Backend, env: Env, s: Snapshot, t: Snapshot, now: Millis, entries: seq<QueueEntry>)
    requires s.leases == t.leases && s.simulations == t.simulations
    ensures Map(RefreshedEntry(b, env, s, now), entries) == Map(RefreshedEntry(b, env, t, now), entries)
  {
    forall e | e in entries
      ensures RefreshedEntry(b, env, s, now)(e) == RefreshedEntry(b, env, t, now)(e)
    {
      FieldsFrame(b, env, s, t, e.branchLeaseId);
    }
    MapCongruent(RefreshedEntry(b, env, s, now), RefreshedEntry(b, env, t, now), entries);
  }

  /** The live entries of the lease as the store lists them. */
  function LiveEntries(b: Backend, env: Env, s: Snapshot, lease: Id): seq<QueueEntry> {
    Filter(LiveOf(lease), if b == InMemory then s.queue else QueueList(b, env, s))
  }

  lemma LiveEntriesAre(b: Backend, env: Env, s: Snapshot, lease: Id)
    requires UniqueKeys(QueueKey(), s.queue)
    ensures UniqueKeys(QueueKey(), LiveEntries(b, env, s, lease))
    ensures forall e :: e in LiveEntries(b, env, s, lease) <==> e in s.queue && LiveOf(lease)(e)
  {
    var listed := if b == InMemory then s.queue else QueueList(b, env, s);
    SortMembers(env.QueueRows(), s.queue);
    QueueListUnique(env, s.queue);
    FilterMembers(LiveOf(lease), listed);
    FilterUnique(QueueKey(), LiveOf(lease), listed);
  }

  lemma QueueListUnique(env: Env, queue: seq<QueueEntry>)
    requires UniqueKeys(QueueKey(), queue)
    ensures UniqueKeys(QueueKey(), Sort(env.QueueRows(), queue))
  {
    var r := Sort(env.QueueRows(), queue);
    RowOrdersTotal(env);
    UniqueKeysNoDup(QueueKey(), queue);
    SortNoDup(env.QueueRows(), queue);
    SortMembers(env.QueueRows(), queue);
    forall i, j | 0 <= i < j < |r|
      ensures r[i].id != r[j].id
    {
      assert r[i] in queue && r[j] in queue;
      LookupIs(QueueKey(), queue, r[i]);
      LookupIs(QueueKey(), queue, r[j]);
    }
  }

  /** A refresh returns the live entries of the lease, refreshed, in the order the store lists them. */
  lemma RefreshReturnsRefreshed(b: Backend, env: Env, s: Snapshot, lease: Id, now: Millis)
    requires UniqueKeys(QueueKey(), s.queue)
    ensures RefreshResults(b, env, s, RefreshIds(b, env, s, lease), now)
         == Map(RefreshedLease(b, env, s, lease, now), LiveEntries(b, env, s, lease))
  {
    var live := LiveEntries(b, env, s, lease);
    LiveEntriesAre(b, env, s, lease);
    RefreshesReturn(b, env, s, live, now);
    MapCongruent(RefreshedEntry(b, env, s, now), RefreshedLease(b, env, s, lease, now), live);
  }

  // ----- places -----

  ghost predicate SamePlaces(before: seq<QueueEntry>, after: seq<QueueEntry>) {
    && |after| == |before|
    && forall i :: 0 <= i < |before| ==> after[i].id == before[i].id
  }

  lemma RefreshOneKeepsPlaces(env: Env, s: Snapshot, id: Id, now: Millis)
    requires UniqueKeys(QueueKey(), s.queue) && Lookup(QueueKey(), id, s.queue).Some?
    ensures SamePlaces(s.queue, RefreshEntry(InMemory, env, s, id, now).state.queue)
  {
    var entry := Lookup(QueueKey(), id, s.queue).value;
    LookupFresh(QueueKey(), id, s.queue);
    PutMembers(QueueKey(), s.queue, PatchEntry(entry, Refresh(Fields(InMemory, env, s, entry.branchLeaseId)), now));
  }

  lemma {:induction false} RefreshKeepsPlaces(env: Env, s: Snapshot, ids: seq<Id>, now: Millis)
    requires UniqueKeys(QueueKey(), s.queue)
    requires AllKnown(ids, s.queue)
    ensures SamePlaces(s.queue, RefreshAll(InMemory, env, s, ids, now).queue)
    decreases |ids|
  {
    if ids != [] {
      var id, rest := ids[0], ids[1..];
      KnownCons(ids, s.queue);
      RefreshOne(InMemory, env, s, id, now);
      RefreshOneKeepsPlaces(env, s, id, now);
      var t := RefreshEntry(InMemory, env, s, id, now).state;
      StillKnown(InMemory, env, s, t, {id}, now, rest);
      RefreshKeepsPlaces(env, t, rest, now);
    }
  }

  /** An image that keeps every id in its place is the pointwise image. */
  lemma ImageInPlace(f: QueueEntry -> QueueEntry, before: seq<QueueEntry>, after: seq<QueueEntry>)
    requires UniqueKeys(QueueKey(), before) && SamePlaces(before, after) && IsImage(f, before, after)
    requires forall e :: e in before ==> f(e).id == e.id
    ensures after == Map(f, before)
  {
    forall i | 0 <= i < |before|
      ensures after[i] == f(before[i])
    {
      assert after[i] in after;
      var e :| e in before && after[i] == f(e);
      LookupIs(QueueKey(), before, e);
      LookupIs(QueueKey(), before, before[i]);
    }
  }

  /** The in-memory store refreshes in place. */
  lemma RefreshLeaseInPlace(env: Env, s: Snapshot, lease: Id, now: Millis)
    requires UniqueKeys(QueueKey(), s.queue)
    ensures RefreshLease(InMemory, env, s, lease, now)
         == s.(queue := Map(RefreshedLease(InMemory, env, s, lease, now), s.queue))
  {
    RefreshLeaseIsExact(InMemory, env, s, lease, now);
    RefreshIdsAre(InMemory, env, s, lease);
    RefreshKeepsPlaces(env, s, RefreshIds(InMemory, env, s, lease), now);
    LeaseRefreshedInPlace(env, s, lease, now, RefreshLease(InMemory, env, s, lease, now));
  }

  lemma LeaseRefreshedInPlace(env: Env, s: Snapshot, lease: Id, now: Millis, r: Snapshot)
    requires UniqueKeys(QueueKey(), s.queue) && r == s.(queue := r.queue) && SamePlaces(s.queue, r.queue)
    requires IsImage(RefreshedLease(InMemory, env, s, lease, now), s.queue, r.queue)
    ensures r == s.(queue := Map(RefreshedLease(InMemory, env, s, lease, now), s.queue))
  {
    ImageInPlace(RefreshedLease(InMemory, env, s, lease, now), s.queue, r.queue);
  }

  lemma RefreshedInPlace(env: Env, s: Snapshot, ids: set<Id>, now: Millis, r: Snapshot)
    requires UniqueKeys(QueueKey(), s.queue) && RefreshedTo(InMemory, env, s, ids, now, r) && SamePlaces(s.queue, r.queue)
    ensures r == s.(queue := Map(Refreshed(InMemory, env, s, ids, now), s.queue))
  {
    ImageInPlace(Refreshed(InMemory, env, s, ids, now), s.queue, r.queue);
  }

  lemma RefreshAllInPlace(env: Env, s: Snapshot, ids: seq<Id>, now: Millis)
    requires UniqueKeys(QueueKey(), s.queue)
    requires AllKnown(ids, s.queue)
    ensures RefreshAll(InMemory, env, s, ids, now)
         == s.(queue := Map(Refreshed(InMemory, env, s, Ids(ids), now), s.queue))
  {
    RefreshAllIsImage(InMemory, env, s, ids, now);
    RefreshKeepsPlaces(env, s, ids, now);
    RefreshedInPlace(env, s, Ids(ids), now, RefreshAll(InMemory, env, s, ids, now));
  }

  /** The order in which the entries are refreshed, and refreshing one twice, does not matter. */
  lemma RefreshOrderIrrelevant(env: Env, s: Snapshot, ids: seq<Id>, others: seq<Id>, now: Millis)
    requires UniqueKeys(QueueKey(), s.queue) && SameElements(ids, others)
    requires AllKnown(ids, s.queue)
    ensures RefreshAll(InMemory, env, s, ids, now) == RefreshAll(InMemory, env, s, others, now)
  {
    assert Ids(ids) == Ids(others);
    RefreshAllInPlace(env, s, ids, now);
    RefreshAllInPlace(env, s, others, now);
  }

  lemma SameImage(f: QueueEntry -> QueueEntry, x: seq<QueueEntry>, y: seq<QueueEntry>, z: seq<QueueEntry>)
    requires IsImage(f, x, y) && IsImage(f, x, z)
    ensures SameElements(y, z)
  {
  }

  /** In either store the records come out the same, wherever a table puts its rows. */
  lemma RefreshOrderSameRecords(b: Backend, env: Env, s: Snapshot, ids: seq<Id>, others: seq<Id>, now: Millis)
    requires UniqueKeys(QueueKey(), s.queue) && SameElements(ids, others) && AllKnown(ids, s.queue)
    ensures SameElements(RefreshAll(b, env, s, ids, now).queue, RefreshAll(b, env, s, others, now).queue)
  {
    assert Ids(ids) == Ids(others);
    assert AllKnown(others, s.queue);
    RefreshAllIsImage(b, env, s, ids, now);
    RefreshAllIsImage(b, env, s, others, now);
    SameImage(Refreshed(b, env, s, Ids(ids), now), s.queue,
              RefreshAll(b, env, s, ids, now).queue, RefreshAll(b, env, s, others, now).queue);
  }

  lemma RefreshedStaysLive(env: Env, s: Snapshot, t: Snapshot, lease: Id, now: Millis, later: Millis, e: QueueEntry)
    requires env.Valid() && s.leases == t.leases && s.simulations == t.simulations
    ensures RefreshedLease(InMemory, env, t, lease, later)(RefreshedLease(InMemory, env, s, lease, now)(e))
         == RefreshedLease(InMemory, env, s, lease, later)(e)
  {
    FieldsFrame(InMemory, env, s, t, lease);
    assert LiveOf(lease)(RefreshedLease(InMemory, env, s, lease, now)(e)) == LiveOf(lease)(e);
  }

  lemma MapMap(f: QueueEntry -> QueueEntry, g: QueueEntry -> QueueEntry, h: QueueEntry -> QueueEntry, s: seq<QueueEntry>)
    requires forall e :: e in s ==> g(f(e)) == h(e)
    ensures Map(g, Map(f, s)) == Map(h, s)
  {
  }

  /** Refreshing twice is refreshing once, at the later time: a refreshed entry is still live. */
  lemma RefreshTwice(env: Env, s: Snapshot, lease: Id, now: Millis, later: Millis)
    requires env.Valid() && UniqueKeys(QueueKey(), s.queue)
    ensures RefreshLease(InMemory, env, RefreshLease(InMemory, env, s, lease, now), lease, later)
         == RefreshLease(InMemory, env, s, lease, later)
  {
    var t := RefreshLease(InMemory, env, s, lease, now);
    RefreshLeaseIsExact(InMemory, env, s, lease, now);
    RefreshLeaseInPlace(env, s, lease, now);
    RefreshLeaseInPlace(env, s, lease, later);
    RefreshLeaseInPlace(env, t, lease, later);
    var f, g := RefreshedLease(InMemory, env, s, lease, now), RefreshedLease(InMemory, env, t, lease, later);
    var h := RefreshedLease(InMemory, env, s, lease, later);
    forall e | e in s.queue
      ensures g(f(e)) == h(e)
    {
      RefreshedStaysLive(env, s, t, lease, now, later, e);
    }
    MapMap(f, g, h, s.queue);
  }
}
