/** Where the two stores do differ: the order of the queue list and of the task-run risks, and the pair lookup after a
    simulation recorded against another repo, each with the exact condition for agreement. */
module Listings {
  import opened Sequences
  import opened Domain
  import opened Keyed
  import opened ConflictRisks
  import opened ConflictScoring
  import opened LatestSimulation
  import opened Queue
  import opened Stores
  import opened RefreshTheorems
  import opened Agreement

  // ----- a stable sort against a sort with a tie-breaker -----

  /** fine orders as le does and decides le's ties. */
  ghost predicate Refines<T(!new)>(le: (T, T) -> bool, fine: (T, T) -> bool) {
    forall a, b :: (fine(a, b) ==> le(a, b)) && (le(a, b) && !le(b, a) ==> fine(a, b))
  }

  /** Elements that le ties stand in fine's order. */
  ghost predicate TiesInOrder<T>(le: (T, T) -> bool, fine: (T, T) -> bool, s: seq<T>) {
    forall i, j :: 0 <= i < j < |s| && le(s[i], s[j]) && le(s[j], s[i]) ==> fine(s[i], s[j])
  }

  lemma {:induction false} InsertAlike<T(!new)>(le: (T, T) -> bool, fine: (T, T) -> bool, x: T, s: seq<T>)
    requires forall y :: y in s ==> le(x, y) == fine(x, y)
    ensures Insert(le, x, s) == Insert(fine, x, s)
  {
    if s != [] {
      assert s[0] in s;
      InsertAlike(le, fine, x, s[1..]);
    }
  }

  lemma {:induction false} StableIsFine<T(!new)>(le: (T, T) -> bool, fine: (T, T) -> bool, s: seq<T>)
    requires TotalPreorder(le) && Refines(le, fine) && TiesInOrder(le, fine, s)
    ensures Sort(le, s) == Sort(fine, s)
  {
    if s != [] {
      StableIsFine(le, fine, s[1..]);
      var r := Sort(le, s[1..]);
      SortMembers(le, s[1..]);
      forall y | y in r
        ensures le(s[0], y) == fine(s[0], y)
      {
        var j :| 0 <= j < |s[1..]| && s[1..][j] == y;
        assert s[j + 1] == y;
      }
      InsertAlike(le, fine, s[0], r);
    }
  }

  lemma {:induction false} InsertedBefore<T(!new)>(le: (T, T) -> bool, x: T, s: seq<T>, y: T)
    requires TotalPreorder(le) && Sorted(le, s) && y in s && le(x, y)
    ensures exists i, j :: 0 <= i < j < |Insert(le, x, s)| && Insert(le, x, s)[i] == x && Insert(le, x, s)[j] == y
  {
    var r := Insert(le, x, s);
    if le(x, s[0]) {
      var k :| 0 <= k < |s| && s[k] == y;
      assert r[0] == x && r[k + 1] == y;
    } else {
      assert s == [s[0]] + s[1..];
      InsertedBefore(le, x, s[1..], y);
      var q := Insert(le, x, s[1..]);
      var i, j :| 0 <= i < j < |q| && q[i] == x && q[j] == y;
      assert r[i + 1] == x && r[j + 1] == y;
    }
  }

  function Not<T(==)>(x: T): T -> bool {
    (y: T) => y != x
  }

  lemma InsertRemoved<T(!new)>(le: (T, T) -> bool, x: T, s: seq<T>)
    requires TotalPreorder(le) && Sorted(le, s) && x !in s
    ensures Filter(Not(x), Insert(le, x, s)) == s
  {
    FilterInsert(le, Not(x), x, s);
    FilterAll(Not(x), s);
  }

  lemma {:induction false} FineIsStable<T(!new)>(le: (T, T) -> bool, fine: (T, T) -> bool, s: seq<T>)
    requires TotalPreorder(le) && TotalPreorder(fine) && Refines(le, fine) && NoDup(s)
    requires Sort(le, s) == Sort(fine, s)
    ensures TiesInOrder(le, fine, s)
  {
    if s != [] {
      var x, rest := s[0], s[1..];
      var p, q := Sort(le, rest), Sort(fine, rest);
      SortSorted(le, rest);
      SortSorted(fine, rest);
      SortMembers(le, rest);
      SortMembers(fine, rest);
      assert x !in rest;
      InsertRemoved(le, x, p);
      InsertRemoved(fine, x, q);
      FineIsStable(le, fine, rest);
      InsertSorted(fine, x, q);
      forall y | y in rest && le(x, y)
        ensures fine(x, y)
      {
        InsertedBefore(le, x, p, y);
      }
      TiesCons(le, fine, s);
    }
  }

  lemma TiesCons<T(!new)>(le: (T, T) -> bool, fine: (T, T) -> bool, s: seq<T>)
    requires s != [] && TiesInOrder(le, fine, s[1..])
    requires forall y :: y in s[1..] && le(s[0], y) ==> fine(s[0], y)
    ensures TiesInOrder(le, fine, s)
  {
    forall i, j | 0 <= i < j < |s| && le(s[i], s[j]) && le(s[j], s[i])
      ensures fine(s[i], s[j])
    {
      assert s[j] == s[1..][j - 1];
      if i > 0 {
        assert s[i] == s[1..][i - 1];
      }
    }
  }

  // ----- the queue list -----

  lemma QueueRowsSeparate(env: Env, queue: seq<QueueEntry>)
    requires env.Valid() && UniqueKeys(QueueKey(), queue)
    ensures Antisymmetric(env.QueueRows(), queue)
  {
    forall x, y | x in queue && y in queue && x.id == y.id
      ensures x == y
    {
      LookupIs(QueueKey(), queue, x);
      LookupIs(QueueKey(), queue, y);
    }
  }

  /** listMergeQueueEntries returns the same list from both stores exactly when entries with the same priority and
      creation time were queued in the order of their ids. */
  lemma QueueListsAgree(env: Env, m: Snapshot, t: Snapshot)
    requires env.Valid() && Related(m, t)
    ensures QueueList(Postgres, env, t) == QueueList(InMemory, env, m)
       <==> TiesInOrder(env.QueueOrder(), env.QueueRows(), m.queue)
  {
    RowOrdersTotal(env);
    UniqueKeysNoDup(QueueKey(), m.queue);
    UniqueKeysNoDup(QueueKey(), t.queue);
    QueueRowsSeparate(env, m.queue);
    SortUnique(env.QueueRows(), m.queue, t.queue);
    if TiesInOrder(env.QueueOrder(), env.QueueRows(), m.queue) {
      StableIsFine(env.QueueOrder(), env.QueueRows(), m.queue);
    }
    if QueueList(Postgres, env, t) == QueueList(InMemory, env, m) {
      FineIsStable(env.QueueOrder(), env.QueueRows(), m.queue);
    }
  }

  // ----- what a refresh returns -----

  /** A map that keeps ids tells lists of entries of one queue apart. */
  lemma ImagesTellApart(f: QueueEntry -> QueueEntry, queue: seq<QueueEntry>, s: seq<QueueEntry>, t: seq<QueueEntry>)
    requires UniqueKeys(QueueKey(), queue) && Map(f, s) == Map(f, t)
    requires (forall e :: e in s ==> e in queue) && (forall e :: e in t ==> e in queue)
    requires forall e :: e in queue ==> f(e).id == e.id
    ensures s == t
  {
    forall i | 0 <= i < |s|
      ensures |t| == |s| && s[i] == t[i]
    {
      assert |Map(f, s)| == |Map(f, t)| && Map(f, s)[i] == Map(f, t)[i];
      assert s[i] in s && t[i] in t;
      LookupIs(QueueKey(), queue, s[i]);
      LookupIs(QueueKey(), queue, t[i]);
    }
    assert |s| == |Map(f, s)| == |Map(f, t)| == |t|;
  }

  /** The live entries of a lease are listed alike exactly when they were queued in the order of the rows. */
  lemma LiveEntriesListedExactly(env: Env, m: Snapshot, t: Snapshot, lease: Id)
    requires env.Valid() && Related(m, t)
    ensures LiveEntries(Postgres, env, t, lease) == LiveEntries(InMemory, env, m, lease)
       <==> Sorted(env.QueueRows(), Filter(LiveOf(lease), m.queue))
  {
    RowOrdersTotal(env);
    UniqueKeysNoDup(QueueKey(), m.queue);
    UniqueKeysNoDup(QueueKey(), t.queue);
    QueueRowsSeparate(env, m.queue);
    SortUnique(env.QueueRows(), m.queue, t.queue);
    SortedExactly(env.QueueRows(), LiveOf(lease), m.queue);
  }

  lemma RefreshedLeaseKeepsIds(env: Env, m: Snapshot, lease: Id, now: Millis)
    ensures forall e :: e in m.queue ==> RefreshedLease(InMemory, env, m, lease, now)(e).id == e.id
  {
    forall e | e in m.queue
      ensures RefreshedLease(InMemory, env, m, lease, now)(e).id == e.id
    {
      assert LiveOf(lease)(e) ==>
        RefreshedLease(InMemory, env, m, lease, now)(e) == PatchEntry(e, Refresh(Fields(InMemory, env, m, lease)), now);
    }
  }

  lemma ReturnedAlikeExactly(env: Env, m: Snapshot, t: Snapshot, lease: Id, now: Millis)
    requires Related(m, t)
    ensures var f := RefreshedLease(InMemory, env, m, lease, now);
            (Map(f, LiveEntries(Postgres, env, t, lease)) == Map(f, LiveEntries(InMemory, env, m, lease)))
              <==> LiveEntries(Postgres, env, t, lease) == LiveEntries(InMemory, env, m, lease)
  {
    var f := RefreshedLease(InMemory, env, m, lease, now);
    var s, q := LiveEntries(InMemory, env, m, lease), LiveEntries(Postgres, env, t, lease);
    LiveEntriesAre(InMemory, env, m, lease);
    LiveEntriesAre(Postgres, env, t, lease);
    RefreshedLeaseKeepsIds(env, m, lease, now);
    if Map(f, q) == Map(f, s) {
      ImagesTellApart(f, m.queue, q, s);
    }
  }

  /** A refresh returns the same list from both stores exactly when the live entries of the lease were queued in the order of
      priority, creation time and id. */
  lemma RefreshListsAgree(env: Env, m: Snapshot, t: Snapshot, lease: Id, now: Millis)
    requires env.Valid() && env.NamesPairs() && Related(m, t) && Coherent(env, m) && lease != ""
    ensures (RefreshResults(Postgres, env, t, RefreshIds(Postgres, env, t, lease), now)
               == RefreshResults(InMemory, env, m, RefreshIds(InMemory, env, m, lease), now))
       <==> Sorted(env.QueueRows(), Filter(LiveOf(lease), m.queue))
  {
    ReturnedAre(env, m, t, lease, now);
    ReturnedAlikeExactly(env, m, t, lease, now);
    LiveEntriesListedExactly(env, m, t, lease);
  }

  // ----- arrays in insertion order against tables in row order -----

  /** Rows with a filter, read in an order that separates them, are the filtered array exactly when it was filled in that
      order. */
  lemma RowsListedExactly<T(!new)>(le: (T, T) -> bool, p: T -> bool, kept: seq<T>, rows: seq<T>)
    requires TotalPreorder(le) && Antisymmetric(le, kept)
    requires NoDup(kept) && NoDup(rows) && SameElements(kept, rows)
    ensures Sort(le, Filter(p, rows)) == Filter(p, kept) <==> Sorted(le, Filter(p, kept))
  {
    SortUnique(le, kept, rows);
    FilterSort(le, p, rows);
    SortedExactly(le, p, kept);
  }

  ghost predicate SeparatesIds<T(!new)>(le: (T, T) -> bool, key: T -> Key) {
    forall x, y :: le(x, y) && le(y, x) ==> key(x) == key(y)
  }

  lemma KeyedRowsListedExactly<T(!new)>(le: (T, T) -> bool, key: T -> Key, p: T -> bool, kept: seq<T>, rows: seq<T>)
    requires TotalPreorder(le) && SeparatesIds(le, key)
    requires UniqueKeys(key, kept) && UniqueKeys(key, rows) && SameElements(kept, rows)
    ensures Sort(le, Filter(p, rows)) == Filter(p, kept) <==> Sorted(le, Filter(p, kept))
  {
    UniqueKeysNoDup(key, kept);
    UniqueKeysNoDup(key, rows);
    forall x, y | x in kept && y in kept && le(x, y) && le(y, x)
      ensures x == y
    {
      LookupIs(key, kept, x);
      LookupIs(key, kept, y);
    }
    RowsListedExactly(le, p, kept, rows);
  }

  /** listTasks and listRepos, and listBranchLeases with any filter, agree exactly when the listed records were created in the
      order of their times and ids. */
  lemma ListsAgreeExactly(env: Env, m: Snapshot, t: Snapshot, listed: Lease -> bool)
    requires env.Valid() && Related(m, t)
    ensures Sort(env.TaskRows(), t.tasks) == m.tasks <==> Sorted(env.TaskRows(), m.tasks)
    ensures Sort(env.RepoRows(), t.repos) == m.repos <==> Sorted(env.RepoRows(), m.repos)
    ensures Sort(env.LeaseRows(), Filter(listed, t.leases)) == Filter(listed, m.leases)
       <==> Sorted(env.LeaseRows(), Filter(listed, m.leases))
  {
    RowOrdersTotal(env);
    RowsSeparateIds(env);
    FilterAll((x: Task) => true, t.tasks);
    FilterAll((x: Task) => true, m.tasks);
    FilterAll((x: Repo) => true, t.repos);
    FilterAll((x: Repo) => true, m.repos);
    KeyedRowsListedExactly(env.TaskRows(), TaskKey(), (x: Task) => true, m.tasks, t.tasks);
    KeyedRowsListedExactly(env.RepoRows(), RepoKey(), (x: Repo) => true, m.repos, t.repos);
    KeyedRowsListedExactly(env.LeaseRows(), LeaseKey(), listed, m.leases, t.leases);
  }

  lemma RowsSeparateIds(env: Env)
    requires env.Valid()
    ensures SeparatesIds(env.TaskRows(), TaskKey()) && SeparatesIds(env.RepoRows(), RepoKey())
         && SeparatesIds(env.LeaseRows(), LeaseKey()) && SeparatesIds(env.AuditRows(), AuditKey())
         && SeparatesIds(env.NewestRowFirst(), SimulationKey()) && SeparatesIds(env.NewestFirst(), SimulationKey())
  {
  }

  function AuditKey(): AuditLog -> Id {
    (l: AuditLog) => l.id
  }

  /** listAuditLogs agrees exactly when the log was written in the order of its times and ids. */
  lemma AuditListsAgree(env: Env, m: Snapshot, t: Snapshot)
    requires env.Valid() && Related(m, t) && UniqueKeys(AuditKey(), m.audit)
    ensures AuditList(Postgres, env, t) == AuditList(InMemory, env, m) <==> Sorted(env.AuditRows(), m.audit)
  {
    AuditRowsTotal(env);
    RowsSeparateIds(env);
    UniqueKeysNoDup(AuditKey(), m.audit);
    SameLogs(m.audit, t.audit);
    FilterAll((x: AuditLog) => true, m.audit);
    FilterAll((x: AuditLog) => true, t.audit);
    forall x, y | x in m.audit && y in m.audit && env.AuditRows()(x, y) && env.AuditRows()(y, x)
      ensures x == y
    {
      LookupIs(AuditKey(), m.audit, x);
      LookupIs(AuditKey(), m.audit, y);
    }
    RowsListedExactly(env.AuditRows(), (x: AuditLog) => true, m.audit, t.audit);
  }

  lemma SameLogs(s: seq<AuditLog>, t: seq<AuditLog>)
    requires multiset(s) == multiset(t) && NoDup(s)
    ensures SameElements(s, t) && NoDup(t)
  {
    MultisetOfNoDup(s);
    NoDupOfMultiset(t);
    forall x
      ensures x in s <==> x in t
    {
      assert x in multiset(s) <==> x in multiset(t);
    }
  }

  /** listMergeSimulations, with any filter, agrees exactly when the in-memory list, which is sorted by localeCompare on ties, is
      in the database's order. */
  lemma SimulationListsAgree(env: Env, m: Snapshot, t: Snapshot, listed: Simulation -> bool)
    requires env.Valid() && Related(m, t)
    ensures Sort(env.NewestRowFirst(), Filter(listed, t.simulations)) == Sort(env.NewestFirst(), Filter(listed, m.simulations))
       <==> (forall x, y :: x in m.simulations && listed(x) && y in m.simulations && listed(y) && x.createdAt == y.createdAt
                            ==> OrderedAlike(env, x.id, y.id))
  {
    var s, q := Filter(listed, m.simulations), Filter(listed, t.simulations);
    ListedSimulations(env, m, t, listed);
    SimulationOrders(env, s, q);
    FilterMembers(listed, m.simulations);
  }

  lemma ListedSimulations(env: Env, m: Snapshot, t: Snapshot, listed: Simulation -> bool)
    requires env.Valid() && Related(m, t)
    ensures var s, q := Filter(listed, m.simulations), Filter(listed, t.simulations);
            UniqueKeys(SimulationKey(), s) && UniqueKeys(SimulationKey(), q) && SameElements(s, q)
  {
    FilterMembers(listed, m.simulations);
    FilterMembers(listed, t.simulations);
    FilterUnique(SimulationKey(), listed, m.simulations);
    FilterUnique(SimulationKey(), listed, t.simulations);
  }

  ghost predicate TimesOrderedAlike(env: Env, s: seq<Simulation>) {
    forall x, y :: x in s && y in s && x.createdAt == y.createdAt ==> OrderedAlike(env, x.id, y.id)
  }

  lemma SimulationOrders(env: Env, s: seq<Simulation>, q: seq<Simulation>)
    requires env.Valid() && UniqueKeys(SimulationKey(), s) && UniqueKeys(SimulationKey(), q) && SameElements(s, q)
    ensures Sort(env.NewestRowFirst(), q) == Sort(env.NewestFirst(), s) <==> TimesOrderedAlike(env, s)
  {
    var le, row := env.NewestFirst(), env.NewestRowFirst();
    NewestFirstTotal(env);
    UniqueKeysNoDup(SimulationKey(), s);
    UniqueKeysNoDup(SimulationKey(), q);
    IdsSeparate(env, s);
    SortUnique(row, s, q);
    if TimesOrderedAlike(env, s) {
      SortAlike(le, row, s);
    }
    if Sort(row, s) == Sort(le, s) {
      SortsTieAlike(env, s);
    }
  }

  /** Two orders that compare the elements of a list alike sort it alike. */
  lemma {:induction false} SortAlike<T(!new)>(le: (T, T) -> bool, fine: (T, T) -> bool, s: seq<T>)
    requires forall x, y :: x in s && y in s ==> le(x, y) == fine(x, y)
    ensures Sort(le, s) == Sort(fine, s)
  {
    if s != [] {
      assert s == [s[0]] + s[1..] && s[0] in s;
      SortAlike(le, fine, s[1..]);
      SortMembers(le, s[1..]);
      InsertAlike(le, fine, s[0], Sort(le, s[1..]));
    }
  }

  lemma SortsTieAlike(env: Env, s: seq<Simulation>)
    requires env.Valid() && UniqueKeys(SimulationKey(), s) && Sort(env.NewestRowFirst(), s) == Sort(env.NewestFirst(), s)
    ensures TimesOrderedAlike(env, s)
  {
    var le, row := env.NewestFirst(), env.NewestRowFirst();
    var r := Sort(le, s);
    NewestFirstTotal(env);
    SortSorted(le, s);
    SortSorted(row, s);
    SortMembers(le, s);
    forall x, y | x in s && y in s && x.createdAt == y.createdAt
      ensures OrderedAlike(env, x.id, y.id)
    {
      var i :| 0 <= i < |r| && r[i] == x;
      var j :| 0 <= j < |r| && r[j] == y;
      SortedPairAlike(env, r, i, j);
    }
  }

  lemma SortedPairAlike(env: Env, r: seq<Simulation>, i: nat, j: nat)
    requires env.Valid() && Sorted(env.NewestFirst(), r) && Sorted(env.NewestRowFirst(), r)
    requires i < |r| && j < |r| && r[i].createdAt == r[j].createdAt
    ensures OrderedAlike(env, r[i].id, r[j].id)
  {
    if i < j {
      assert env.NewestFirst()(r[i], r[j]) && env.NewestRowFirst()(r[i], r[j]);
    } else if j < i {
      assert env.NewestFirst()(r[j], r[i]) && env.NewestRowFirst()(r[j], r[i]);
    }
  }

  // ----- task-run risks -----

  lemma {:induction false} AllRisksAgree(env: Env, m: Snapshot, t: Snapshot, repos: seq<Repo>)
    requires env.Valid() && env.NamesPairs() && Related(m, t) && Coherent(env, m)
    requires forall r :: r in repos ==> r.id != ""
    ensures AllRiskList(Postgres, env, t, repos) == AllRiskList(InMemory, env, m, repos)
  {
    if repos != [] {
      assert repos[0] in repos;
      RepoRisksAgree(env, m, t, repos[0].id);
      AllRisksAgree(env, m, t, repos[1..]);
    }
  }

  lemma ReposSeparate(env: Env, repos: seq<Repo>)
    requires env.Valid() && UniqueKeys(RepoKey(), repos)
    ensures Antisymmetric(env.RepoRows(), repos)
  {
    forall x, y | x in repos && y in repos && x.id == y.id
      ensures x == y
    {
      LookupIs(RepoKey(), repos, x);
      LookupIs(RepoKey(), repos, y);
    }
  }

  lemma {:induction false} AllRisksInserted(env: Env, m: Snapshot, x: Repo, repos: seq<Repo>)
    ensures multiset(AllRiskList(InMemory, env, m, Insert(env.RepoRows(), x, repos)))
         == multiset(RepoRiskList(InMemory, env, m, x.id)) + multiset(AllRiskList(InMemory, env, m, repos))
  {
    if repos == [] || env.RepoRows()(x, repos[0]) {
      assert ([x] + repos)[1..] == repos;
    } else {
      AllRisksInserted(env, m, x, repos[1..]);
      var rest := Insert(env.RepoRows(), x, repos[1..]);
      assert ([repos[0]] + rest)[1..] == rest;
    }
  }

  lemma {:induction false} AllRisksSorted(env: Env, m: Snapshot, repos: seq<Repo>)
    ensures multiset(AllRiskList(InMemory, env, m, Sort(env.RepoRows(), repos))) == multiset(AllRiskList(InMemory, env, m, repos))
  {
    if repos != [] {
      AllRisksSorted(env, m, repos[1..]);
      AllRisksInserted(env, m, repos[0], Sort(env.RepoRows(), repos[1..]));
    }
  }

  lemma {:induction false} FilterMultiset(p: ConflictRisk -> bool, s: seq<ConflictRisk>)
    ensures forall x :: multiset(Filter(p, s))[x] == if p(x) then multiset(s)[x] else 0
  {
    if s != [] {
      FilterMultiset(p, s[1..]);
      assert s == [s[0]] + s[1..];
      assert multiset(s) == multiset{s[0]} + multiset(s[1..]);
    }
  }

  lemma FilterSameMultiset(p: ConflictRisk -> bool, s: seq<ConflictRisk>, t: seq<ConflictRisk>)
    requires multiset(s) == multiset(t)
    ensures multiset(Filter(p, s)) == multiset(Filter(p, t))
  {
    FilterMultiset(p, s);
    FilterMultiset(p, t);
    var x, y := multiset(Filter(p, s)), multiset(Filter(p, t));
    assert forall r :: x[r] == y[r];
  }

  lemma RepoListsAgree(env: Env, m: Snapshot, t: Snapshot)
    requires env.Valid() && Related(m, t)
    ensures ReposOf(Postgres, env, t.repos) == Sort(env.RepoRows(), m.repos)
  {
    RowOrdersTotal(env);
    UniqueKeysNoDup(RepoKey(), m.repos);
    UniqueKeysNoDup(RepoKey(), t.repos);
    ReposSeparate(env, m.repos);
    SortUnique(env.RepoRows(), m.repos, t.repos);
  }

  lemma RunRisksFromRepos(env: Env, m: Snapshot, t: Snapshot, run: Id)
    requires env.Valid() && env.NamesPairs() && Related(m, t) && Coherent(env, m)
    requires forall r :: r in m.repos ==> r.id != ""
    ensures RunRiskList(Postgres, env, t, run)
         == Filter(Touches(RunLeaseIds(m.leases, run)), AllRiskList(InMemory, env, m, Sort(env.RepoRows(), m.repos)))
  {
    var sorted := Sort(env.RepoRows(), m.repos);
    RepoListsAgree(env, m, t);
    SortMembers(env.RepoRows(), m.repos);
    AllRisksAgree(env, m, t, sorted);
    assert RunLeaseIds(t.leases, run) == RunLeaseIds(m.leases, run);
  }

  // ----- a simulation recorded against another repo -----

  /** Recording the newest simulation of a pair keeps the two pair lookups equal exactly when it was recorded
      against the pair's own repo. The request body may name any repo (main.ts:3425), so this is not given. */
  lemma ForeignSimulationSplits(env: Env, m: Snapshot, t: Snapshot, a: Lease, b: Lease, x: Simulation)
    requires env.Valid() && Related(m, t) && a.repoId != "" && a.repoId == b.repoId
    requires Keyed.Fresh(SimulationKey(), x.id, m.simulations) && OfPair(a.id, b.id)(x)
    requires var prior := LatestForPair(env, m.simulations, a.id, b.id);
             prior.None? || !env.NewestFirst()(prior.value, x)
    ensures SimulationOfPair(Postgres, env, t.simulations + [x], a, b)
              == SimulationOfPair(InMemory, env, m.simulations + [x], a, b)
       <==> x.repoId == a.repoId
  {
    AppendAgrees(SimulationKey(), m.simulations, t.simulations, x);
    LatestIsRunningMaximum(env, OfPair(a.id, b.id), m.simulations, x);
    PairLookupsAgree(env, m.simulations + [x], t.simulations + [x], a.repoId, a.id, b.id);
  }

  lemma {:induction false} PairsFrom(risk: PairScore, active: seq<Lease>, r: ConflictRisk)
    requires r in Pairs(risk, active)
    ensures exists a, b :: a in active && b in active && r == risk(a, b)
  {
    var x, rest := active[0], active[1..];
    assert active == [x] + rest;
    if r in Row(risk, x, rest) {
      RowMembers(risk, x, rest, r);
    } else {
      PairsFrom(risk, rest, r);
    }
  }

  /** The difference is visible: in any states with two active leases of one repo and one simulation of the first of them
      recorded against another repo, the risk lists differ. */
  lemma ForeignSimulationIsVisible(
    overlap: OverlapScore, locale: Id -> real, database: Id -> real, m: Snapshot, t: Snapshot, a: Lease, b: Lease, x: Simulation)
    requires ConcreteEnv(overlap, locale, database).Valid()
    requires a.id != b.id && a.status == Active && b.status == Active && Compatible(a, b)
    requires a.repoId == b.repoId && a.repoId != "" && x.branchLeaseId == Some(a.id) && x.repoId != a.repoId
    requires m.leases == t.leases == [a, b] && m.simulations == t.simulations == [x]
    ensures var env := ConcreteEnv(overlap, locale, database);
            RepoRiskList(Postgres, env, t, a.repoId) != RepoRiskList(InMemory, env, m, a.repoId)
  {
    var env := ConcreteEnv(overlap, locale, database);
    MemorySeesForeign(env, m, a, b, x);
    assert env.score(a, b, Some(x)).simulationStatus == Some(x.status);
    PostgresIgnoresForeign(overlap, locale, database, t, x, a.repoId);
  }

  lemma OnlySimulation(env: Env, a: Lease, b: Lease, x: Simulation)
    requires OfPair(a.id, b.id)(x)
    ensures Score(InMemory, env, [x])(a, b) == env.score(a, b, Some(x))
  {
    assert Filter(OfPair(a.id, b.id), [x]) == [x];
    assert Sort(env.NewestFirst(), [x]) == [x];
    assert SimulationOfPair(InMemory, env, [x], a, b) == Some(x);
  }

  lemma MemorySeesForeign(env: Env, s: Snapshot, a: Lease, b: Lease, x: Simulation)
    requires env.Valid() && s.leases == [a, b] && s.simulations == [x]
    requires a.id != b.id && a.status == Active && b.status == Active && Compatible(a, b)
    requires a.repoId == b.repoId && x.branchLeaseId == Some(a.id)
    ensures env.score(a, b, Some(x)) in RepoRiskList(InMemory, env, s, a.repoId)
  {
    var mem := Score(InMemory, env, [x]);
    var active := ActiveLeases(s.leases, a.repoId);
    MemoryIsPairwise(env, [x]);
    UniqueLeasesFilter(ActiveIn(a.repoId), s.leases);
    FilterMembers(ActiveIn(a.repoId), s.leases);
    assert s.leases[0] == a && s.leases[1] == b;
    assert a in active && b in active;
    PairsMembers(mem, active, mem(a, b));
    SortMembers(env.RiskOrder(), Pairs(mem, active));
    OnlySimulation(env, a, b, x);
  }

  lemma PostgresIgnoresForeign(overlap: OverlapScore, locale: Id -> real, database: Id -> real, s: Snapshot, x: Simulation, repo: Id)
    requires repo != "" && x.repoId != repo && s.simulations == [x]
    ensures forall r :: r in RepoRiskList(Postgres, ConcreteEnv(overlap, locale, database), s, repo) ==> r.simulationStatus == None
  {
    var env := ConcreteEnv(overlap, locale, database);
    var rows := ActiveOf(Postgres, env, s.leases, repo);
    var pg := Score(Postgres, env, [x]);
    SortMembers(env.RiskOrder(), Pairs(pg, rows));
    FilterMembers(ActiveRow(repo), s.leases);
    SortMembers(env.LeaseRows(), Filter(ActiveRow(repo), s.leases));
    forall r | r in Pairs(pg, rows)
      ensures r.simulationStatus == None
    {
      PairsFrom(pg, rows, r);
      var c, d :| c in rows && d in rows && r == pg(c, d);
      NoRowElsewhere(env, x, c, d);
      assert r == env.score(c, d, None);
    }
  }

  lemma NoRowElsewhere(env: Env, x: Simulation, c: Lease, d: Lease)
    requires c.repoId != "" && x.repoId != c.repoId
    ensures SimulationOfPair(Postgres, env, [x], c, d) == None
  {
    assert Filter(InRepo(c.repoId), [x]) == [];
    assert RowsInRepo(env, [x], c.repoId) == [];
  }
}
