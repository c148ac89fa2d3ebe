/** Forward simulation: the Postgres store, over tables whose rows come in no particular order, returns what the
    in-memory store returns (packages/db/src/postgres.ts:195-409, 545-608, 826-831 against
    packages/db/src/repository.ts:130-364, 515-617). */
module Agreement {
  import opened Sequences
  import opened Domain
  import opened Keyed
  import opened ConflictRisks
  import opened RiskTheorems
  import opened LatestSimulation
  import opened Queue
  import opened Stores
  import opened RefreshTheorems

  /** The tables hold the records of the arrays, in any order. */
  ghost predicate Related(m: Snapshot, t: Snapshot) {
    && m.UniqueIds() && t.UniqueIds()
    && SameElements(m.repos, t.repos)
    && SameElements(m.tasks, t.tasks)
    && SameElements(m.leases, t.leases)
    && SameElements(m.simulations, t.simulations)
    && SameElements(m.queue, t.queue)
    && multiset(m.audit) == multiset(t.audit)
  }

  /** Ids are as createId makes them, repo ids are not empty, and a simulation that names a lease was
      recorded against that lease's repo. Simulations of one lease and one instant are ordered alike by both collations. */
  ghost predicate Coherent(env: Env, m: Snapshot) {
    && (forall l :: l in m.leases ==> MadeLeaseId(l.id) && l.repoId != "")
    && (forall x :: x in m.simulations && x.branchLeaseId.Some? ==> Names(m.leases, x))
    && (forall e :: e in m.queue ==> e.branchLeaseId != "")
    && TiesAlike(env, m.simulations)
  }

  ghost predicate Names(leases: seq<Lease>, x: Simulation)
    requires x.branchLeaseId.Some?
  {
    exists l :: l in leases && l.id == x.branchLeaseId.value && l.repoId == x.repoId
  }

  /** What a caller checks before the call, beyond Legal. */
  ghost predicate Matching(env: Env, m: Snapshot, op: Op) {
    match op
    case AddLease(lease) => lease.repoId != ""
    case Simulate(x, _) => (x.branchLeaseId.Some? ==> Names(m.leases, x)) && JoinsAlike(env, m.simulations, x)
    case AddEntry(input, _, _) => input.branchLeaseId != ""
    case RefreshLive(id, _) => id != ""
    case _ => true
  }

  // ----- risks -----

  lemma MemoryIsPairwise(env: Env, simulations: seq<Simulation>)
    requires env.Valid()
    ensures Pairwise(Score(InMemory, env, simulations))
  {
    forall a: Lease, b: Lease
      ensures ScoresPair(Score(InMemory, env, simulations)(a, b), a, b)
    {
      assert ScoresPair(env.score(a, b, SimulationOfPair(InMemory, env, simulations, a, b)), a, b);
    }
    forall a: Lease, b: Lease | a.id != b.id
      ensures Score(InMemory, env, simulations)(a, b) == Score(InMemory, env, simulations)(b, a)
    {
      PairIsSymmetric(env, simulations, a.id, b.id);
      var x := SimulationOfPair(InMemory, env, simulations, a, b);
      assert SimulationOfPair(InMemory, env, simulations, b, a) == x;
      assert env.score(a, b, x) == env.score(b, a, x);
    }
  }

  lemma PairSimulationsAgree(env: Env, m: Snapshot, t: Snapshot, a: Lease, b: Lease)
    requires env.Valid() && Related(m, t) && Coherent(env, m)
    requires a in m.leases && b in m.leases && a.repoId == b.repoId
    ensures SimulationOfPair(Postgres, env, t.simulations, a, b) == SimulationOfPair(InMemory, env, m.simulations, a, b)
  {
    PairLookupsAgree(env, m.simulations, t.simulations, a.repoId, a.id, b.id);
    NewestFirstTotal(env);
    LatestIsLatest(env.NewestFirst(), OfPair(a.id, b.id), m.simulations);
    var latest := LatestForPair(env, m.simulations, a.id, b.id);
    if latest.Some? {
      var x := latest.value;
      assert OfPair(a.id, b.id)(x) && Names(m.leases, x);
      var l :| l in m.leases && l.id == x.branchLeaseId.value && l.repoId == x.repoId;
      LookupIs(LeaseKey(), m.leases, l);
      LookupIs(LeaseKey(), m.leases, a);
      LookupIs(LeaseKey(), m.leases, b);
    }
  }

  lemma {:induction false} RowCongruent(f: PairScore, g: PairScore, x: Lease, later: seq<Lease>)
    requires forall y :: y in later ==> f(x, y) == g(x, y)
    ensures Row(f, x, later) == Row(g, x, later)
  {
    if later != [] {
      assert later[0] in later;
      RowCongruent(f, g, x, later[1..]);
    }
  }

  lemma {:induction false} PairsCongruent(f: PairScore, g: PairScore, active: seq<Lease>)
    requires forall x, y :: x in active && y in active ==> f(x, y) == g(x, y)
    ensures Pairs(f, active) == Pairs(g, active)
  {
    if active != [] {
      assert active[0] in active;
      RowCongruent(f, g, active[0], active[1..]);
      PairsCongruent(f, g, active[1..]);
    }
  }

  lemma ActiveAgree(env: Env, m: Snapshot, t: Snapshot, repo: Id)
    requires Related(m, t) && repo != ""
    ensures var a, b := ActiveOf(InMemory, env, m.leases, repo), ActiveOf(Postgres, env, t.leases, repo);
            && SameElements(a, b) && UniqueLeases(a) && UniqueLeases(b)
            && forall l :: l in a ==> l in m.leases && l.repoId == repo
  {
    var rows := Filter(ActiveRow(repo), t.leases);
    FilterMembers(ActiveIn(repo), m.leases);
    FilterMembers(ActiveRow(repo), t.leases);
    SortMembers(env.LeaseRows(), rows);
    FilterUnique(LeaseKey(), ActiveIn(repo), m.leases);
    FilterUnique(LeaseKey(), ActiveRow(repo), t.leases);
    SortKeepsUnique(env, rows);
    assert forall l: Lease :: ActiveRow(repo)(l) <==> ActiveIn(repo)(l);
  }

  lemma SortKeepsUnique(env: Env, rows: seq<Lease>)
    requires UniqueKeys(LeaseKey(), rows)
    ensures UniqueLeases(Sort(env.LeaseRows(), rows))
  {
    var r := Sort(env.LeaseRows(), rows);
    RowOrdersTotal(env);
    SortNoDup(env.LeaseRows(), rows);
    SortMembers(env.LeaseRows(), rows);
    forall i, j | 0 <= i < j < |r|
      ensures r[i].id != r[j].id
    {
      assert r[i] in rows && r[j] in rows;
      LookupIs(LeaseKey(), rows, r[i]);
      LookupIs(LeaseKey(), rows, r[j]);
    }
  }

  /** r is the in-memory store's risk of two of the leases. */
  ghost predicate ScoredFrom(env: Env, simulations: seq<Simulation>, leases: seq<Lease>, r: ConflictRisk) {
    exists a, b :: a in leases && b in leases && r == Score(InMemory, env, simulations)(a, b)
  }

  /** Two such risks with the same id have the same ends. */
  lemma IdNamesEnds(env: Env, simulations: seq<Simulation>, leases: seq<Lease>, r: ConflictRisk, q: ConflictRisk)
    requires env.Valid() && env.NamesPairs()
    requires forall l :: l in leases ==> MadeLeaseId(l.id)
    requires ScoredFrom(env, simulations, leases, r) && ScoredFrom(env, simulations, leases, q) && r.id == q.id
    ensures Ends(r) == Ends(q)
  {
    var a, b :| a in leases && b in leases && r == Score(InMemory, env, simulations)(a, b);
    var c, d :| c in leases && d in leases && q == Score(InMemory, env, simulations)(c, d);
    var x := SimulationOfPair(InMemory, env, simulations, a, b);
    var y := SimulationOfPair(InMemory, env, simulations, c, d);
    assert r == env.score(a, b, x) && q == env.score(c, d, y);
    assert {a.id, b.id} == {c.id, d.id};
    assert ScoresPair(r, a, b) && ScoresPair(q, c, d);
  }

  /** Risks with distinct ends, made from leases with made ids, are separated by the order. */
  lemma RisksSeparate(env: Env, simulations: seq<Simulation>, leases: seq<Lease>, risks: seq<ConflictRisk>)
    requires env.Valid() && env.NamesPairs()
    requires forall l :: l in leases ==> MadeLeaseId(l.id)
    requires DistinctEnds(risks)
    requires forall r :: r in risks ==> ScoredFrom(env, simulations, leases, r)
    ensures Antisymmetric(env.RiskOrder(), risks)
  {
    forall r, q | r in risks && q in risks && env.RiskOrder()(r, q) && env.RiskOrder()(q, r)
      ensures r == q
    {
      TiedRisksShareId(env, r, q);
      IdNamesEnds(env, simulations, leases, r, q);
      EndsIdentify(risks, r, q);
    }
  }

  lemma TiedRisksShareId(env: Env, r: ConflictRisk, q: ConflictRisk)
    requires env.Valid() && env.RiskOrder()(r, q) && env.RiskOrder()(q, r)
    ensures r.id == q.id
  {
    assert env.locale(r.id) == env.locale(q.id);
  }

  lemma EndsIdentify(risks: seq<ConflictRisk>, r: ConflictRisk, q: ConflictRisk)
    requires DistinctEnds(risks) && r in risks && q in risks && Ends(r) == Ends(q)
    ensures r == q
  {
  }

  lemma PairsSameElements(risk: PairScore, a: seq<Lease>, b: seq<Lease>)
    requires Pairwise(risk) && UniqueLeases(a) && UniqueLeases(b) && SameElements(a, b)
    ensures SameElements(Pairs(risk, a), Pairs(risk, b))
  {
    forall r
      ensures r in Pairs(risk, a) <==> r in Pairs(risk, b)
    {
      PairsMembers(risk, a, r);
      PairsMembers(risk, b, r);
    }
  }

  /** The repo list is the same whatever order the leases are read in. */
  lemma OrderOfLeasesIrrelevant(env: Env, simulations: seq<Simulation>, a: seq<Lease>, b: seq<Lease>)
    requires env.Valid() && env.NamesPairs()
    requires UniqueLeases(a) && UniqueLeases(b) && SameElements(a, b)
    requires forall l :: l in a ==> MadeLeaseId(l.id)
    ensures Sort(env.RiskOrder(), Pairs(Score(InMemory, env, simulations), a))
         == Sort(env.RiskOrder(), Pairs(Score(InMemory, env, simulations), b))
  {
    var risk := Score(InMemory, env, simulations);
    MemoryIsPairwise(env, simulations);
    RiskOrderTotal(env);
    PairsSameElements(risk, a, b);
    PairsDistinct(risk, a);
    PairsDistinct(risk, b);
    forall r | r in Pairs(risk, a)
      ensures ScoredFrom(env, simulations, a, r)
    {
      PairsMembers(risk, a, r);
    }
    RisksSeparate(env, simulations, a, Pairs(risk, a));
    SortUnique(env.RiskOrder(), Pairs(risk, a), Pairs(risk, b));
  }

  lemma RepoRisksAgree(env: Env, m: Snapshot, t: Snapshot, repo: Id)
    requires env.Valid() && env.NamesPairs() && Related(m, t) && Coherent(env, m) && repo != ""
    ensures RepoRiskList(Postgres, env, t, repo) == RepoRiskList(InMemory, env, m, repo)
  {
    var a, b := ActiveOf(InMemory, env, m.leases, repo), ActiveOf(Postgres, env, t.leases, repo);
    ActiveAgree(env, m, t, repo);
    forall x, y | x in b && y in b
      ensures Score(Postgres, env, t.simulations)(x, y) == Score(InMemory, env, m.simulations)(x, y)
    {
      assert x in a && y in a;
      PairSimulationsAgree(env, m, t, x, y);
    }
    PairsCongruent(Score(Postgres, env, t.simulations), Score(InMemory, env, m.simulations), b);
    OrderOfLeasesIrrelevant(env, m.simulations, a, b);
  }

  lemma PartnerRow(risk: PairScore, lease: Lease, active: seq<Lease>)
    ensures Map(ScoreAgainst(risk, lease), Filter(Partner(lease), active)) == Row(risk, lease, Filter(Partner(lease), active))
  {
    var partners := Filter(Partner(lease), active);
    FilterMembers(Partner(lease), active);
    FilterAll(Partner(lease), partners);
    StarIsRow(risk, lease, partners);
  }

  lemma RowSameElements(risk: PairScore, lease: Lease, a: seq<Lease>, b: seq<Lease>)
    requires SameElements(a, b)
    ensures SameElements(Row(risk, lease, a), Row(risk, lease, b))
  {
    forall r
      ensures r in Row(risk, lease, a) <==> r in Row(risk, lease, b)
    {
      RowMembers(risk, lease, a, r);
      RowMembers(risk, lease, b, r);
    }
  }

  lemma OrderOfPartnersIrrelevant(env: Env, simulations: seq<Simulation>, lease: Lease, a: seq<Lease>, b: seq<Lease>)
    requires env.Valid() && env.NamesPairs()
    requires UniqueLeases(a) && UniqueLeases(b) && SameElements(a, b)
    requires MadeLeaseId(lease.id) && forall l :: l in a ==> MadeLeaseId(l.id) && l.id != lease.id
    ensures Sort(env.RiskOrder(), Row(Score(InMemory, env, simulations), lease, a))
         == Sort(env.RiskOrder(), Row(Score(InMemory, env, simulations), lease, b))
  {
    var risk := Score(InMemory, env, simulations);
    MemoryIsPairwise(env, simulations);
    RiskOrderTotal(env);
    RowSameElements(risk, lease, a, b);
    RowDistinct(risk, lease, a);
    RowDistinct(risk, lease, b);
    forall r | r in Row(risk, lease, a)
      ensures ScoredFrom(env, simulations, [lease] + a, r)
    {
      RowMembers(risk, lease, a, r);
      assert lease in [lease] + a;
    }
    RisksSeparate(env, simulations, [lease] + a, Row(risk, lease, a));
    SortUnique(env.RiskOrder(), Row(risk, lease, a), Row(risk, lease, b));
  }

  lemma LeaseRisksAgree(env: Env, m: Snapshot, t: Snapshot, id: Id)
    requires env.Valid() && env.NamesPairs() && Related(m, t) && Coherent(env, m)
    ensures LeaseRiskList(Postgres, env, t, id) == LeaseRiskList(InMemory, env, m, id)
  {
    LookupAgrees(LeaseKey(), id, m.leases, t.leases);
    var found := Lookup(LeaseKey(), id, m.leases);
    if found.Some? && found.value.status == Active {
      var lease := found.value;
      LookupFresh(LeaseKey(), id, m.leases);
      var a, b := ActiveOf(InMemory, env, m.leases, lease.repoId), ActiveOf(Postgres, env, t.leases, lease.repoId);
      ActiveAgree(env, m, t, lease.repoId);
      var p, q := Filter(Partner(lease), a), Filter(Partner(lease), b);
      FilterMembers(Partner(lease), a);
      FilterMembers(Partner(lease), b);
      UniqueLeasesFilter(Partner(lease), a);
      UniqueLeasesFilter(Partner(lease), b);
      var pg, mem := Score(Postgres, env, t.simulations), Score(InMemory, env, m.simulations);
      forall y | y in q
        ensures pg(lease, y) == mem(lease, y)
      {
        assert y in a;
        PairSimulationsAgree(env, m, t, lease, y);
      }
      RowCongruent(pg, mem, lease, q);
      PartnerRow(pg, lease, b);
      PartnerRow(mem, lease, a);
      OrderOfPartnersIrrelevant(env, m.simulations, lease, p, q);
    }
  }

  lemma FieldsAgree(env: Env, m: Snapshot, t: Snapshot, lease: Id)
    requires env.Valid() && env.NamesPairs() && Related(m, t) && Coherent(env, m) && lease != ""
    ensures Fields(Postgres, env, t, lease) == Fields(InMemory, env, m, lease)
  {
    LeaseRisksAgree(env, m, t, lease);
    LeaseLookupsAgree(env, m.simulations, t.simulations, lease);
  }

  // ----- one call -----

  lemma ReplaceAgrees<T(!new)>(key: T -> Key, s: seq<T>, t: seq<T>, x: T)
    requires UniqueKeys(key, s) && UniqueKeys(key, t) && SameElements(s, t) && Lookup(key, key(x), s).Some?
    ensures UniqueKeys(key, Put(key, s, x)) && UniqueKeys(key, Rewrite(key, t, x))
    ensures SameElements(Put(key, s, x), Rewrite(key, t, x))
  {
    PutMembers(key, s, x);
    RewriteMembers(key, t, x);
  }

  lemma AppendAgrees<T(!new)>(key: T -> Key, s: seq<T>, t: seq<T>, x: T)
    requires UniqueKeys(key, s) && UniqueKeys(key, t) && SameElements(s, t) && Keyed.Fresh(key, key(x), s)
    ensures UniqueKeys(key, s + [x]) && UniqueKeys(key, t + [x]) && SameElements(s + [x], t + [x])
  {
    AppendUnique(key, s, x);
    AppendUnique(key, t, x);
  }

  lemma UpdateTaskAgrees(env: Env, m: Snapshot, t: Snapshot, id: Id, patch: TaskPatch, now: Millis)
    requires Related(m, t) && Coherent(env, m)
    ensures var r, q := UpdateTask(InMemory, m, id, patch, now), UpdateTask(Postgres, t, id, patch, now);
            r.result == q.result && Related(r.state, q.state) && Coherent(env, r.state)
  {
    LookupAgrees(TaskKey(), id, m.tasks, t.tasks);
    var found := Lookup(TaskKey(), id, m.tasks);
    LookupFresh(TaskKey(), id, m.tasks);
    if found.Some? {
      ReplaceAgrees(TaskKey(), m.tasks, t.tasks, PatchTask(found.value, patch, now));
    }
  }

  lemma TransitionAgrees(env: Env, m: Snapshot, t: Snapshot, id: Id, status: TaskStatus, auditId: Id, now: Millis)
    requires Related(m, t) && Coherent(env, m)
    ensures var r := TransitionTask(InMemory, m, id, status, auditId, now);
            var q := TransitionTask(Postgres, t, id, status, auditId, now);
            r.result == q.result && Related(r.state, q.state) && Coherent(env, r.state)
  {
    LookupAgrees(TaskKey(), id, m.tasks, t.tasks);
    var found := Lookup(TaskKey(), id, m.tasks);
    LookupFresh(TaskKey(), id, m.tasks);
    if found.Some? {
      ReplaceAgrees(TaskKey(), m.tasks, t.tasks, found.value.(status := status, updatedAt := now));
    }
  }

  /** Patching leases keeps every simulation's lease: id and repo stay. */
  lemma PatchedStaysCoherent(env: Env, m: Snapshot, n: Snapshot, former: Lease, patched: Lease)
    requires Coherent(env, m) && n == m.(leases := n.leases)
    requires former in m.leases && patched.id == former.id && patched.repoId == former.repoId
    requires UniqueKeys(LeaseKey(), m.leases)
    requires forall y :: y in n.leases <==> y == patched || (y in m.leases && LeaseKey()(y) != LeaseKey()(patched))
    ensures Coherent(env, n)
  {
    forall x | x in n.simulations && x.branchLeaseId.Some?
      ensures Names(n.leases, x)
    {
      assert Names(m.leases, x);
      var l :| l in m.leases && l.id == x.branchLeaseId.value && l.repoId == x.repoId;
      if l.id == former.id {
        LookupIs(LeaseKey(), m.leases, l);
        LookupIs(LeaseKey(), m.leases, former);
        assert patched in n.leases;
      } else {
        assert l in n.leases;
      }
    }
  }

  lemma UpdateLeaseAgrees(env: Env, m: Snapshot, t: Snapshot, id: Id, patch: LeasePatch, now: Millis)
    requires Related(m, t) && Coherent(env, m)
    ensures var r, q := UpdateLease(InMemory, m, id, patch, now), UpdateLease(Postgres, t, id, patch, now);
            r.result == q.result && Related(r.state, q.state) && Coherent(env, r.state)
  {
    LookupAgrees(LeaseKey(), id, m.leases, t.leases);
    var found := Lookup(LeaseKey(), id, m.leases);
    LookupFresh(LeaseKey(), id, m.leases);
    if found.Some? {
      var patched := PatchLease(found.value, patch, now);
      ReplaceAgrees(LeaseKey(), m.leases, t.leases, patched);
      PutMembers(LeaseKey(), m.leases, patched);
      PatchedStaysCoherent(env, m, UpdateLease(InMemory, m, id, patch, now).state, found.value, patched);
    }
  }

  lemma UpdateEntryAgrees(env: Env, m: Snapshot, t: Snapshot, id: Id, patch: QueuePatch, now: Millis)
    requires Related(m, t) && Coherent(env, m)
    ensures var r, q := UpdateEntry(InMemory, m, id, patch, now), UpdateEntry(Postgres, t, id, patch, now);
            r.result == q.result && Related(r.state, q.state) && Coherent(env, r.state)
  {
    LookupAgrees(QueueKey(), id, m.queue, t.queue);
    var found := Lookup(QueueKey(), id, m.queue);
    LookupFresh(QueueKey(), id, m.queue);
    if found.Some? {
      var patched := PatchEntry(found.value, patch, now);
      ReplaceAgrees(QueueKey(), m.queue, t.queue, patched);
      PutMembers(QueueKey(), m.queue, patched);
    }
  }

  lemma FinishAgrees(env: Env, m: Snapshot, t: Snapshot, id: Id, patch: QueuePatch, now: Millis)
    requires Related(m, t) && Coherent(env, m)
    ensures var r, q := Finish(InMemory, m, id, patch, now), Finish(Postgres, t, id, patch, now);
            r.result == q.result && Related(r.state, q.state) && Coherent(env, r.state)
  {
    LookupAgrees(QueueKey(), id, m.queue, t.queue);
    var found := Lookup(QueueKey(), id, m.queue);
    if found.Some? {
      var release := LeasePatch(Some(Released), Some(now), None);
      UpdateLeaseAgrees(env, m, t, found.value.branchLeaseId, release, now);
      var r := ReleaseLease(InMemory, m, found.value.branchLeaseId, now);
      var q := ReleaseLease(Postgres, t, found.value.branchLeaseId, now);
      UpdateEntryAgrees(env, r.state, q.state, id, patch, now);
    }
  }

  lemma ImagesAgree(f: QueueEntry -> QueueEntry, g: QueueEntry -> QueueEntry,
                    s: seq<QueueEntry>, t: seq<QueueEntry>, x: seq<QueueEntry>, y: seq<QueueEntry>)
    requires SameElements(s, t) && (forall e :: e in s ==> f(e) == g(e))
    requires IsImage(f, s, x) && IsImage(g, t, y)
    ensures SameElements(x, y)
  {
  }

  lemma RefreshAgrees(env: Env, m: Snapshot, t: Snapshot, lease: Id, now: Millis)
    requires env.Valid() && env.NamesPairs() && Related(m, t) && Coherent(env, m) && lease != ""
    ensures var r, q := RefreshLease(InMemory, env, m, lease, now), RefreshLease(Postgres, env, t, lease, now);
            Related(r, q) && Coherent(env, r)
  {
    RefreshLeaseIsExact(InMemory, env, m, lease, now);
    RefreshLeaseIsExact(Postgres, env, t, lease, now);
    FieldsAgree(env, m, t, lease);
    RefreshedAgree(env, m, t, lease, now,
                   RefreshLease(InMemory, env, m, lease, now), RefreshLease(Postgres, env, t, lease, now));
  }

  lemma RefreshedAgree(env: Env, m: Snapshot, t: Snapshot, lease: Id, now: Millis, r: Snapshot, q: Snapshot)
    requires Related(m, t) && Coherent(env, m)
    requires Fields(Postgres, env, t, lease) == Fields(InMemory, env, m, lease)
    requires r == m.(queue := r.queue) && UniqueKeys(QueueKey(), r.queue)
    requires q == t.(queue := q.queue) && UniqueKeys(QueueKey(), q.queue)
    requires IsImage(RefreshedLease(InMemory, env, m, lease, now), m.queue, r.queue)
    requires IsImage(RefreshedLease(Postgres, env, t, lease, now), t.queue, q.queue)
    ensures Related(r, q) && Coherent(env, r)
  {
    var f, g := RefreshedLease(InMemory, env, m, lease, now), RefreshedLease(Postgres, env, t, lease, now);
    forall e: QueueEntry
      ensures f(e) == g(e) && f(e).branchLeaseId == e.branchLeaseId
    {
      assert LiveOf(lease)(e) ==> f(e) == PatchEntry(e, Refresh(Fields(InMemory, env, m, lease)), now);
      assert LiveOf(lease)(e) ==> g(e) == PatchEntry(e, Refresh(Fields(Postgres, env, t, lease)), now);
    }
    ImagesAgree(f, g, m.queue, t.queue, r.queue, q.queue);
  }

  // ----- what a refresh returns -----

  lemma UniqueImages(f: QueueEntry -> QueueEntry, s: seq<QueueEntry>)
    requires UniqueKeys(QueueKey(), s) && forall e :: e in s ==> f(e).id == e.id
    ensures NoDup(Map(f, s))
  {
    forall i, j | 0 <= i < j < |s|
      ensures Map(f, s)[i] != Map(f, s)[j]
    {
      assert s[i] in s && s[j] in s;
    }
  }

  lemma SameImages(f: QueueEntry -> QueueEntry, s: seq<QueueEntry>, t: seq<QueueEntry>, x: QueueEntry)
    requires SameElements(s, t) && x in Map(f, s)
    ensures x in Map(f, t)
  {
    var k :| 0 <= k < |s| && Map(f, s)[k] == x;
    assert s[k] in t;
    var j :| 0 <= j < |t| && t[j] == s[k];
    assert Map(f, t)[j] == x;
  }

  lemma SameImageMultiset(f: QueueEntry -> QueueEntry, s: seq<QueueEntry>, t: seq<QueueEntry>)
    requires UniqueKeys(QueueKey(), s) && UniqueKeys(QueueKey(), t) && SameElements(s, t)
    requires forall e :: e in s ==> f(e).id == e.id
    ensures multiset(Map(f, s)) == multiset(Map(f, t))
  {
    UniqueImages(f, s);
    UniqueImages(f, t);
    forall x
      ensures x in Map(f, s) <==> x in Map(f, t)
    {
      if x in Map(f, s) {
        SameImages(f, s, t, x);
      }
      if x in Map(f, t) {
        SameImages(f, t, s, x);
      }
    }
    SameMultiset(Map(f, s), Map(f, t));
  }

  /** Both stores return the in-memory refreshed entries, each for its own list of live ones. */
  lemma ReturnedAre(env: Env, m: Snapshot, t: Snapshot, lease: Id, now: Millis)
    requires env.Valid() && env.NamesPairs() && Related(m, t) && Coherent(env, m) && lease != ""
    ensures var f := RefreshedLease(InMemory, env, m, lease, now);
            && RefreshResults(InMemory, env, m, RefreshIds(InMemory, env, m, lease), now) == Map(f, LiveEntries(InMemory, env, m, lease))
            && RefreshResults(Postgres, env, t, RefreshIds(Postgres, env, t, lease), now) == Map(f, LiveEntries(Postgres, env, t, lease))
  {
    RefreshReturnsRefreshed(InMemory, env, m, lease, now);
    RefreshReturnsRefreshed(Postgres, env, t, lease, now);
    FieldsAgree(env, m, t, lease);
    MapCongruent(RefreshedLease(InMemory, env, m, lease, now), RefreshedLease(Postgres, env, t, lease, now),
                 LiveEntries(Postgres, env, t, lease));
  }

  lemma LiveEntriesSame(env: Env, m: Snapshot, t: Snapshot, lease: Id)
    requires Related(m, t)
    ensures UniqueKeys(QueueKey(), LiveEntries(InMemory, env, m, lease)) && UniqueKeys(QueueKey(), LiveEntries(Postgres, env, t, lease))
    ensures SameElements(LiveEntries(InMemory, env, m, lease), LiveEntries(Postgres, env, t, lease))
  {
    LiveEntriesAre(InMemory, env, m, lease);
    LiveEntriesAre(Postgres, env, t, lease);
  }

  /** A refresh returns the same entries from both stores, in some order. */
  lemma RefreshReturnsAgree(env: Env, m: Snapshot, t: Snapshot, lease: Id, now: Millis)
    requires env.Valid() && env.NamesPairs() && Related(m, t) && Coherent(env, m) && lease != ""
    ensures multiset(RefreshResults(InMemory, env, m, RefreshIds(InMemory, env, m, lease), now))
         == multiset(RefreshResults(Postgres, env, t, RefreshIds(Postgres, env, t, lease), now))
  {
    ReturnedAre(env, m, t, lease, now);
    LiveEntriesSame(env, m, t, lease);
    SameImageMultiset(RefreshedLease(InMemory, env, m, lease, now), LiveEntries(InMemory, env, m, lease),
                      LiveEntries(Postgres, env, t, lease));
  }

  lemma RescoreAgrees(env: Env, m: Snapshot, t: Snapshot, x: Simulation, id: Id, now: Millis)
    requires env.Valid() && env.NamesPairs() && Related(m, t) && Coherent(env, m)
    ensures var r, q := RescoreTask(InMemory, env, m, x, id, now), RescoreTask(Postgres, env, t, x, id, now);
            r.result == q.result && Related(r.state, q.state) && Coherent(env, r.state)
  {
    LookupAgrees(LeaseKey(), id, m.leases, t.leases);
    var lease := Lookup(LeaseKey(), id, m.leases);
    if lease.Some? {
      LeaseRisksAgree(env, m, t, lease.value.id);
      var highest := HighestRisk(InMemory, env, m, lease.value.id);
      var score := Max(if highest.Some? then highest.value.riskScore else 0.0, x.riskContribution);
      UpdateTaskAgrees(env, m, t, lease.value.taskId, TaskPatch(None, Some(score), None), now);
    }
  }

  lemma InsertAgrees(env: Env, m: Snapshot, t: Snapshot, x: Simulation)
    requires Related(m, t) && Coherent(env, m)
    requires Keyed.Fresh(SimulationKey(), x.id, m.simulations) && (x.branchLeaseId.Some? ==> Names(m.leases, x))
    requires JoinsAlike(env, m.simulations, x)
    ensures var r, q := m.(simulations := m.simulations + [x]), t.(simulations := t.simulations + [x]);
            Related(r, q) && Coherent(env, r)
  {
    AppendAgrees(SimulationKey(), m.simulations, t.simulations, x);
    TiesAlikeAppend(env, m.simulations, x);
  }

  lemma RefreshAfterAgrees(env: Env, r: Step<Simulation>, q: Step<Simulation>, id: Id, now: Millis)
    requires env.Valid() && env.NamesPairs() && id != ""
    requires Related(r.state, q.state) && Coherent(env, r.state) && r.result == q.result
    ensures var x, y := RefreshAfter(InMemory, env, r, id, now), RefreshAfter(Postgres, env, q, id, now);
            x.result == y.result && Related(x.state, y.state) && Coherent(env, x.state)
  {
    RefreshAgrees(env, r.state, q.state, id, now);
  }

  lemma RecordAgrees(env: Env, m: Snapshot, t: Snapshot, x: Simulation, now: Millis)
    requires env.Valid() && env.NamesPairs() && Related(m, t) && Coherent(env, m)
    requires Keyed.Fresh(SimulationKey(), x.id, m.simulations) && (x.branchLeaseId.Some? ==> Names(m.leases, x))
    requires JoinsAlike(env, m.simulations, x)
    ensures var r, q := RecordSimulation(InMemory, env, m, x, now), RecordSimulation(Postgres, env, t, x, now);
            r.result == q.result && Related(r.state, q.state) && Coherent(env, r.state)
  {
    InsertAgrees(env, m, t, x);
    LookupFresh(SimulationKey(), x.id, t.simulations);
    if x.branchLeaseId.Some? && x.branchLeaseId.value != "" {
      var id := x.branchLeaseId.value;
      var r, q := m.(simulations := m.simulations + [x]), t.(simulations := t.simulations + [x]);
      RescoreAgrees(env, r, q, x, id, now);
      RefreshAfterAgrees(env, RescoreTask(InMemory, env, r, x, id, now), RescoreTask(Postgres, env, q, x, id, now), id, now);
    }
  }

  lemma EnqueueAgrees(env: Env, m: Snapshot, t: Snapshot, input: QueueInput, id: Id, now: Millis)
    requires env.Valid() && env.NamesPairs() && Related(m, t) && Coherent(env, m)
    requires Keyed.Fresh(QueueKey(), id, m.queue) && input.branchLeaseId != ""
    ensures var r, q := Enqueue(InMemory, env, m, input, id, now), Enqueue(Postgres, env, t, input, id, now);
            Related(r, q) && Coherent(env, r)
  {
    FieldsAgree(env, m, t, input.branchLeaseId);
    AppendAgrees(QueueKey(), m.queue, t.queue, NewEntry(input, Fields(InMemory, env, m, input.branchLeaseId), id, now));
  }

  lemma AddLeaseAgrees(env: Env, m: Snapshot, t: Snapshot, lease: Lease)
    requires Related(m, t) && Coherent(env, m)
    requires Keyed.Fresh(LeaseKey(), lease.id, m.leases) && MadeLeaseId(lease.id) && lease.repoId != ""
    ensures Related(CreateLease(m, lease), CreateLease(t, lease)) && Coherent(env, CreateLease(m, lease))
  {
    AppendAgrees(LeaseKey(), m.leases, t.leases, lease);
    forall x | x in m.simulations && x.branchLeaseId.Some?
      ensures Names(m.leases + [lease], x)
    {
      assert Names(m.leases, x);
    }
  }

  /** One call: same outcome, and the states stay related. */
  lemma CallAgrees(env: Env, m: Snapshot, t: Snapshot, op: Op)
    requires env.Valid() && env.NamesPairs()
    requires Related(m, t) && Coherent(env, m) && Legal(m, op) && Matching(env, m, op)
    ensures var r, q := Apply(InMemory, env, m, op), Apply(Postgres, env, t, op);
            r.1 == q.1 && Related(r.0, q.0) && Coherent(env, r.0)
  {
    match op
    case AddRepo(repo) => AppendAgrees(RepoKey(), m.repos, t.repos, repo);
    case AddTask(task, auditId, now) => AppendAgrees(TaskKey(), m.tasks, t.tasks, task);
    case PatchTaskOp(id, patch, now) => UpdateTaskAgrees(env, m, t, id, patch, now);
    case Transition(id, status, auditId, now) => TransitionAgrees(env, m, t, id, status, auditId, now);
    case Audit(log) =>
    case AddLease(lease) => AddLeaseAgrees(env, m, t, lease);
    case SyncLeaseFiles(id, files, now) => UpdateLeaseAgrees(env, m, t, id, LeasePatch(None, None, Some(files)), now);
    case Release(id, now) => UpdateLeaseAgrees(env, m, t, id, LeasePatch(Some(Released), Some(now), None), now);
    case Simulate(x, now) => RecordAgrees(env, m, t, x, now);
    case AddEntry(input, id, now) =>
      EnqueueAgrees(env, m, t, input, id, now);
      FieldsAgree(env, m, t, input.branchLeaseId);
    case RefreshLive(id, now) =>
      RefreshAgrees(env, m, t, id, now);
      RefreshReturnsAgree(env, m, t, id, now);
    case Merge(id, now) => FinishAgrees(env, m, t, id, MarkMerged, now);
    case CancelOp(id, reason, now) =>
      LookupAgrees(QueueKey(), id, m.queue, t.queue);
      var found := Lookup(QueueKey(), id, m.queue);
      FinishAgrees(env, m, t, id, Cancel(if found.None? then [reason] else found.value.fields.reasons + [reason]), now);
  }

  // ----- whole runs -----

  ghost predicate MatchingRun(env: Env, m: Snapshot, ops: seq<Op>)
    decreases |ops|
  {
    ops == []
    || (Legal(m, ops[0]) && Matching(env, m, ops[0]) && MatchingRun(env, Apply(InMemory, env, m, ops[0]).0, ops[1..]))
  }

  function Outcomes(b: Backend, env: Env, s: Snapshot, ops: seq<Op>): seq<Outcome>
    decreases |ops|
  {
    if ops == [] then []
    else var r := Apply(b, env, s, ops[0]); [r.1] + Outcomes(b, env, r.0, ops[1..])
  }

  /** Every run: call by call the two stores return the same outcomes, and afterwards they hold the same records. Neither
      ordered clocks nor agreeing collations are assumed, only that ties within a lease are ordered alike. */
  lemma {:induction false} RunsAgree(env: Env, m: Snapshot, t: Snapshot, ops: seq<Op>)
    requires env.Valid() && env.NamesPairs()
    requires Related(m, t) && Coherent(env, m) && MatchingRun(env, m, ops)
    ensures Outcomes(InMemory, env, m, ops) == Outcomes(Postgres, env, t, ops)
    ensures Related(Run(InMemory, env, m, ops), Run(Postgres, env, t, ops)) && Coherent(env, Run(InMemory, env, m, ops))
    decreases |ops|
  {
    if ops != [] {
      CallAgrees(env, m, t, ops[0]);
      RunsAgree(env, Apply(InMemory, env, m, ops[0]).0, Apply(Postgres, env, t, ops[0]).0, ops[1..]);
    }
  }

  /** So after every run from the empty stores, every repo's and every lease's risk list, every lease's queue fields and
      every task and entry read the same. */
  lemma ObservablesAgree(env: Env, ops: seq<Op>, repo: Id, id: Id)
    requires env.Valid() && env.NamesPairs() && MatchingRun(env, Empty, ops)
    requires repo != "" && id != ""
    ensures var m, t := Run(InMemory, env, Empty, ops), Run(Postgres, env, Empty, ops);
            && RepoRiskList(Postgres, env, t, repo) == RepoRiskList(InMemory, env, m, repo)
            && LeaseRiskList(Postgres, env, t, id) == LeaseRiskList(InMemory, env, m, id)
            && Fields(Postgres, env, t, id) == Fields(InMemory, env, m, id)
            && Lookup(TaskKey(), id, t.tasks) == Lookup(TaskKey(), id, m.tasks)
            && Lookup(QueueKey(), id, t.queue) == Lookup(QueueKey(), id, m.queue)
  {
    RunsAgree(env, Empty, Empty, ops);
    var m, t := Run(InMemory, env, Empty, ops), Run(Postgres, env, Empty, ops);
    RepoRisksAgree(env, m, t, repo);
    FieldsAgree(env, m, t, id);
    LeaseRisksAgree(env, m, t, id);
    LookupAgrees(TaskKey(), id, m.tasks, t.tasks);
    LookupAgrees(QueueKey(), id, m.queue, t.queue);
  }
}
