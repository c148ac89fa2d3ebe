/** The risk theorems for the stores' own lists: finishing a queue entry, and the lease, run and repo views. */
module StoreRisks {
  import opened Sequences
  import opened Domain
  import opened Keyed
  import opened ConflictRisks
  import opened RiskTheorems
  import opened LatestSimulation
  import opened Queue
  import opened Stores
  import opened Agreement

  lemma {:induction false} AllRiskListIs(env: Env, s: Snapshot, repos: seq<Repo>)
    ensures AllRiskList(InMemory, env, s, repos)
         == AllRepoRisks(env.RiskOrder(), Score(InMemory, env, s.simulations), repos, s.leases)
  {
    if repos != [] {
      AllRiskListIs(env, s, repos[1..]);
    }
  }

  function LeaseRiskLists(env: Env, s: Snapshot, leases: seq<Lease>): seq<ConflictRisk> {
    if leases == [] then []
    else LeaseRiskList(InMemory, env, s, leases[0].id) + LeaseRiskLists(env, s, leases[1..])
  }

  lemma {:induction false} LeaseRiskListsAre(env: Env, s: Snapshot, leases: seq<Lease>)
    ensures multiset(LeaseRiskLists(env, s, leases))
         == LeaseRiskSum(env.RiskOrder(), Score(InMemory, env, s.simulations), s.leases, leases)
  {
    if leases != [] {
      LeaseRiskListsAre(env, s, leases[1..]);
    }
  }

  /** computeConflictRisksForLease over the repo's active leases lists every risk of computeRepoConflictRisks
      twice and nothing else. */
  lemma RepoListIsHalfOfLeaseLists(env: Env, s: Snapshot, repo: Id)
    requires env.Valid() && s.UniqueIds()
    ensures var listed := multiset(RepoRiskList(InMemory, env, s, repo));
            multiset(LeaseRiskLists(env, s, ActiveLeases(s.leases, repo))) == listed + listed
    ensures |LeaseRiskLists(env, s, ActiveLeases(s.leases, repo))| == 2 * |RepoRiskList(InMemory, env, s, repo)|
  {
    var active := ActiveLeases(s.leases, repo);
    MemoryIsPairwise(env, s.simulations);
    Handshake(env.RiskOrder(), Score(InMemory, env, s.simulations), s.leases, repo);
    LeaseRiskListsAre(env, s, active);
    assert |multiset(LeaseRiskLists(env, s, active))| == |LeaseRiskLists(env, s, active)|;
  }

  /** computeConflictRisksForTaskRun is the disjoint union of computeConflictRisksForLease over the run's
      leases in registered repos. */
  lemma RunListIsUnionOfLeaseLists(env: Env, s: Snapshot, run: Id)
    requires env.Valid() && s.UniqueIds()
    ensures var own := Filter(OfRunIn(s.repos, run), s.leases);
            && multiset(RunRiskList(InMemory, env, s, run)) == multiset(LeaseRiskLists(env, s, own))
            && |RunRiskList(InMemory, env, s, run)| == |LeaseRiskLists(env, s, own)|
    ensures DistinctEnds(RunRiskList(InMemory, env, s, run))
  {
    var own := Filter(OfRunIn(s.repos, run), s.leases);
    MemoryIsPairwise(env, s.simulations);
    RiskOrderTotal(env);
    AllRiskListIs(env, s, s.repos);
    TaskRunIsDisjointUnion(env.RiskOrder(), Score(InMemory, env, s.simulations), s.repos, s.leases, run);
    LeaseRiskListsAre(env, s, own);
    assert |multiset(LeaseRiskLists(env, s, own))| == |LeaseRiskLists(env, s, own)|;
  }

  lemma ReleaseDeactivates(s: Snapshot, id: Id, now: Millis)
    requires s.UniqueIds() && Lookup(LeaseKey(), id, s.leases).Some?
    ensures var t := ReleaseLease(InMemory, s, id, now).state;
            t == s.(leases := t.leases) && Deactivates(s.leases, t.leases, id)
  {
    LookupFresh(LeaseKey(), id, s.leases);
    var lease := Lookup(LeaseKey(), id, s.leases).value;
    PutMembers(LeaseKey(), s.leases, PatchLease(lease, LeasePatch(Some(Released), Some(now), None), now));
  }

  lemma FinishedLeases(s: Snapshot, id: Id, patch: QueuePatch, now: Millis)
    requires Finish(InMemory, s, id, patch, now).result.Ok?
    ensures var t := Finish(InMemory, s, id, patch, now).state;
            var lease := Lookup(QueueKey(), id, s.queue).value.branchLeaseId;
            && t.simulations == s.simulations && Lookup(LeaseKey(), lease, s.leases).Some?
            && t.leases == ReleaseLease(InMemory, s, lease, now).state.leases
  {
  }

  lemma DeactivatedLists(env: Env, s: Snapshot, t: Snapshot, lease: Lease, repo: Id)
    requires env.Valid() && s.UniqueIds() && Lookup(LeaseKey(), lease.id, s.leases) == Some(lease)
    requires t.simulations == s.simulations && Deactivates(s.leases, t.leases, lease.id)
    ensures RepoRiskList(InMemory, env, t, repo) == Filter(Avoids(lease.id), RepoRiskList(InMemory, env, s, repo))
    ensures if lease.repoId == repo then
              |RepoRiskList(InMemory, env, t, repo)|
                == |RepoRiskList(InMemory, env, s, repo)| - |LeaseRiskList(InMemory, env, s, lease.id)|
            else RepoRiskList(InMemory, env, t, repo) == RepoRiskList(InMemory, env, s, repo)
  {
    MemoryIsPairwise(env, s.simulations);
    RiskOrderTotal(env);
    ReleaseRemovesItsPairs(env.RiskOrder(), Score(InMemory, env, s.simulations), s.leases, t.leases, lease.id, repo);
  }

  /** Marking an entry merged, or cancelling it, turns every repo's risk list into the old list without the pairs
      that touch the entry's lease; the lease's own repo loses as many risks as the lease had, every other
      repo's list is unchanged. */
  lemma FinishingRemovesPairs(env: Env, s: Snapshot, id: Id, patch: QueuePatch, now: Millis, repo: Id)
    requires env.Valid() && s.UniqueIds() && Finish(InMemory, s, id, patch, now).result.Ok?
    ensures var t := Finish(InMemory, s, id, patch, now).state;
            var lease := Lookup(LeaseKey(), Lookup(QueueKey(), id, s.queue).value.branchLeaseId, s.leases).value;
            && RepoRiskList(InMemory, env, t, repo) == Filter(Avoids(lease.id), RepoRiskList(InMemory, env, s, repo))
            && (if lease.repoId == repo then
                  |RepoRiskList(InMemory, env, t, repo)|
                    == |RepoRiskList(InMemory, env, s, repo)| - |LeaseRiskList(InMemory, env, s, lease.id)|
                else RepoRiskList(InMemory, env, t, repo) == RepoRiskList(InMemory, env, s, repo))
  {
    var t := Finish(InMemory, s, id, patch, now).state;
    var leaseId := Lookup(QueueKey(), id, s.queue).value.branchLeaseId;
    FinishedLeases(s, id, patch, now);
    ReleaseDeactivates(s, leaseId, now);
    LookupFresh(LeaseKey(), leaseId, s.leases);
    DeactivatedLists(env, s, t, Lookup(LeaseKey(), leaseId, s.leases).value, repo);
  }

  // ----- the Postgres lists -----

  /** The Postgres pair score within a repo; between repos, where no list looks, any symmetric score will do. */
  function RowScore(env: Env, simulations: seq<Simulation>): PairScore {
    (a: Lease, b: Lease) => env.score(a, b, RowSimulation(env, simulations, a, b))
  }

  function RowSimulation(env: Env, simulations: seq<Simulation>, a: Lease, b: Lease): Option<Simulation> {
    if a.repoId == b.repoId then SimulationOfPair(Postgres, env, simulations, a, b) else None
  }

  lemma RowSimulationIsSymmetric(env: Env, simulations: seq<Simulation>, a: Lease, b: Lease)
    ensures RowSimulation(env, simulations, a, b) == RowSimulation(env, simulations, b, a)
  {
    RowPairIsSymmetric(env, simulations, a.repoId, a.id, b.id);
  }

  lemma RowScoreIsPairwise(env: Env, simulations: seq<Simulation>)
    requires env.Valid()
    ensures Pairwise(RowScore(env, simulations))
  {
    var risk := RowScore(env, simulations);
    forall a: Lease, b: Lease
      ensures ScoresPair(risk(a, b), a, b)
    {
      var x := RowSimulation(env, simulations, a, b);
      assert ScoresPair(env.score(a, b, x), a, b);
      assert risk(a, b) == env.score(a, b, x);
    }
    forall a: Lease, b: Lease | a.id != b.id
      ensures risk(a, b) == risk(b, a)
    {
      RowSimulationIsSymmetric(env, simulations, a, b);
      var x := RowSimulation(env, simulations, a, b);
      assert env.score(a, b, x) == env.score(b, a, x);
      assert risk(a, b) == env.score(a, b, x) && risk(b, a) == env.score(b, a, x);
    }
  }

  lemma RowScoreWithin(env: Env, simulations: seq<Simulation>, a: Lease, b: Lease)
    requires a.repoId == b.repoId
    ensures Score(Postgres, env, simulations)(a, b) == RowScore(env, simulations)(a, b)
  {
    assert RowSimulation(env, simulations, a, b) == SimulationOfPair(Postgres, env, simulations, a, b);
  }

  /** The table's rows in the order the lists read them. */
  function LeaseTable(env: Env, s: Snapshot): seq<Lease> {
    Sort(env.LeaseRows(), s.leases)
  }

  lemma LeaseTableIs(env: Env, s: Snapshot)
    requires UniqueKeys(LeaseKey(), s.leases)
    ensures UniqueLeases(LeaseTable(env, s)) && SameElements(LeaseTable(env, s), s.leases)
  {
    SortKeepsUnique(env, s.leases);
    SortMembers(env.LeaseRows(), s.leases);
  }

  lemma ActiveTable(env: Env, s: Snapshot, repo: Id)
    requires repo != ""
    ensures ActiveOf(Postgres, env, s.leases, repo) == ActiveLeases(LeaseTable(env, s), repo)
  {
    RowOrdersTotal(env);
    FilterCongruent(ActiveRow(repo), ActiveIn(repo), s.leases);
    FilterSort(env.LeaseRows(), ActiveIn(repo), s.leases);
  }

  lemma RowRepoRisks(env: Env, s: Snapshot, repo: Id)
    requires repo != ""
    ensures RepoRiskList(Postgres, env, s, repo) == RepoRisks(env.RiskOrder(), RowScore(env, s.simulations), LeaseTable(env, s), repo)
  {
    ActiveTable(env, s, repo);
    var active := ActiveLeases(LeaseTable(env, s), repo);
    FilterMembers(ActiveIn(repo), LeaseTable(env, s));
    forall x, y | x in active && y in active
      ensures Score(Postgres, env, s.simulations)(x, y) == RowScore(env, s.simulations)(x, y)
    {
      RowScoreWithin(env, s.simulations, x, y);
    }
    PairsCongruent(Score(Postgres, env, s.simulations), RowScore(env, s.simulations), active);
  }

  lemma RowLeaseRisks(env: Env, s: Snapshot, lease: Lease)
    requires UniqueKeys(LeaseKey(), s.leases) && lease in s.leases && lease.repoId != ""
    ensures LeaseRiskList(Postgres, env, s, lease.id)
         == LeaseRisks(env.RiskOrder(), RowScore(env, s.simulations), LeaseTable(env, s), lease.id)
  {
    LeaseTableIs(env, s);
    LookupIs(LeaseKey(), s.leases, lease);
    FindLease(LeaseTable(env, s), lease);
    ActiveTable(env, s, lease.repoId);
    var partners := Filter(Partner(lease), ActiveLeases(LeaseTable(env, s), lease.repoId));
    FilterMembers(ActiveIn(lease.repoId), LeaseTable(env, s));
    FilterMembers(Partner(lease), ActiveLeases(LeaseTable(env, s), lease.repoId));
    forall t | t in partners
      ensures Score(Postgres, env, s.simulations)(lease, t) == RowScore(env, s.simulations)(lease, t)
    {
      RowScoreWithin(env, s.simulations, lease, t);
    }
    MapCongruent(ScoreAgainst(Score(Postgres, env, s.simulations), lease), ScoreAgainst(RowScore(env, s.simulations), lease), partners);
  }

  function RowRiskLists(env: Env, s: Snapshot, leases: seq<Lease>): seq<ConflictRisk> {
    if leases == [] then [] else LeaseRiskList(Postgres, env, s, leases[0].id) + RowRiskLists(env, s, leases[1..])
  }

  lemma {:induction false} RowRiskListsAre(env: Env, s: Snapshot, leases: seq<Lease>)
    requires UniqueKeys(LeaseKey(), s.leases)
    requires forall l :: l in leases ==> l in s.leases && l.repoId != ""
    ensures multiset(RowRiskLists(env, s, leases))
         == LeaseRiskSum(env.RiskOrder(), RowScore(env, s.simulations), LeaseTable(env, s), leases)
  {
    if leases != [] {
      assert leases[0] in leases;
      RowLeaseRisks(env, s, leases[0]);
      RowRiskListsAre(env, s, leases[1..]);
    }
  }

  /** The handshake law for Postgres, whatever repos the simulations name. */
  lemma RowListIsHalfOfLeaseLists(env: Env, s: Snapshot, repo: Id)
    requires env.Valid() && s.UniqueIds() && repo != ""
    ensures var listed := multiset(RepoRiskList(Postgres, env, s, repo));
            multiset(RowRiskLists(env, s, ActiveOf(Postgres, env, s.leases, repo))) == listed + listed
  {
    var active := ActiveOf(Postgres, env, s.leases, repo);
    ActiveTable(env, s, repo);
    LeaseTableIs(env, s);
    FilterMembers(ActiveIn(repo), LeaseTable(env, s));
    RowScoreIsPairwise(env, s.simulations);
    RowRepoRisks(env, s, repo);
    RowRiskListsAre(env, s, active);
    Handshake(env.RiskOrder(), RowScore(env, s.simulations), LeaseTable(env, s), repo);
  }

  lemma {:induction false} AllRowRisks(env: Env, s: Snapshot, repos: seq<Repo>)
    requires forall r :: r in repos ==> r.id != ""
    ensures AllRiskList(Postgres, env, s, repos)
         == AllRepoRisks(env.RiskOrder(), RowScore(env, s.simulations), repos, LeaseTable(env, s))
  {
    if repos != [] {
      assert repos[0] in repos;
      RowRepoRisks(env, s, repos[0].id);
      AllRowRisks(env, s, repos[1..]);
    }
  }

  /** The task-run law for Postgres: its list is the disjoint union of the lists of the run's leases in registered repos. */
  lemma RowRunListIsUnion(env: Env, s: Snapshot, run: Id)
    requires env.Valid() && s.UniqueIds()
    requires (forall r :: r in s.repos ==> r.id != "") && (forall l :: l in s.leases ==> l.repoId != "")
    ensures var own := Filter(OfRunIn(ReposOf(Postgres, env, s.repos), run), LeaseTable(env, s));
            multiset(RunRiskList(Postgres, env, s, run)) == multiset(RowRiskLists(env, s, own))
    ensures DistinctEnds(RunRiskList(Postgres, env, s, run))
  {
    var repos := ReposOf(Postgres, env, s.repos);
    var own := Filter(OfRunIn(repos, run), LeaseTable(env, s));
    RepoTableIs(env, s);
    LeaseTableIs(env, s);
    RiskOrderTotal(env);
    RowScoreIsPairwise(env, s.simulations);
    AllRowRisks(env, s, repos);
    assert RunLeaseIds(s.leases, run) == RunLeaseIds(LeaseTable(env, s), run);
    FilterMembers(OfRunIn(repos, run), LeaseTable(env, s));
    RowRiskListsAre(env, s, own);
    TaskRunIsDisjointUnion(env.RiskOrder(), RowScore(env, s.simulations), repos, LeaseTable(env, s), run);
  }

  lemma RepoTableIs(env: Env, s: Snapshot)
    requires UniqueKeys(RepoKey(), s.repos)
    ensures UniqueRepos(ReposOf(Postgres, env, s.repos)) && SameElements(ReposOf(Postgres, env, s.repos), s.repos)
  {
    var r := ReposOf(Postgres, env, s.repos);
    RowOrdersTotal(env);
    UniqueKeysNoDup(RepoKey(), s.repos);
    SortNoDup(env.RepoRows(), s.repos);
    SortMembers(env.RepoRows(), s.repos);
    forall i, j | 0 <= i < j < |r|
      ensures r[i].id != r[j].id
    {
      assert r[i] in s.repos && r[j] in s.repos;
      LookupIs(RepoKey(), s.repos, r[i]);
      LookupIs(RepoKey(), s.repos, r[j]);
    }
  }

  lemma PutStaysSorted(env: Env, table: seq<Lease>, former: Lease, patched: Lease)
    requires Sorted(env.LeaseRows(), table) && UniqueKeys(LeaseKey(), table) && former in table
    requires patched.id == former.id && patched.createdAt == former.createdAt
    ensures Sorted(env.LeaseRows(), Put(LeaseKey(), table, patched))
  {
    LookupIs(LeaseKey(), table, former);
    PutMembers(LeaseKey(), table, patched);
    var after := Put(LeaseKey(), table, patched);
    forall i, j | 0 <= i < j < |after|
      ensures env.LeaseRows()(after[i], after[j])
    {
      LookupIs(LeaseKey(), table, table[i]);
      LookupIs(LeaseKey(), table, table[j]);
      assert env.LeaseRows()(table[i], table[j]);
    }
  }

  lemma LeaseRowsSeparate(env: Env, leases: seq<Lease>)
    requires env.Valid() && UniqueKeys(LeaseKey(), leases)
    ensures Antisymmetric(env.LeaseRows(), leases)
  {
    forall x, y | x in leases && y in leases && x.id == y.id
      ensures x == y
    {
      LookupIs(LeaseKey(), leases, x);
      LookupIs(LeaseKey(), leases, y);
    }
  }

  /** Rewriting a row without touching its time or id is patching it in its place in the listed table. */
  lemma TablePatched(env: Env, leases: seq<Lease>, former: Lease, patched: Lease)
    requires env.Valid() && UniqueKeys(LeaseKey(), leases) && former in leases
    requires patched.id == former.id && patched.createdAt == former.createdAt
    ensures Sort(env.LeaseRows(), Rewrite(LeaseKey(), leases, patched)) == Put(LeaseKey(), Sort(env.LeaseRows(), leases), patched)
  {
    var table := Sort(env.LeaseRows(), leases);
    RowOrdersTotal(env);
    SortKeepsUnique(env, leases);
    SortSorted(env.LeaseRows(), leases);
    SortMembers(env.LeaseRows(), leases);
    PutStaysSorted(env, table, former, patched);
    LookupIs(LeaseKey(), table, former);
    PutMembers(LeaseKey(), table, patched);
    RewriteMembers(LeaseKey(), leases, patched);
    var p, r := Put(LeaseKey(), table, patched), Rewrite(LeaseKey(), leases, patched);
    UniqueKeysNoDup(LeaseKey(), p);
    UniqueKeysNoDup(LeaseKey(), r);
    LeaseRowsSeparate(env, p);
    SortUnique(env.LeaseRows(), p, r);
    SortOfSorted(env.LeaseRows(), p);
  }

  lemma RowReleaseDeactivates(env: Env, s: Snapshot, id: Id, now: Millis)
    requires env.Valid() && UniqueKeys(LeaseKey(), s.leases) && Lookup(LeaseKey(), id, s.leases).Some?
    ensures var t := ReleaseLease(Postgres, s, id, now).state;
            t == s.(leases := t.leases) && Deactivates(LeaseTable(env, s), LeaseTable(env, t), id)
  {
    LookupFresh(LeaseKey(), id, s.leases);
    var former := Lookup(LeaseKey(), id, s.leases).value;
    var patched := PatchLease(former, LeasePatch(Some(Released), Some(now), None), now);
    TablePatched(env, s.leases, former, patched);
    LeaseTableIs(env, s);
    LookupIs(LeaseKey(), LeaseTable(env, s), former);
    PutMembers(LeaseKey(), LeaseTable(env, s), patched);
  }

  lemma RowFinishedLeases(s: Snapshot, id: Id, patch: QueuePatch, now: Millis)
    requires Finish(Postgres, s, id, patch, now).result.Ok?
    ensures var t := Finish(Postgres, s, id, patch, now).state;
            var lease := Lookup(QueueKey(), id, s.queue).value.branchLeaseId;
            && t.simulations == s.simulations && Lookup(LeaseKey(), lease, s.leases).Some?
            && t.leases == ReleaseLease(Postgres, s, lease, now).state.leases
  {
  }

  lemma RowDeactivatedLists(env: Env, s: Snapshot, t: Snapshot, lease: Lease, repo: Id)
    requires env.Valid() && UniqueKeys(LeaseKey(), s.leases) && lease in s.leases && lease.repoId != "" && repo != ""
    requires t.simulations == s.simulations && Deactivates(LeaseTable(env, s), LeaseTable(env, t), lease.id)
    ensures RepoRiskList(Postgres, env, t, repo) == Filter(Avoids(lease.id), RepoRiskList(Postgres, env, s, repo))
    ensures if lease.repoId == repo then
              |RepoRiskList(Postgres, env, t, repo)|
                == |RepoRiskList(Postgres, env, s, repo)| - |LeaseRiskList(Postgres, env, s, lease.id)|
            else RepoRiskList(Postgres, env, t, repo) == RepoRiskList(Postgres, env, s, repo)
  {
    RowScoreIsPairwise(env, s.simulations);
    RiskOrderTotal(env);
    LeaseTableIs(env, s);
    FindLease(LeaseTable(env, s), lease);
    RowRepoRisks(env, s, repo);
    RowRepoRisks(env, t, repo);
    RowLeaseRisks(env, s, lease);
    ReleaseRemovesItsPairs(env.RiskOrder(), RowScore(env, s.simulations), LeaseTable(env, s), LeaseTable(env, t), lease.id, repo);
  }

  /** Finishing an entry in Postgres filters its lease's pairs out of every repo's list in the same way. */
  lemma RowFinishingRemovesPairs(env: Env, s: Snapshot, id: Id, patch: QueuePatch, now: Millis, repo: Id)
    requires env.Valid() && s.UniqueIds() && Finish(Postgres, s, id, patch, now).result.Ok?
    requires repo != "" && forall l :: l in s.leases ==> l.repoId != ""
    ensures var t := Finish(Postgres, s, id, patch, now).state;
            var lease := Lookup(LeaseKey(), Lookup(QueueKey(), id, s.queue).value.branchLeaseId, s.leases).value;
            && RepoRiskList(Postgres, env, t, repo) == Filter(Avoids(lease.id), RepoRiskList(Postgres, env, s, repo))
            && (if lease.repoId == repo then
                  |RepoRiskList(Postgres, env, t, repo)|
                    == |RepoRiskList(Postgres, env, s, repo)| - |LeaseRiskList(Postgres, env, s, lease.id)|
                else RepoRiskList(Postgres, env, t, repo) == RepoRiskList(Postgres, env, s, repo))
  {
    var t := Finish(Postgres, s, id, patch, now).state;
    var leaseId := Lookup(QueueKey(), id, s.queue).value.branchLeaseId;
    RowFinishedLeases(s, id, patch, now);
    RowReleaseDeactivates(env, s, leaseId, now);
    LookupFresh(LeaseKey(), leaseId, s.leases);
    RowDeactivatedLists(env, s, t, Lookup(LeaseKey(), leaseId, s.leases).value, repo);
  }
}
