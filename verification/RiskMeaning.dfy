/** What the risk lists hold and how they are ordered, in the fields of the stored leases, for both stores
    (packages/db/src/repository.ts:311-338, packages/db/src/postgres.ts:358-386). */
module RiskMeaning {
  import opened Sequences
  import opened Domain
  import opened Keyed
  import opened ConflictRisks
  import opened RiskTheorems
  import opened LatestSimulation
  import opened Queue
  import opened Stores
  import opened Agreement
  import opened StoreRisks

  /** Two stored leases that the repo's list compares. */
  ghost predicate Compared(s: Snapshot, repo: Id, x: Lease, y: Lease) {
    && x in s.leases && y in s.leases && x.id != y.id
    && x.status == Active && y.status == Active && x.repoId == repo && y.repoId == repo
    && x.taskRunId != y.taskRunId && x.taskId != y.taskId
  }

  function ScoreOf(b: Backend, env: Env, s: Snapshot, x: Lease, y: Lease): ConflictRisk {
    env.score(x, y, SimulationOfPair(b, env, s.simulations, x, y))
  }

  lemma MemoryRepoRisksAre(env: Env, s: Snapshot, repo: Id, r: ConflictRisk)
    requires env.Valid() && s.UniqueIds()
    ensures r in RepoRiskList(InMemory, env, s, repo)
       <==> exists x, y :: Compared(s, repo, x, y) && r == ScoreOf(InMemory, env, s, x, y)
  {
    var risk := Score(InMemory, env, s.simulations);
    MemoryIsPairwise(env, s.simulations);
    PairRisksAre(env, s, repo, risk, s.leases, r);
    if exists x, y :: Compared(s, repo, x, y) && r == ScoreOf(InMemory, env, s, x, y) {
      var x, y :| Compared(s, repo, x, y) && r == ScoreOf(InMemory, env, s, x, y);
      assert r == risk(x, y);
    }
    if x, y :| Compared(s, repo, x, y) && r == risk(x, y) {
      assert r == ScoreOf(InMemory, env, s, x, y);
    }
  }

  /** For any pair score over a list with the stored leases. */
  lemma PairRisksAre(env: Env, s: Snapshot, repo: Id, risk: PairScore, table: seq<Lease>, r: ConflictRisk)
    requires Pairwise(risk) && s.UniqueIds() && UniqueLeases(table) && SameElements(table, s.leases)
    ensures r in RepoRisks(env.RiskOrder(), risk, table, repo) <==> exists x, y :: Compared(s, repo, x, y) && r == risk(x, y)
  {
    var active := ActiveLeases(table, repo);
    UniqueLeasesFilter(ActiveIn(repo), table);
    FilterMembers(ActiveIn(repo), table);
    PairsMembers(risk, active, r);
    SortMembers(env.RiskOrder(), Pairs(risk, active));
    if PairRisk(risk, active, r) {
      var x, y :| x in active && y in active && x.taskRunId != y.taskRunId && x.taskId != y.taskId && r == risk(x, y);
      UniqueLeasesDiffer(active, x, y);
      assert Compared(s, repo, x, y);
    }
    if x, y :| Compared(s, repo, x, y) && r == risk(x, y) {
      assert x in active && y in active;
    }
  }

  lemma RowRepoRisksAre(env: Env, s: Snapshot, repo: Id, r: ConflictRisk)
    requires env.Valid() && s.UniqueIds() && repo != ""
    ensures r in RepoRiskList(Postgres, env, s, repo)
       <==> exists x, y :: Compared(s, repo, x, y) && r == ScoreOf(Postgres, env, s, x, y)
  {
    var risk := RowScore(env, s.simulations);
    RowScoreIsPairwise(env, s.simulations);
    RowRepoRisks(env, s, repo);
    LeaseTableIs(env, s);
    PairRisksAre(env, s, repo, risk, LeaseTable(env, s), r);
    if x, y :| Compared(s, repo, x, y) && r == ScoreOf(Postgres, env, s, x, y) {
      RowScoreWithin(env, s.simulations, x, y);
      assert r == risk(x, y);
    }
    if x, y :| Compared(s, repo, x, y) && r == risk(x, y) {
      RowScoreWithin(env, s.simulations, x, y);
      assert r == ScoreOf(Postgres, env, s, x, y);
    }
  }

  /** A risk is in a repo's list exactly when it is the score of two different stored leases of the repo, both active, of
      different task runs and different tasks. */
  lemma RepoRisksAre(b: Backend, env: Env, s: Snapshot, repo: Id, r: ConflictRisk)
    requires env.Valid() && s.UniqueIds() && (b == Postgres ==> repo != "")
    ensures r in RepoRiskList(b, env, s, repo) <==> exists x, y :: Compared(s, repo, x, y) && r == ScoreOf(b, env, s, x, y)
  {
    match b
    case InMemory => MemoryRepoRisksAre(env, s, repo, r);
    case Postgres => RowRepoRisksAre(env, s, repo, r);
  }

  lemma PartnersAre(b: Backend, env: Env, s: Snapshot, x: Lease, y: Lease)
    requires b == Postgres ==> x.repoId != ""
    ensures y in Filter(Partner(x), ActiveOf(b, env, s.leases, x.repoId))
       <==> y in s.leases && y.id != x.id && y.status == Active && y.repoId == x.repoId
            && y.taskRunId != x.taskRunId && y.taskId != x.taskId
  {
    FilterMembers(Partner(x), ActiveOf(b, env, s.leases, x.repoId));
    FilterMembers(ActiveIn(x.repoId), s.leases);
    FilterMembers(ActiveRow(x.repoId), s.leases);
    SortMembers(env.LeaseRows(), Filter(ActiveRow(x.repoId), s.leases));
  }

  lemma MapMembers<A(!new), B(!new)>(f: A -> B, s: seq<A>, r: B)
    ensures r in Map(f, s) <==> exists x :: x in s && r == f(x)
  {
    if r in Map(f, s) {
      var k :| 0 <= k < |s| && Map(f, s)[k] == r;
      assert s[k] in s;
    }
    if x :| x in s && r == f(x) {
      var k :| 0 <= k < |s| && s[k] == x;
      assert Map(f, s)[k] == r;
    }
  }

  /** A risk is in a lease's list exactly when the lease is stored and active and the risk is its score against another
      active lease of its repo, of another task run and another task. */
  lemma LeaseRisksAre(b: Backend, env: Env, s: Snapshot, x: Lease, r: ConflictRisk)
    requires s.UniqueIds() && x in s.leases && (b == Postgres ==> x.repoId != "")
    ensures r in LeaseRiskList(b, env, s, x.id)
       <==> x.status == Active
            && exists y: Lease ::
                 && y in s.leases && y.id != x.id && y.status == Active && y.repoId == x.repoId
                 && y.taskRunId != x.taskRunId && y.taskId != x.taskId
                 && r == env.score(x, y, SimulationOfPair(b, env, s.simulations, x, y))
  {
    LookupIs(LeaseKey(), s.leases, x);
    if x.status == Active {
      var partners, f := Filter(Partner(x), ActiveOf(b, env, s.leases, x.repoId)), ScoreAgainst(Score(b, env, s.simulations), x);
      SortMembers(env.RiskOrder(), Map(f, partners));
      MapMembers(f, partners, r);
      forall y
        ensures y in partners <==> y in s.leases && y.id != x.id && y.status == Active && y.repoId == x.repoId
                                   && y.taskRunId != x.taskRunId && y.taskId != x.taskId
        ensures f(y) == env.score(x, y, SimulationOfPair(b, env, s.simulations, x, y))
      {
        PartnersAre(b, env, s, x, y);
      }
    }
  }

  lemma UnknownLeaseHasNoRisks(b: Backend, env: Env, s: Snapshot, id: Id)
    requires forall l :: l in s.leases ==> l.id != id
    ensures LeaseRiskList(b, env, s, id) == []
  {
    LookupFresh(LeaseKey(), id, s.leases);
  }

  lemma {:induction false} AllRisksAre(b: Backend, env: Env, s: Snapshot, repos: seq<Repo>, r: ConflictRisk)
    ensures r in AllRiskList(b, env, s, repos) <==> exists repo :: repo in repos && r in RepoRiskList(b, env, s, repo.id)
  {
    if repos != [] {
      AllRisksAre(b, env, s, repos[1..], r);
      assert repos == [repos[0]] + repos[1..];
    }
  }

  /** The score names x and y, so it touches the run exactly when one of them is of it. */
  lemma TouchesRun(b: Backend, env: Env, s: Snapshot, x: Lease, y: Lease, run: Id)
    requires env.Valid() && s.UniqueIds() && x in s.leases && y in s.leases
    ensures Touches(RunLeaseIds(s.leases, run))(ScoreOf(b, env, s, x, y)) <==> x.taskRunId == run || y.taskRunId == run
  {
    assert ScoresPair(env.score(x, y, SimulationOfPair(b, env, s.simulations, x, y)), x, y);
    RunLeaseIn(s.leases, run, x);
    RunLeaseIn(s.leases, run, y);
  }

  /** Two compared leases of a registered repo, one of them of the run. */
  ghost predicate ComparedForRun(s: Snapshot, run: Id, repo: Repo, x: Lease, y: Lease) {
    repo in s.repos && Compared(s, repo.id, x, y) && (x.taskRunId == run || y.taskRunId == run)
  }

  lemma RunRiskFound(b: Backend, env: Env, s: Snapshot, run: Id, repo: Repo, r: ConflictRisk)
    requires env.Valid() && s.UniqueIds() && (b == Postgres ==> repo.id != "") && repo in s.repos
    requires r in RepoRiskList(b, env, s, repo.id) && Touches(RunLeaseIds(s.leases, run))(r)
    ensures exists x, y :: ComparedForRun(s, run, repo, x, y) && r == ScoreOf(b, env, s, x, y)
  {
    RepoRisksAre(b, env, s, repo.id, r);
    var x, y :| Compared(s, repo.id, x, y) && r == ScoreOf(b, env, s, x, y);
    TouchesRun(b, env, s, x, y, run);
    assert ComparedForRun(s, run, repo, x, y);
  }

  /** A risk is in a run's list exactly when it is the score of two compared leases of a registered repo, one of them of the
      run. */
  lemma RunRisksAre(b: Backend, env: Env, s: Snapshot, run: Id, r: ConflictRisk)
    requires env.Valid() && s.UniqueIds() && (b == Postgres ==> forall repo :: repo in s.repos ==> repo.id != "")
    ensures r in RunRiskList(b, env, s, run)
       <==> exists repo, x, y :: ComparedForRun(s, run, repo, x, y) && r == ScoreOf(b, env, s, x, y)
  {
    var repos, touch := ReposOf(b, env, s.repos), Touches(RunLeaseIds(s.leases, run));
    SortMembers(env.RepoRows(), s.repos);
    AllRisksAre(b, env, s, repos, r);
    FilterMembers(touch, AllRiskList(b, env, s, repos));
    if r in RunRiskList(b, env, s, run) {
      var repo :| repo in repos && r in RepoRiskList(b, env, s, repo.id);
      RunRiskFound(b, env, s, run, repo, r);
    }
    if repo, x, y :| ComparedForRun(s, run, repo, x, y) && r == ScoreOf(b, env, s, x, y) {
      TouchesRun(b, env, s, x, y, run);
      RepoRisksAre(b, env, s, repo.id, r);
      assert repo in repos;
    }
  }

  // ----- order -----

  /** Higher scores first, then by id as localeCompare has them. */
  ghost predicate HighestFirst(env: Env, risks: seq<ConflictRisk>) {
    forall i, j :: 0 <= i < j < |risks| ==>
      || risks[i].riskScore > risks[j].riskScore
      || (risks[i].riskScore == risks[j].riskScore && env.locale(risks[i].id) <= env.locale(risks[j].id))
  }

  lemma SortedIsHighestFirst(env: Env, risks: seq<ConflictRisk>)
    ensures HighestFirst(env, Sort(env.RiskOrder(), risks))
  {
    RiskOrderTotal(env);
    SortSorted(env.RiskOrder(), risks);
    var r := Sort(env.RiskOrder(), risks);
    forall i, j | 0 <= i < j < |r|
      ensures r[i].riskScore > r[j].riskScore || (r[i].riskScore == r[j].riskScore && env.locale(r[i].id) <= env.locale(r[j].id))
    {
      assert env.RiskOrder()(r[i], r[j]);
    }
  }

  /** The repo and lease lists come with the highest score first, ties by id. */
  lemma RiskListsOrdered(b: Backend, env: Env, s: Snapshot, id: Id)
    ensures HighestFirst(env, RepoRiskList(b, env, s, id)) && HighestFirst(env, LeaseRiskList(b, env, s, id))
  {
    SortedIsHighestFirst(env, Pairs(Score(b, env, s.simulations), ActiveOf(b, env, s.leases, id)));
    var found := Lookup(LeaseKey(), id, s.leases);
    if found.Some? && found.value.status == Active {
      SortedIsHighestFirst(env, Map(ScoreAgainst(Score(b, env, s.simulations), found.value),
                                    Filter(Partner(found.value), ActiveOf(b, env, s.leases, found.value.repoId))));
    }
  }

  // ----- which simulation a lookup finds -----

  /** x is the newest of the simulations for which p holds, ties to the smaller id. */
  ghost predicate IsNewest(collation: Id -> real, simulations: seq<Simulation>, p: Simulation -> bool, x: Simulation) {
    && x in simulations && p(x)
    && forall y :: y in simulations && p(y) ==>
         x.createdAt > y.createdAt || (x.createdAt == y.createdAt && collation(x.id) <= collation(y.id))
  }

  lemma LatestIsNewest(env: Env, newer: Newer, collation: Id -> real, p: Simulation -> bool, simulations: seq<Simulation>, x: Simulation)
    requires TotalPreorder(newer) && Antisymmetric(newer, simulations)
    requires forall a, b :: newer(a, b) <==> a.createdAt > b.createdAt || (a.createdAt == b.createdAt && collation(a.id) <= collation(b.id))
    ensures LatestWhere(newer, p, simulations) == Some(x) <==> IsNewest(collation, simulations, p, x)
  {
    LatestIsLatest(newer, p, simulations);
    if IsNewest(collation, simulations, p, x) {
      LatestUnique(newer, p, simulations, x);
    }
  }

  /** The simulations looked through for a lease: those that name it; Postgres leaves an empty id out of its condition. */
  function OfLeaseIn(b: Backend, lease: Id): Simulation -> bool {
    (y: Simulation) => y.branchLeaseId == Some(lease) || (b == Postgres && lease == "")
  }

  /** The lookup of a lease finds exactly the newest of them. */
  lemma NewestOfLease(b: Backend, env: Env, simulations: seq<Simulation>, lease: Id, x: Simulation)
    requires env.Valid() && UniqueKeys(SimulationKey(), simulations)
    ensures SimulationOfLease(b, env, simulations, lease) == Some(x)
       <==> IsNewest(if b == InMemory then env.locale else env.database, simulations, OfLeaseIn(b, lease), x)
  {
    var p := OfLeaseIn(b, lease);
    NewestFirstTotal(env);
    IdsSeparate(env, simulations);
    if b == Postgres && lease == "" {
      FilterAll(p, simulations);
    } else {
      FilterCongruent(p, OfLease(lease), simulations);
    }
    match b
    case InMemory => LatestIsNewest(env, env.NewestFirst(), env.locale, p, simulations, x);
    case Postgres => LatestIsNewest(env, env.NewestRowFirst(), env.database, p, simulations, x);
  }

  /** Those looked through for a pair: those that name one of the two leases, in Postgres recorded against the source's repo
      unless its id is empty. */
  function OfPairIn(b: Backend, source: Lease, target: Lease): Simulation -> bool {
    (y: Simulation) =>
      (y.branchLeaseId == Some(source.id) || y.branchLeaseId == Some(target.id))
      && (b == Postgres && source.repoId != "" ==> y.repoId == source.repoId)
  }

  lemma NewestOfPair(b: Backend, env: Env, simulations: seq<Simulation>, source: Lease, target: Lease, x: Simulation)
    requires env.Valid() && UniqueKeys(SimulationKey(), simulations)
    ensures SimulationOfPair(b, env, simulations, source, target) == Some(x)
       <==> IsNewest(env.locale, simulations, OfPairIn(b, source, target), x)
  {
    var q := OfPairIn(b, source, target);
    NewestFirstTotal(env);
    IdsSeparate(env, simulations);
    match b
    case InMemory =>
      FilterCongruent(q, OfPair(source.id, target.id), simulations);
      LatestIsNewest(env, env.NewestFirst(), env.locale, q, simulations, x);
    case Postgres =>
      var rows := RowsInRepo(env, simulations, source.repoId);
      RowsAre(env, simulations, source.repoId);
      FilterCongruent(q, OfPair(source.id, target.id), rows);
      LatestIsNewest(env, env.NewestFirst(), env.locale, q, rows, x);
  }

  lemma RowsAre(env: Env, simulations: seq<Simulation>, repo: Id)
    requires env.Valid() && UniqueKeys(SimulationKey(), simulations)
    ensures forall y :: y in RowsInRepo(env, simulations, repo) <==> y in simulations && (repo != "" ==> y.repoId == repo)
    ensures Antisymmetric(env.NewestFirst(), RowsInRepo(env, simulations, repo))
  {
    FilterMembers(InRepo(repo), simulations);
    SortMembers(env.NewestRowFirst(), if repo == "" then simulations else Filter(InRepo(repo), simulations));
    IdsSeparate(env, simulations);
  }
}
