/** How the repo-wide, per-lease and per-run risk lists determine each other. */
module RiskTheorems {
  import opened Sequences
  import opened Domain
  import opened ConflictRisks

  /** The risks of one lease against the leases in others. */
  function Star(risk: PairScore, lease: Lease, others: seq<Lease>): seq<ConflictRisk> {
    Map(ScoreAgainst(risk, lease), Filter(Partner(lease), others))
  }

  /** All stars of the chosen leases, counted with multiplicity. */
  ghost function StarSum(risk: PairScore, chosen: Lease -> bool, centres: seq<Lease>, others: seq<Lease>): multiset<ConflictRisk> {
    if centres == [] then multiset{}
    else
      (if chosen(centres[0]) then multiset(Star(risk, centres[0], others)) else multiset{})
      + StarSum(risk, chosen, centres[1..], others)
  }

  /** Every pair of the double loop, once for each chosen end. */
  ghost function ChosenEnds(risk: PairScore, chosen: Lease -> bool, active: seq<Lease>): multiset<ConflictRisk> {
    if active == [] then multiset{}
    else
      (if chosen(active[0]) then multiset(Row(risk, active[0], active[1..])) else multiset{})
      + multiset(Row(risk, active[0], Filter(chosen, active[1..])))
      + ChosenEnds(risk, chosen, active[1..])
  }

  lemma {:induction false} StarIsRow(risk: PairScore, lease: Lease, later: seq<Lease>)
    requires forall t :: t in later ==> t.id != lease.id
    ensures Star(risk, lease, later) == Row(risk, lease, later)
  {
    if later != [] {
      assert later[0] in later;
      StarIsRow(risk, lease, later[1..]);
      var f := Filter(Partner(lease), later[1..]);
      assert ([later[0]] + f)[1..] == f;
    }
  }

  lemma StarCons(risk: PairScore, lease: Lease, x: Lease, others: seq<Lease>)
    ensures Star(risk, lease, [x] + others)
         == (if Partner(lease)(x) then [risk(lease, x)] else []) + Star(risk, lease, others)
  {
    assert ([x] + others)[1..] == others;
    var f := Filter(Partner(lease), others);
    assert ([x] + f)[1..] == f;
  }

  lemma {:induction false} StarSumCons(risk: PairScore, chosen: Lease -> bool, centres: seq<Lease>, x: Lease, others: seq<Lease>)
    requires Pairwise(risk)
    requires forall l :: l in centres ==> l.id != x.id
    ensures StarSum(risk, chosen, centres, [x] + others)
         == multiset(Row(risk, x, Filter(chosen, centres))) + StarSum(risk, chosen, centres, others)
  {
    if centres != [] {
      var l, rest := centres[0], centres[1..];
      assert l in centres;
      StarSumCons(risk, chosen, rest, x, others);
      StarCons(risk, l, x, others);
      var f := Filter(chosen, rest);
      assert ([l] + f)[1..] == f;
      assert risk(l, x) == risk(x, l);
    }
  }

  /** Double counting: summing stars over the chosen leases counts each pair once per chosen end. */
  lemma {:induction false} StarsCountEnds(risk: PairScore, chosen: Lease -> bool, active: seq<Lease>)
    requires Pairwise(risk) && UniqueLeases(active)
    ensures StarSum(risk, chosen, active, active) == ChosenEnds(risk, chosen, active)
  {
    if active != [] {
      var x, rest := active[0], active[1..];
      assert active == [x] + rest;
      StarsCountEnds(risk, chosen, rest);
      StarSumCons(risk, chosen, rest, x, rest);
      StarIsRow(risk, x, rest);
      StarCons(risk, x, x, rest);
    }
  }

  // ----- handshake -----

  function Everyone(): Lease -> bool {
    (l: Lease) => true
  }

  lemma {:induction false} EveryoneCountsTwice(risk: PairScore, active: seq<Lease>)
    ensures ChosenEnds(risk, Everyone(), active) == multiset(Pairs(risk, active)) + multiset(Pairs(risk, active))
  {
    if active != [] {
      EveryoneCountsTwice(risk, active[1..]);
      FilterAll(Everyone(), active[1..]);
    }
  }

  /** The per-lease risk lists of the given leases, taken together. */
  ghost function LeaseRiskSum(order: RiskOrder, risk: PairScore, leases: seq<Lease>, chosen: seq<Lease>): multiset<ConflictRisk> {
    if chosen == [] then multiset{}
    else multiset(LeaseRisks(order, risk, leases, chosen[0].id)) + LeaseRiskSum(order, risk, leases, chosen[1..])
  }

  function LeaseRiskCount(order: RiskOrder, risk: PairScore, leases: seq<Lease>, chosen: seq<Lease>): nat {
    if chosen == [] then 0
    else |LeaseRisks(order, risk, leases, chosen[0].id)| + LeaseRiskCount(order, risk, leases, chosen[1..])
  }

  lemma {:induction false} LeaseRiskSumSize(order: RiskOrder, risk: PairScore, leases: seq<Lease>, chosen: seq<Lease>)
    ensures |LeaseRiskSum(order, risk, leases, chosen)| == LeaseRiskCount(order, risk, leases, chosen)
  {
    if chosen != [] {
      LeaseRiskSumSize(order, risk, leases, chosen[1..]);
    }
  }

  lemma LeaseRisksAreStar(order: RiskOrder, risk: PairScore, leases: seq<Lease>, lease: Lease)
    requires UniqueLeases(leases) && lease in leases
    ensures multiset(LeaseRisks(order, risk, leases, lease.id))
         == if lease.status == Active then multiset(Star(risk, lease, ActiveLeases(leases, lease.repoId))) else multiset{}
  {
    FindLease(leases, lease);
    SortMultiset(order, PartnerRisks(risk, leases, lease));
  }

  lemma {:induction false} LeaseRiskSumIsStarSum(
    order: RiskOrder, risk: PairScore, leases: seq<Lease>, repo: Id, chosen: seq<Lease>)
    requires UniqueLeases(leases)
    requires forall l :: l in chosen ==> l in leases && l.status == Active && l.repoId == repo
    ensures LeaseRiskSum(order, risk, leases, chosen)
         == StarSum(risk, Everyone(), chosen, ActiveLeases(leases, repo))
  {
    if chosen != [] {
      assert chosen[0] in chosen;
      LeaseRisksAreStar(order, risk, leases, chosen[0]);
      LeaseRiskSumIsStarSum(order, risk, leases, repo, chosen[1..]);
    }
  }

  /** Every risk of the repo list appears in exactly two of the per-lease lists, those of its two ends,
      and the per-lease lists hold nothing else. */
  lemma Handshake(order: RiskOrder, risk: PairScore, leases: seq<Lease>, repo: Id)
    requires Pairwise(risk) && UniqueLeases(leases)
    ensures var listed := multiset(RepoRisks(order, risk, leases, repo));
            LeaseRiskSum(order, risk, leases, ActiveLeases(leases, repo)) == listed + listed
    ensures LeaseRiskCount(order, risk, leases, ActiveLeases(leases, repo)) == 2 * |RepoRisks(order, risk, leases, repo)|
  {
    var active := ActiveLeases(leases, repo);
    UniqueLeasesFilter(ActiveIn(repo), leases);
    FilterMembers(ActiveIn(repo), leases);
    LeaseRiskSumIsStarSum(order, risk, leases, repo, active);
    StarsCountEnds(risk, Everyone(), active);
    EveryoneCountsTwice(risk, active);
    SortMultiset(order, Pairs(risk, active));
    LeaseRiskSumSize(order, risk, leases, active);
  }

  // ----- each pair exactly once -----

  function Ends(r: ConflictRisk): set<Id> {
    {r.sourceLeaseId, r.targetLeaseId}
  }

  ghost predicate DistinctEnds(risks: seq<ConflictRisk>) {
    forall i, j :: 0 <= i < j < |risks| ==> Ends(risks[i]) != Ends(risks[j])
  }

  lemma DistinctConcat(s: seq<ConflictRisk>, t: seq<ConflictRisk>)
    requires DistinctEnds(s) && DistinctEnds(t)
    requires forall r, q :: r in s && q in t ==> Ends(r) != Ends(q)
    ensures DistinctEnds(s + t)
  {
    var u := s + t;
    forall i, j | 0 <= i < j < |u|
      ensures Ends(u[i]) != Ends(u[j])
    {
      if i < |s| <= j {
        assert u[i] in s && u[j] in t;
      }
    }
  }

  lemma PairsName(risk: PairScore, active: seq<Lease>, r: ConflictRisk, id: Id)
    requires Pairwise(risk) && UniqueLeases(active) && r in Pairs(risk, active) && id in Ends(r)
    ensures exists a :: a in active && a.id == id
  {
    PairsMembers(risk, active, r);
    var a, b :| a in active && b in active && a.taskRunId != b.taskRunId && a.taskId != b.taskId && r == risk(a, b);
    assert ScoresPair(risk(a, b), a, b);
  }

  /** A risk of the row does not name a lease outside it. */
  lemma RowNames(risk: PairScore, lease: Lease, later: seq<Lease>, r: ConflictRisk, id: Id)
    requires Pairwise(risk) && r in Row(risk, lease, later) && id != lease.id
    requires forall u :: u in later ==> u.id != id
    ensures lease.id in Ends(r) && id !in Ends(r)
  {
    RowMembers(risk, lease, later, r);
    var u :| u in later && u.taskRunId != lease.taskRunId && u.taskId != lease.taskId && r == risk(lease, u);
    assert ScoresPair(risk(lease, u), lease, u);
  }

  lemma {:induction false} RowDistinct(risk: PairScore, lease: Lease, later: seq<Lease>)
    requires Pairwise(risk) && UniqueLeases(later)
    requires forall t :: t in later ==> t.id != lease.id
    ensures DistinctEnds(Row(risk, lease, later))
    ensures forall r :: r in Row(risk, lease, later) ==> lease.id in Ends(r)
  {
    if later != [] {
      var t, rest := later[0], later[1..];
      assert later == [t] + rest;
      RowDistinct(risk, lease, rest);
      RowCons(risk, lease, t, rest);
      var row := Row(risk, lease, rest);
      assert ScoresPair(risk(lease, t), lease, t);
      forall r | r in row
        ensures Ends(r) != Ends(risk(lease, t))
      {
        RowNames(risk, lease, rest, r, t.id);
      }
      DistinctConcat(if Compatible(lease, t) then [risk(lease, t)] else [], row);
    }
  }

  lemma {:induction false} PairsDistinct(risk: PairScore, active: seq<Lease>)
    requires Pairwise(risk) && UniqueLeases(active)
    ensures DistinctEnds(Pairs(risk, active))
  {
    if active != [] {
      var x, rest := active[0], active[1..];
      assert active == [x] + rest;
      PairsDistinct(risk, rest);
      RowDistinct(risk, x, rest);
      var row, more := Row(risk, x, rest), Pairs(risk, rest);
      forall r, q | r in row && q in more
        ensures Ends(r) != Ends(q)
      {
        if x.id in Ends(q) {
          PairsName(risk, rest, q, x.id);
          assert false;
        }
      }
      DistinctConcat(row, more);
    }
  }

  lemma SortDistinct(order: RiskOrder, risks: seq<ConflictRisk>)
    requires TotalPreorder(order) && DistinctEnds(risks)
    ensures DistinctEnds(Sort(order, risks))
  {
    assert NoDup(risks);
    SortNoDup(order, risks);
    SortMembers(order, risks);
    var r := Sort(order, risks);
    forall i, j | 0 <= i < j < |r|
      ensures Ends(r[i]) != Ends(r[j])
    {
      assert r[i] in risks && r[j] in risks;
      var m :| 0 <= m < |risks| && risks[m] == r[i];
      var n :| 0 <= n < |risks| && risks[n] == r[j];
    }
  }

  /** Both active in the repo, of different runs and different tasks. */
  predicate MayConflict(repo: Id, a: Lease, b: Lease) {
    && a.status == Active && b.status == Active && a.repoId == repo && b.repoId == repo
    && a.taskRunId != b.taskRunId && a.taskId != b.taskId
  }

  /** The repo list holds one risk for each such pair of leases, and no pair twice. */
  lemma EachPairOnce(order: RiskOrder, risk: PairScore, leases: seq<Lease>, repo: Id)
    requires TotalPreorder(order) && Pairwise(risk) && UniqueLeases(leases)
    ensures DistinctEnds(RepoRisks(order, risk, leases, repo))
    ensures forall r :: r in RepoRisks(order, risk, leases, repo) <==>
              exists a, b :: a in leases && b in leases && MayConflict(repo, a, b) && r == risk(a, b)
  {
    var active := ActiveLeases(leases, repo);
    UniqueLeasesFilter(ActiveIn(repo), leases);
    FilterMembers(ActiveIn(repo), leases);
    PairsDistinct(risk, active);
    SortDistinct(order, Pairs(risk, active));
    SortMembers(order, Pairs(risk, active));
    forall r
      ensures r in RepoRisks(order, risk, leases, repo) <==>
              exists a, b :: a in leases && b in leases && MayConflict(repo, a, b) && r == risk(a, b)
    {
      PairsMembers(risk, active, r);
    }
  }

  // ----- the task-run view -----

  lemma {:induction false} RunEnds(risk: PairScore, leases: seq<Lease>, run: Id, active: seq<Lease>)
    requires Pairwise(risk) && UniqueLeases(leases)
    requires forall l :: l in active ==> l in leases
    ensures ChosenEnds(risk, OfRun(run), active)
         == multiset(Filter(Touches(RunLeaseIds(leases, run)), Pairs(risk, active)))
  {
    if active != [] {
      var x, rest := active[0], active[1..];
      var touch := Touches(RunLeaseIds(leases, run));
      assert active == [x] + rest && x in active;
      RunEnds(risk, leases, run, rest);
      FilterAppend(touch, Row(risk, x, rest), Pairs(risk, rest));
      RunRow(risk, leases, run, x, rest);
    }
  }

  lemma RunLeaseIn(leases: seq<Lease>, run: Id, l: Lease)
    requires UniqueLeases(leases) && l in leases
    ensures l.id in RunLeaseIds(leases, run) <==> l.taskRunId == run
  {
  }

  lemma FilterCons<T(!new)>(p: T -> bool, x: T, s: seq<T>)
    ensures Filter(p, [x] + s) == (if p(x) then [x] else []) + Filter(p, s)
  {
    assert ([x] + s)[1..] == s;
  }

  lemma RowCons(risk: PairScore, x: Lease, t: Lease, rest: seq<Lease>)
    ensures Row(risk, x, [t] + rest) == (if Compatible(x, t) then [risk(x, t)] else []) + Row(risk, x, rest)
  {
    assert ([t] + rest)[1..] == rest;
  }

  lemma TouchedExactly(risk: PairScore, leases: seq<Lease>, run: Id, x: Lease, t: Lease)
    requires Pairwise(risk) && UniqueLeases(leases) && x in leases && t in leases
    ensures Touches(RunLeaseIds(leases, run))(risk(x, t)) <==> OfRun(run)(x) || OfRun(run)(t)
  {
    RunLeaseIn(leases, run, x);
    RunLeaseIn(leases, run, t);
    assert ScoresPair(risk(x, t), x, t);
  }

  lemma {:induction false} RunRow(risk: PairScore, leases: seq<Lease>, run: Id, x: Lease, later: seq<Lease>)
    requires Pairwise(risk) && UniqueLeases(leases) && x in leases
    requires forall l :: l in later ==> l in leases
    ensures multiset(Filter(Touches(RunLeaseIds(leases, run)), Row(risk, x, later)))
         == (if OfRun(run)(x) then multiset(Row(risk, x, later)) else multiset{})
            + multiset(Row(risk, x, Filter(OfRun(run), later)))
  {
    if later != [] {
      var t, rest := later[0], later[1..];
      assert later == [t] + rest && t in later;
      RunRow(risk, leases, run, x, rest);
      RunRowStep(risk, leases, run, x, t, rest);
    }
  }

  lemma RunRowStep(risk: PairScore, leases: seq<Lease>, run: Id, x: Lease, t: Lease, rest: seq<Lease>)
    requires Pairwise(risk) && UniqueLeases(leases) && x in leases && t in leases
    requires multiset(Filter(Touches(RunLeaseIds(leases, run)), Row(risk, x, rest)))
          == (if OfRun(run)(x) then multiset(Row(risk, x, rest)) else multiset{})
             + multiset(Row(risk, x, Filter(OfRun(run), rest)))
    ensures multiset(Filter(Touches(RunLeaseIds(leases, run)), Row(risk, x, [t] + rest)))
         == (if OfRun(run)(x) then multiset(Row(risk, x, [t] + rest)) else multiset{})
            + multiset(Row(risk, x, Filter(OfRun(run), [t] + rest)))
  {
    RowCons(risk, x, t, rest);
    FilteredRowCons(risk, OfRun(run), x, t, rest);
    if Compatible(x, t) {
      TouchedExactly(risk, leases, run, x, t);
      FilterCons(Touches(RunLeaseIds(leases, run)), risk(x, t), Row(risk, x, rest));
    } else {
      assert [] + Row(risk, x, rest) == Row(risk, x, rest);
    }
  }

  lemma FilteredRowCons(risk: PairScore, p: Lease -> bool, x: Lease, t: Lease, rest: seq<Lease>)
    ensures Row(risk, x, Filter(p, [t] + rest))
         == (if p(t) && Compatible(x, t) then [risk(x, t)] else []) + Row(risk, x, Filter(p, rest))
  {
    var kept := Filter(p, rest);
    FilterCons(p, t, rest);
    assert [] + Row(risk, x, kept) == Row(risk, x, kept) && [] + kept == kept;
    if p(t) {
      RowCons(risk, x, t, kept);
    }
  }

  ghost predicate UniqueRepos(repos: seq<Repo>) {
    forall i, j :: 0 <= i < j < |repos| ==> repos[i].id != repos[j].id
  }

  predicate Registered(repos: seq<Repo>, repo: Id) {
    repos != [] && (repos[0].id == repo || Registered(repos[1..], repo))
  }

  lemma {:induction false} RegisteredAt(repos: seq<Repo>, repo: Id)
    ensures Registered(repos, repo) <==> exists i :: 0 <= i < |repos| && repos[i].id == repo
  {
    if repos != [] {
      RegisteredAt(repos[1..], repo);
      if Registered(repos[1..], repo) {
        var i :| 0 <= i < |repos[1..]| && repos[1..][i].id == repo;
        assert repos[i + 1].id == repo;
      }
      if i :| 0 <= i < |repos| && repos[i].id == repo {
        assert i > 0 ==> repos[1..][i - 1].id == repo;
      }
    }
  }

  lemma RegisteredOnce(repos: seq<Repo>)
    requires UniqueRepos(repos) && repos != []
    ensures !Registered(repos[1..], repos[0].id)
  {
    RegisteredAt(repos[1..], repos[0].id);
  }

  /** Σ over repos of the stars of the run's active leases in that repo. */
  ghost function RepoSplit(risk: PairScore, repos: seq<Repo>, leases: seq<Lease>, run: Id, chosen: seq<Lease>): multiset<ConflictRisk> {
    if repos == [] then multiset{}
    else
      StarSum(risk, OfRun(run), ActiveLeases(chosen, repos[0].id), ActiveLeases(leases, repos[0].id))
      + RepoSplit(risk, repos[1..], leases, run, chosen)
  }

  lemma {:induction false} RunRisksSplit(order: RiskOrder, risk: PairScore, repos: seq<Repo>, leases: seq<Lease>, run: Id)
    requires TotalPreorder(order) && Pairwise(risk) && UniqueLeases(leases)
    ensures multiset(TaskRunRisks(order, risk, repos, leases, run)) == RepoSplit(risk, repos, leases, run, leases)
  {
    if repos != [] {
      var repo := repos[0].id;
      var touch := Touches(RunLeaseIds(leases, run));
      var active := ActiveLeases(leases, repo);
      RunRisksSplit(order, risk, repos[1..], leases, run);
      FilterAppend(touch, RepoRisks(order, risk, leases, repo), AllRepoRisks(order, risk, repos[1..], leases));
      FilterSort(order, touch, Pairs(risk, active));
      SortMultiset(order, Filter(touch, Pairs(risk, active)));
      UniqueLeasesFilter(ActiveIn(repo), leases);
      FilterMembers(ActiveIn(repo), leases);
      StarsCountEnds(risk, OfRun(run), active);
      RunEnds(risk, leases, run, active);
    }
  }

  lemma {:induction false} RepoSplitCons(
    risk: PairScore, repos: seq<Repo>, leases: seq<Lease>, run: Id, l: Lease, rest: seq<Lease>)
    requires UniqueRepos(repos)
    ensures RepoSplit(risk, repos, leases, run, [l] + rest)
         == (if OfRun(run)(l) && l.status == Active && Registered(repos, l.repoId)
             then multiset(Star(risk, l, ActiveLeases(leases, l.repoId))) else multiset{})
            + RepoSplit(risk, repos, leases, run, rest)
  {
    if repos != [] {
      var r, more := repos[0], repos[1..];
      assert repos == [r] + more;
      RepoSplitCons(risk, more, leases, run, l, rest);
      RegisteredOnce(repos);
      StarSumOne(risk, run, l, rest, r.id, ActiveLeases(leases, r.id));
    }
  }

  lemma StarSumOne(risk: PairScore, run: Id, l: Lease, rest: seq<Lease>, repo: Id, others: seq<Lease>)
    ensures StarSum(risk, OfRun(run), ActiveLeases([l] + rest, repo), others)
         == (if OfRun(run)(l) && ActiveIn(repo)(l) then multiset(Star(risk, l, others)) else multiset{})
            + StarSum(risk, OfRun(run), ActiveLeases(rest, repo), others)
  {
    assert ([l] + rest)[1..] == rest;
    var f := ActiveLeases(rest, repo);
    assert ([l] + f)[1..] == f;
  }

  function OfRunIn(repos: seq<Repo>, run: Id): Lease -> bool {
    (l: Lease) => l.taskRunId == run && Registered(repos, l.repoId)
  }

  lemma {:induction false} RepoSplitSum(
    order: RiskOrder, risk: PairScore, repos: seq<Repo>, leases: seq<Lease>, run: Id, chosen: seq<Lease>)
    requires UniqueRepos(repos) && UniqueLeases(leases)
    requires forall l :: l in chosen ==> l in leases
    ensures RepoSplit(risk, repos, leases, run, chosen)
         == LeaseRiskSum(order, risk, leases, Filter(OfRunIn(repos, run), chosen))
  {
    if chosen == [] {
      NoneSplit(risk, repos, leases, run);
    } else {
      var l, rest := chosen[0], chosen[1..];
      assert chosen == [l] + rest && l in chosen;
      RepoSplitSum(order, risk, repos, leases, run, rest);
      RepoSplitCons(risk, repos, leases, run, l, rest);
      LeaseRisksAreStar(order, risk, leases, l);
      var f := Filter(OfRunIn(repos, run), rest);
      assert ([l] + f)[1..] == f;
    }
  }

  lemma {:induction false} NoneSplit(risk: PairScore, repos: seq<Repo>, leases: seq<Lease>, run: Id)
    ensures RepoSplit(risk, repos, leases, run, []) == multiset{}
  {
    if repos != [] {
      NoneSplit(risk, repos[1..], leases, run);
    }
  }

  /** The risks of a task run are, with multiplicities, those of its leases in registered repos:
      no pair is lost and none is counted twice. */
  lemma TaskRunIsDisjointUnion(order: RiskOrder, risk: PairScore, repos: seq<Repo>, leases: seq<Lease>, run: Id)
    requires TotalPreorder(order) && Pairwise(risk) && UniqueLeases(leases) && UniqueRepos(repos)
    ensures var own := Filter(OfRunIn(repos, run), leases);
            && multiset(TaskRunRisks(order, risk, repos, leases, run)) == LeaseRiskSum(order, risk, leases, own)
            && |TaskRunRisks(order, risk, repos, leases, run)| == LeaseRiskCount(order, risk, leases, own)
    ensures DistinctEnds(TaskRunRisks(order, risk, repos, leases, run))
  {
    RunRisksSplit(order, risk, repos, leases, run);
    RepoSplitSum(order, risk, repos, leases, run, leases);
    LeaseRiskSumSize(order, risk, leases, Filter(OfRunIn(repos, run), leases));
    AllRepoRisksDistinct(order, risk, repos, leases);
    FilterDistinct(Touches(RunLeaseIds(leases, run)), AllRepoRisks(order, risk, repos, leases));
  }

  lemma {:induction false} FilterDistinct(p: ConflictRisk -> bool, risks: seq<ConflictRisk>)
    requires DistinctEnds(risks)
    ensures DistinctEnds(Filter(p, risks))
  {
    if risks != [] {
      FilterDistinct(p, risks[1..]);
      FilterMembers(p, risks[1..]);
      var f := Filter(p, risks[1..]);
      assert forall j :: 0 <= j < |f| ==> f[j] in f && f[j] in risks[1..];
    }
  }

  /** Both ends of a risk in the repo's list are leases of that repo. */
  lemma RepoOfEnd(order: RiskOrder, risk: PairScore, leases: seq<Lease>, repo: Id, r: ConflictRisk, l: Lease)
    requires TotalPreorder(order) && Pairwise(risk) && UniqueLeases(leases)
    requires r in RepoRisks(order, risk, leases, repo) && l in leases && l.id in Ends(r)
    ensures l.repoId == repo
  {
    EachPairOnce(order, risk, leases, repo);
    var a, b :| a in leases && b in leases && MayConflict(repo, a, b) && r == risk(a, b);
    UniqueLeasesMember(leases, l, if l.id == a.id then a else b);
  }

  lemma SourceLease(order: RiskOrder, risk: PairScore, leases: seq<Lease>, repo: Id, r: ConflictRisk) returns (l: Lease)
    requires TotalPreorder(order) && Pairwise(risk) && UniqueLeases(leases)
    requires r in RepoRisks(order, risk, leases, repo)
    ensures l in leases && l.id == r.sourceLeaseId
  {
    EachPairOnce(order, risk, leases, repo);
    var a, b :| a in leases && b in leases && MayConflict(repo, a, b) && r == risk(a, b);
    l := if a.id == r.sourceLeaseId then a else b;
  }

  lemma {:induction false} RepoOfRisk(
    order: RiskOrder, risk: PairScore, repos: seq<Repo>, leases: seq<Lease>, r: ConflictRisk) returns (repo: Id)
    requires r in AllRepoRisks(order, risk, repos, leases)
    ensures Registered(repos, repo) && r in RepoRisks(order, risk, leases, repo)
  {
    repo := repos[0].id;
    if r !in RepoRisks(order, risk, leases, repo) {
      repo := RepoOfRisk(order, risk, repos[1..], leases, r);
    }
  }

  lemma {:induction false} AllRepoRisksDistinct(order: RiskOrder, risk: PairScore, repos: seq<Repo>, leases: seq<Lease>)
    requires TotalPreorder(order) && Pairwise(risk) && UniqueLeases(leases) && UniqueRepos(repos)
    ensures DistinctEnds(AllRepoRisks(order, risk, repos, leases))
  {
    if repos != [] {
      var repo, more := repos[0].id, repos[1..];
      AllRepoRisksDistinct(order, risk, more, leases);
      EachPairOnce(order, risk, leases, repo);
      RegisteredOnce(repos);
      var here, there := RepoRisks(order, risk, leases, repo), AllRepoRisks(order, risk, more, leases);
      forall r, q | r in here && q in there
        ensures Ends(r) != Ends(q)
      {
        if Ends(r) == Ends(q) {
          var other := RepoOfRisk(order, risk, more, leases, q);
          var l := SourceLease(order, risk, leases, repo, r);
          RepoOfEnd(order, risk, leases, repo, r, l);
          assert l.id in Ends(r);
          RepoOfEnd(order, risk, leases, other, q, l);
          assert false;
        }
      }
      DistinctConcat(here, there);
    }
  }

  // ----- releasing a lease -----

  function Avoids(id: Id): ConflictRisk -> bool {
    (r: ConflictRisk) => r.sourceLeaseId != id && r.targetLeaseId != id
  }

  function OtherThan(id: Id): Lease -> bool {
    (l: Lease) => l.id != id
  }

  lemma {:induction false} RowWithout(risk: PairScore, id: Id, x: Lease, later: seq<Lease>)
    requires Pairwise(risk) && x.id != id
    ensures Filter(Avoids(id), Row(risk, x, later)) == Row(risk, x, Filter(OtherThan(id), later))
  {
    if later != [] {
      RowWithout(risk, id, x, later[1..]);
      var row, f := Row(risk, x, later[1..]), Filter(OtherThan(id), later[1..]);
      assert ([risk(x, later[0])] + row)[1..] == row;
      assert ([later[0]] + f)[1..] == f;
    }
  }

  lemma {:induction false} RowOfReleased(risk: PairScore, x: Lease, later: seq<Lease>)
    requires Pairwise(risk)
    ensures Filter(Avoids(x.id), Row(risk, x, later)) == []
  {
    if later != [] {
      RowOfReleased(risk, x, later[1..]);
      var row := Row(risk, x, later[1..]);
      assert ([risk(x, later[0])] + row)[1..] == row;
    }
  }

  lemma {:induction false} PairsWithout(risk: PairScore, id: Id, active: seq<Lease>)
    requires Pairwise(risk)
    ensures Filter(Avoids(id), Pairs(risk, active)) == Pairs(risk, Filter(OtherThan(id), active))
  {
    if active != [] {
      var x, rest := active[0], active[1..];
      PairsWithout(risk, id, rest);
      FilterAppend(Avoids(id), Row(risk, x, rest), Pairs(risk, rest));
      if x.id == id {
        RowOfReleased(risk, x, rest);
      } else {
        RowWithout(risk, id, x, rest);
        var f := Filter(OtherThan(id), rest);
        assert ([x] + f)[1..] == f;
      }
    }
  }

  /** after is before with the lease at one position made inactive, all other leases as they were. */
  ghost predicate Deactivates(before: seq<Lease>, after: seq<Lease>, id: Id) {
    && |after| == |before|
    && forall i :: 0 <= i < |before| ==>
         if before[i].id == id then after[i].id == id && after[i].status != Active else after[i] == before[i]
  }

  lemma {:induction false} ActiveAfterRelease(before: seq<Lease>, after: seq<Lease>, id: Id, repo: Id)
    requires Deactivates(before, after, id)
    ensures ActiveLeases(after, repo) == Filter(OtherThan(id), ActiveLeases(before, repo))
  {
    if before != [] {
      ActiveAfterRelease(before[1..], after[1..], id, repo);
      var f := ActiveLeases(before[1..], repo);
      assert ([before[0]] + f)[1..] == f;
    }
  }

  /** Releasing a lease removes from every repo list exactly the pairs it was part of, keeping the order
      of the rest; its own repo's list gets shorter by the lease's risk count, other repos' lists stay. */
  lemma ReleaseRemovesItsPairs(order: RiskOrder, risk: PairScore, before: seq<Lease>, after: seq<Lease>, id: Id, repo: Id)
    requires TotalPreorder(order) && Pairwise(risk) && UniqueLeases(before) && Deactivates(before, after, id)
    ensures RepoRisks(order, risk, after, repo) == Filter(Avoids(id), RepoRisks(order, risk, before, repo))
    ensures match Find(HasId(id), before)
            case Some(lease) =>
              if lease.repoId == repo then
                |RepoRisks(order, risk, after, repo)|
                  == |RepoRisks(order, risk, before, repo)| - |LeaseRisks(order, risk, before, id)|
              else RepoRisks(order, risk, after, repo) == RepoRisks(order, risk, before, repo)
            case None => RepoRisks(order, risk, after, repo) == RepoRisks(order, risk, before, repo)
  {
    var active := ActiveLeases(before, repo);
    ActiveAfterRelease(before, after, id, repo);
    PairsWithout(risk, id, active);
    FilterSort(order, Avoids(id), Pairs(risk, active));
    UniqueLeasesFilter(ActiveIn(repo), before);
    FilterMembers(ActiveIn(repo), before);
    var found := Find(HasId(id), before);
    if found.Some? && found.value.repoId == repo && found.value.status == Active {
      LeaseRisksAreStar(order, risk, before, found.value);
      PairsLost(risk, found.value, active);
    } else {
      assert forall l :: l in active ==> l.id != id;
      FilterAll(OtherThan(id), active);
      if found.Some? {
        FindLease(before, found.value);
      }
    }
  }

  lemma {:induction false} PairsLost(risk: PairScore, lease: Lease, active: seq<Lease>)
    requires Pairwise(risk) && UniqueLeases(active) && lease in active
    ensures |Pairs(risk, Filter(OtherThan(lease.id), active))| == |Pairs(risk, active)| - |Star(risk, lease, active)|
  {
    var x, rest := active[0], active[1..];
    assert active == [x] + rest;
    StarCons(risk, lease, x, rest);
    if x == lease {
      StarIsRow(risk, lease, rest);
      FilterAll(OtherThan(lease.id), rest);
    } else {
      PairsLost(risk, lease, rest);
      var f := Filter(OtherThan(lease.id), rest);
      assert ([x] + f)[1..] == f;
      RowLosesOne(risk, x, lease, rest);
    }
  }

  lemma {:induction false} RowLosesOne(risk: PairScore, x: Lease, lease: Lease, later: seq<Lease>)
    requires UniqueLeases(later) && lease in later && x.id != lease.id
    ensures |Row(risk, x, Filter(OtherThan(lease.id), later))|
         == |Row(risk, x, later)| - (if Compatible(x, lease) then 1 else 0)
  {
    var t, rest := later[0], later[1..];
    assert later == [t] + rest;
    if t == lease {
      FilterAll(OtherThan(lease.id), rest);
    } else {
      RowLosesOne(risk, x, lease, rest);
      var f := Filter(OtherThan(lease.id), rest);
      assert ([t] + f)[1..] == f;
    }
  }
}
