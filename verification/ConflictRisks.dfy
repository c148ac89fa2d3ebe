/** The pairwise conflict risks of the active leases (packages/db/src/repository.ts:311-338), for any
    deterministic pair score, and how the repo, lease and task-run views of them relate. */
module ConflictRisks {
  import opened Sequences
  import opened Domain
  import opened Keyed

  type PairScore = (Lease, Lease) -> ConflictRisk
  type RiskOrder = (ConflictRisk, ConflictRisk) -> bool

  /** A pair score names both leases and does not depend on which one comes first. */
  ghost predicate Pairwise(risk: PairScore) {
    && (forall a: Lease, b: Lease :: ScoresPair(risk(a, b), a, b))
    && (forall a: Lease, b: Lease :: a.id != b.id ==> risk(a, b) == risk(b, a))
  }

  ghost predicate UniqueLeases(leases: seq<Lease>) {
    forall i, j :: 0 <= i < j < |leases| ==> leases[i].id != leases[j].id
  }

  function ActiveIn(repo: Id): Lease -> bool {
    (l: Lease) => l.status == Active && l.repoId == repo
  }

  function LeaseKey(): Lease -> Id {
    (l: Lease) => l.id
  }

  function HasId(id: Id): Lease -> bool {
    WithKey(LeaseKey(), id)
  }

  function OfRun(run: Id): Lease -> bool {
    (l: Lease) => l.taskRunId == run
  }

  predicate Compatible(a: Lease, b: Lease) {
    a.taskRunId != b.taskRunId && a.taskId != b.taskId
  }

  function Partner(lease: Lease): Lease -> bool {
    (t: Lease) => t.id != lease.id && Compatible(t, lease)
  }

  function ScoreAgainst(risk: PairScore, lease: Lease): Lease -> ConflictRisk {
    (t: Lease) => risk(lease, t)
  }

  function ActiveLeases(leases: seq<Lease>, repo: Id): seq<Lease> {
    Filter(ActiveIn(repo), leases)
  }

  /** The inner loop: lease against every later lease. */
  function Row(risk: PairScore, lease: Lease, later: seq<Lease>): seq<ConflictRisk> {
    if later == [] then []
    else if Compatible(lease, later[0]) then [risk(lease, later[0])] + Row(risk, lease, later[1..])
    else Row(risk, lease, later[1..])
  }

  /** The double loop over index pairs i < j. */
  function Pairs(risk: PairScore, active: seq<Lease>): seq<ConflictRisk> {
    if active == [] then [] else Row(risk, active[0], active[1..]) + Pairs(risk, active[1..])
  }

  function RepoRisks(order: RiskOrder, risk: PairScore, leases: seq<Lease>, repo: Id): seq<ConflictRisk> {
    Sort(order, Pairs(risk, ActiveLeases(leases, repo)))
  }

  function PartnerRisks(risk: PairScore, leases: seq<Lease>, lease: Lease): seq<ConflictRisk> {
    Map(ScoreAgainst(risk, lease), Filter(Partner(lease), ActiveLeases(leases, lease.repoId)))
  }

  function LeaseRisks(order: RiskOrder, risk: PairScore, leases: seq<Lease>, id: Id): seq<ConflictRisk> {
    match Find(HasId(id), leases)
    case None => []
    case Some(lease) => if lease.status != Active then [] else Sort(order, PartnerRisks(risk, leases, lease))
  }

  function RunLeaseIds(leases: seq<Lease>, run: Id): set<Id> {
    set l | l in leases && l.taskRunId == run :: l.id
  }

  function Touches(ids: set<Id>): ConflictRisk -> bool {
    (r: ConflictRisk) => r.sourceLeaseId in ids || r.targetLeaseId in ids
  }

  function AllRepoRisks(order: RiskOrder, risk: PairScore, repos: seq<Repo>, leases: seq<Lease>): seq<ConflictRisk> {
    if repos == [] then []
    else RepoRisks(order, risk, leases, repos[0].id) + AllRepoRisks(order, risk, repos[1..], leases)
  }

  function TaskRunRisks(order: RiskOrder, risk: PairScore, repos: seq<Repo>, leases: seq<Lease>, run: Id): seq<ConflictRisk> {
    Filter(Touches(RunLeaseIds(leases, run)), AllRepoRisks(order, risk, repos, leases))
  }

  // ----- basic facts -----

  lemma UniqueLeasesFilter(p: Lease -> bool, leases: seq<Lease>)
    requires UniqueLeases(leases)
    ensures UniqueLeases(Filter(p, leases))
  {
    if leases != [] {
      UniqueLeasesFilter(p, leases[1..]);
      FilterMembers(p, leases[1..]);
      var f := Filter(p, leases[1..]);
      assert forall j :: 0 <= j < |f| ==> f[j] in leases[1..];
    }
  }

  lemma UniqueLeasesMember(leases: seq<Lease>, a: Lease, b: Lease)
    requires UniqueLeases(leases) && a in leases && b in leases && a.id == b.id
    ensures a == b
  {
  }

  lemma FindLease(leases: seq<Lease>, lease: Lease)
    requires UniqueLeases(leases) && lease in leases
    ensures Find(HasId(lease.id), leases) == Some(lease)
  {
    UniqueLeasesMember(leases, lease, Find(HasId(lease.id), leases).value);
  }

  /** r is the risk of the lease and a later one of another run and another task. */
  ghost predicate RowRisk(risk: PairScore, lease: Lease, later: seq<Lease>, r: ConflictRisk) {
    exists t :: t in later && t.taskRunId != lease.taskRunId && t.taskId != lease.taskId && r == risk(lease, t)
  }

  lemma {:induction false} RowMembers(risk: PairScore, lease: Lease, later: seq<Lease>, r: ConflictRisk)
    ensures r in Row(risk, lease, later) <==> RowRisk(risk, lease, later, r)
  {
    if later != [] {
      RowMembers(risk, lease, later[1..], r);
      assert later == [later[0]] + later[1..];
    }
  }

  /** r is the risk of two leases of the list, of different runs and different tasks. */
  ghost predicate PairRisk(risk: PairScore, active: seq<Lease>, r: ConflictRisk) {
    exists a, b ::
      a in active && b in active && a.taskRunId != b.taskRunId && a.taskId != b.taskId && r == risk(a, b)
  }

  /** A compatible pair of x and a list either holds x or lies in the list. */
  lemma PairRiskCons(risk: PairScore, x: Lease, rest: seq<Lease>, r: ConflictRisk)
    requires Pairwise(risk) && UniqueLeases([x] + rest)
    ensures PairRisk(risk, [x] + rest, r) <==> RowRisk(risk, x, rest, r) || PairRisk(risk, rest, r)
  {
    var active := [x] + rest;
    assert forall t :: t in active <==> t == x || t in rest;
    if PairRisk(risk, active, r) {
      var a, b :| a in active && b in active && a.taskRunId != b.taskRunId && a.taskId != b.taskId && r == risk(a, b);
      UniqueLeasesDiffer(active, a, b);
      assert risk(a, b) == risk(b, a);
    }
  }

  lemma UniqueLeasesDiffer(leases: seq<Lease>, a: Lease, b: Lease)
    requires UniqueLeases(leases) && a in leases && b in leases && a != b
    ensures a.id != b.id
  {
  }

  /** The risks the double loop emits are those of the compatible pairs of active leases. */
  lemma {:induction false} PairsMembers(risk: PairScore, active: seq<Lease>, r: ConflictRisk)
    requires Pairwise(risk) && UniqueLeases(active)
    ensures r in Pairs(risk, active) <==> PairRisk(risk, active, r)
  {
    if active != [] {
      var x, rest := active[0], active[1..];
      assert active == [x] + rest;
      PairsMembers(risk, rest, r);
      RowMembers(risk, x, rest, r);
      PairRiskCons(risk, x, rest, r);
    }
  }
}
