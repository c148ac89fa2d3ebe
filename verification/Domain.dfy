/** The records of packages/core/src/domain/models.ts that the Conflict Manager works on,
    and the imported functions that the stores take as given. */
module Domain {
  import opened Sequences

  type Id = string
  type Millis = int

  datatype LeaseStatus = Active | Released | Expired
  datatype SimulationStatus = Clean | TextConflict | Failed | Unavailable
  datatype SimulationMode = Mock | LocalGitMergeTree
  datatype QueueStatus = Queued | Ready | Blocked | Merged | Cancelled
  datatype QueueRecommendation =
    | ReadyForReview | SafeToQueue | RequiresRebase | ConflictDetected | ManualReviewRequired | SimulationUnavailable
  datatype RiskLevel = NoRisk | Low | Medium | High | Critical
  datatype RiskRecommendation = Safe | Monitor | Serialize | Block | HumanReview

  datatype Repo = Repo(id: Id, owner: string, name: string, defaultBranch: string, createdAt: Millis)

  datatype Lease = Lease(
    id: Id,
    taskId: Id,
    taskRunId: Id,
    repoId: Id,
    branchId: Id,
    branchName: string,
    baseBranch: string,
    files: seq<string>,
    symbols: seq<string>,
    tests: seq<string>,
    status: LeaseStatus,
    expiresAt: Option<Millis>,
    releasedAt: Option<Millis>,
    createdAt: Millis,
    updatedAt: Millis)

  datatype Simulation = Simulation(
    id: Id,
    repoId: Id,
    repoPath: Option<string>,
    baseRef: string,
    sourceRef: string,
    targetRef: Option<string>,
    taskRunId: Option<Id>,
    branchLeaseId: Option<Id>,
    mode: SimulationMode,
    status: SimulationStatus,
    conflictingFiles: seq<string>,
    changedFiles: seq<string>,
    summary: string,
    riskContribution: real,
    createdAt: Millis)

  datatype ConflictRisk = ConflictRisk(
    id: Id,
    repoId: Id,
    sourceLeaseId: Id,
    targetLeaseId: Id,
    sourceTaskRunId: Id,
    targetTaskRunId: Id,
    overlapFiles: seq<string>,
    riskScore: real,
    riskLevel: RiskLevel,
    reasons: seq<string>,
    recommendation: RiskRecommendation,
    simulationStatus: Option<SimulationStatus>,
    simulationRiskContribution: Option<real>,
    simulationSummary: Option<string>)

  datatype QueueDecision = QueueDecision(
    status: QueueStatus,
    reasons: seq<string>,
    blockingReasons: seq<string>,
    recommendation: QueueRecommendation)

  /** What mergeQueueFieldsForLease derives. */
  datatype QueueFields = QueueFields(
    riskScore: real,
    conflictRiskScore: real,
    status: QueueStatus,
    reasons: seq<string>,
    blockingReasons: seq<string>,
    recommendation: QueueRecommendation,
    simulationStatus: Option<SimulationStatus>,
    lastSimulationAt: Option<Millis>)

  datatype QueueEntry = QueueEntry(
    id: Id,
    repoId: Id,
    taskId: Id,
    taskRunId: Id,
    branchLeaseId: Id,
    pullRequestId: Id,
    pullRequestUrl: string,
    branchName: string,
    priority: int,
    fields: QueueFields,
    createdAt: Millis,
    updatedAt: Millis,
    mergedAt: Option<Millis>,
    cancelledAt: Option<Millis>)
  {
    /** Not yet merged or cancelled: the entries a refresh may touch. */
    predicate Live() {
      fields.status != Merged && fields.status != Cancelled
    }
  }

  function Max(x: real, y: real): real {
    if x < y then y else x
  }

  /** The functions the stores import, and the two collations they sort ids by. A collation is given
      by an injective rank, so two ids compare as their ranks do. */
  datatype Env = Env(
    score: (Lease, Lease, Option<Simulation>) -> ConflictRisk,
    decide: (real, Option<Simulation>) -> QueueDecision,
    locale: Id -> real,
    database: Id -> real)
  {
    ghost predicate Valid() {
      && (forall a: Lease, b: Lease, s: Option<Simulation> :: ScoresPair(score(a, b, s), a, b))
      && (forall a: Lease, b: Lease, s: Option<Simulation> :: a.id != b.id ==> score(a, b, s) == score(b, a, s))
      && (forall x: real, s: Option<Simulation> :: decide(x, s).status == Ready || decide(x, s).status == Blocked)
      && (forall x: Id, y: Id :: locale(x) == locale(y) ==> x == y)
      && (forall x: Id, y: Id :: database(x) == database(y) ==> x == y)
    }

    /** Array.prototype.sort by descending score, then by id (repository.ts:322). */
    function RiskOrder(): (ConflictRisk, ConflictRisk) -> bool {
      (a: ConflictRisk, b: ConflictRisk) => a.riskScore > b.riskScore || (a.riskScore == b.riskScore && locale(a.id) <= locale(b.id))
    }

    /** Newest first, then by id (repository.ts:293). */
    function NewestFirst(): (Simulation, Simulation) -> bool {
      (a: Simulation, b: Simulation) => a.createdAt > b.createdAt || (a.createdAt == b.createdAt && locale(a.id) <= locale(b.id))
    }

    /** ORDER BY created_at DESC, id (postgres.ts:347). */
    function NewestRowFirst(): (Simulation, Simulation) -> bool {
      (a: Simulation, b: Simulation) => a.createdAt > b.createdAt || (a.createdAt == b.createdAt && database(a.id) <= database(b.id))
    }

    /** ORDER BY created_at, id (postgres.ts:202, 316). */
    function LeaseRows(): (Lease, Lease) -> bool {
      (a: Lease, b: Lease) => a.createdAt < b.createdAt || (a.createdAt == b.createdAt && database(a.id) <= database(b.id))
    }

    function RepoRows(): (Repo, Repo) -> bool {
      (a: Repo, b: Repo) => a.createdAt < b.createdAt || (a.createdAt == b.createdAt && database(a.id) <= database(b.id))
    }

    /** ORDER BY created_at, id (postgres.ts:226). */
    function TaskRows(): (Task, Task) -> bool {
      (a: Task, b: Task) => a.createdAt < b.createdAt || (a.createdAt == b.createdAt && database(a.id) <= database(b.id))
    }

    /** ORDER BY created_at, id (postgres.ts:739). */
    function AuditRows(): (AuditLog, AuditLog) -> bool {
      (a: AuditLog, b: AuditLog) => a.createdAt < b.createdAt || (a.createdAt == b.createdAt && database(a.id) <= database(b.id))
    }

    /** By priority, then age (repository.ts:574). */
    function QueueOrder(): (QueueEntry, QueueEntry) -> bool {
      (a: QueueEntry, b: QueueEntry) => a.priority < b.priority || (a.priority == b.priority && a.createdAt <= b.createdAt)
    }

    /** ORDER BY priority, created_at, id (postgres.ts:580). */
    function QueueRows(): (QueueEntry, QueueEntry) -> bool {
      (a: QueueEntry, b: QueueEntry) =>
        a.priority < b.priority
        || (a.priority == b.priority
            && (a.createdAt < b.createdAt || (a.createdAt == b.createdAt && database(a.id) <= database(b.id))))
    }

    /** Risks of different lease pairs have different ids, for lease ids as createId makes them. */
    ghost predicate NamesPairs() {
      forall a: Lease, b: Lease, c: Lease, d: Lease, s: Option<Simulation>, t: Option<Simulation> ::
        (MadeLeaseId(a.id) && MadeLeaseId(b.id) && MadeLeaseId(c.id) && MadeLeaseId(d.id)
         && score(a, b, s).id == score(c, d, t).id) ==> {a.id, b.id} == {c.id, d.id}
    }

    /** localeCompare and the database collation put any two ids in the same order. */
    ghost predicate CollationsAgree() {
      forall x: Id, y: Id {:trigger locale(x), locale(y)} {:trigger database(x), database(y)} ::
        locale(x) <= locale(y) <==> database(x) <= database(y)
    }
  }

  ghost predicate ScoresPair(r: ConflictRisk, a: Lease, b: Lease) {
    || (r.sourceLeaseId == a.id && r.targetLeaseId == b.id)
    || (r.sourceLeaseId == b.id && r.targetLeaseId == a.id)
  }

  /** createId("lease"): the prefix, an underscore and sixteen hexadecimal digits (ids.ts:3-5). */
  predicate MadeLeaseId(id: Id) {
    |id| == 22
  }

  lemma RowOrdersTotal(env: Env)
    ensures TotalPreorder(env.LeaseRows())
    ensures TotalPreorder(env.RepoRows())
    ensures TotalPreorder(env.TaskRows())
    ensures TotalPreorder(env.QueueOrder())
    ensures TotalPreorder(env.QueueRows())
  {
  }

  lemma AuditRowsTotal(env: Env)
    ensures TotalPreorder(env.AuditRows())
  {
  }

  lemma RiskOrderTotal(env: Env)
    ensures TotalPreorder(env.RiskOrder())
  {
  }

  lemma NewestFirstTotal(env: Env)
    ensures TotalPreorder(env.NewestFirst())
    ensures TotalPreorder(env.NewestRowFirst())
  {
  }

  // ----- tasks and their state machine (packages/core/src/domain/status.ts) -----

  datatype TaskStatus =
    | Draft | Planned | PolicyBlocked | TaskQueued | BranchCreated | Running | Testing | PrDraftReady | PrOpened
    | CiPending | CiFailed | Conflicted | ConflictFixing | ReviewRequired | MergeReady | TaskMerged | Completed
    | TaskFailed | TaskCancelled

  datatype Task = Task(
    id: Id,
    title: string,
    status: TaskStatus,
    requesterUserId: Id,
    repoId: Id,
    baseBranch: string,
    branchName: Option<string>,
    conflictRiskScore: Option<real>,
    createdAt: Millis,
    updatedAt: Millis)

  function Successors(from: TaskStatus): set<TaskStatus> {
    match from
    case Draft => {Planned, TaskFailed, TaskCancelled}
    case Planned => {PolicyBlocked, TaskQueued, TaskFailed, TaskCancelled}
    case PolicyBlocked => {TaskCancelled}
    case TaskQueued => {PolicyBlocked, BranchCreated, Running, TaskFailed, TaskCancelled}
    case BranchCreated => {Running, TaskFailed, TaskCancelled}
    case Running => {Testing, TaskFailed, TaskCancelled}
    case Testing => {PrDraftReady, Conflicted, ReviewRequired, TaskFailed, CiFailed, TaskCancelled}
    case PrDraftReady => {PrOpened, ReviewRequired, MergeReady, Completed, TaskFailed, TaskCancelled}
    case PrOpened => {CiPending, Conflicted, ReviewRequired, TaskFailed, TaskCancelled}
    case CiPending => {CiFailed, MergeReady, TaskFailed, TaskCancelled}
    case CiFailed => {TaskFailed, ReviewRequired, TaskCancelled}
    case Conflicted => {ConflictFixing, ReviewRequired, TaskFailed, TaskCancelled}
    case ConflictFixing => {ReviewRequired, Testing, TaskFailed, TaskCancelled}
    case ReviewRequired => {MergeReady, TaskFailed, TaskCancelled}
    case MergeReady => {TaskMerged, TaskFailed, TaskCancelled}
    case TaskMerged => {Completed}
    case Completed => {TaskQueued}
    case TaskFailed => {TaskQueued}
    case TaskCancelled => {}
  }

  predicate CanTransition(from: TaskStatus, to: TaskStatus) {
    from == to || to in Successors(from)
  }

  datatype AuditEvent =
    | TaskCreated(status: TaskStatus)
    | TaskStatusChanged(from: TaskStatus, to: TaskStatus)
    | OtherAudit(action: string)

  datatype AuditLog = AuditLog(id: Id, event: AuditEvent, taskId: Option<Id>, actorUserId: Id, repoId: Id, createdAt: Millis)
}
