/** What the operations of the in-memory store and of the Postgres store compute. The two classes run the same
    steps over different primitives: an array patched in place against a table whose rows are rewritten
    and read back with ORDER BY, and a pair lookup that ignores the repo against one that filters by it
    (packages/db/src/repository.ts:130-364, 515-617; packages/db/src/postgres.ts:195-409, 545-608). */
module Stores {
  import opened Sequences
  import opened Domain
  import opened Keyed
  import opened ConflictRisks
  import opened LatestSimulation
  import opened Queue

  datatype Backend = InMemory | Postgres

  datatype Snapshot = Snapshot(
    repos: seq<Repo>,
    tasks: seq<Task>,
    leases: seq<Lease>,
    simulations: seq<Simulation>,
    queue: seq<QueueEntry>,
    audit: seq<AuditLog>)
  {
    ghost predicate UniqueIds() {
      && UniqueKeys(RepoKey(), repos)
      && UniqueKeys(TaskKey(), tasks)
      && UniqueKeys(LeaseKey(), leases)
      && UniqueKeys(SimulationKey(), simulations)
      && UniqueKeys(QueueKey(), queue)
    }
  }

  // ----- primitives the two stores differ in -----

  /** listActiveBranchLeases; the SQL condition on the repo is left out when the id is empty. */
  function ActiveOf(b: Backend, env: Env, leases: seq<Lease>, repo: Id): seq<Lease> {
    match b
    case InMemory => ActiveLeases(leases, repo)
    case Postgres => Sort(env.LeaseRows(), Filter(ActiveRow(repo), leases))
  }

  function ActiveRow(repo: Id): Lease -> bool {
    (l: Lease) => l.status == Active && (repo == "" || l.repoId == repo)
  }

  function SimulationOfPair(b: Backend, env: Env, simulations: seq<Simulation>, source: Lease, target: Lease): Option<Simulation> {
    match b
    case InMemory => LatestForPair(env, simulations, source.id, target.id)
    case Postgres => LatestRowForPair(env, simulations, source.repoId, source.id, target.id)
  }

  function SimulationOfLease(b: Backend, env: Env, simulations: seq<Simulation>, lease: Id): Option<Simulation> {
    match b
    case InMemory => LatestForLease(env, simulations, lease)
    case Postgres => LatestRowForLease(env, simulations, lease)
  }

  function ReposOf(b: Backend, env: Env, repos: seq<Repo>): seq<Repo> {
    match b
    case InMemory => repos
    case Postgres => Sort(env.RepoRows(), repos)
  }

  function Replace<T(!new)>(b: Backend, key: T -> Key, s: seq<T>, x: T): seq<T> {
    match b
    case InMemory => Put(key, s, x)
    case Postgres => Rewrite(key, s, x)
  }

  // ----- derived views -----

  function Score(b: Backend, env: Env, simulations: seq<Simulation>): PairScore {
    (source: Lease, target: Lease) => env.score(source, target, SimulationOfPair(b, env, simulations, source, target))
  }

  function RepoRiskList(b: Backend, env: Env, s: Snapshot, repo: Id): seq<ConflictRisk> {
    Sort(env.RiskOrder(), Pairs(Score(b, env, s.simulations), ActiveOf(b, env, s.leases, repo)))
  }

  function LeaseRiskList(b: Backend, env: Env, s: Snapshot, id: Id): seq<ConflictRisk> {
    match Lookup(LeaseKey(), id, s.leases)
    case None => []
    case Some(lease) =>
      if lease.status != Active then []
      else
        Sort(env.RiskOrder(),
             Map(ScoreAgainst(Score(b, env, s.simulations), lease),
                 Filter(Partner(lease), ActiveOf(b, env, s.leases, lease.repoId))))
  }

  function AllRiskList(b: Backend, env: Env, s: Snapshot, repos: seq<Repo>): seq<ConflictRisk>
    decreases |repos|
  {
    if repos == [] then [] else RepoRiskList(b, env, s, repos[0].id) + AllRiskList(b, env, s, repos[1..])
  }

  /** One more repo: what is left to add gets shorter by its list. */
  lemma AllRiskListStep(b: Backend, env: Env, s: Snapshot, repos: seq<Repo>, i: nat, done: seq<ConflictRisk>)
    requires i < |repos|
    ensures done + AllRiskList(b, env, s, repos[i..])
         == done + RepoRiskList(b, env, s, repos[i].id) + AllRiskList(b, env, s, repos[i + 1..])
  {
    assert repos[i..][1..] == repos[i + 1..];
  }

  function RunRiskList(b: Backend, env: Env, s: Snapshot, run: Id): seq<ConflictRisk> {
    Filter(Touches(RunLeaseIds(s.leases, run)), AllRiskList(b, env, s, ReposOf(b, env, s.repos)))
  }

  function HighestRisk(b: Backend, env: Env, s: Snapshot, lease: Id): Option<ConflictRisk> {
    Head(LeaseRiskList(b, env, s, lease))
  }

  function Fields(b: Backend, env: Env, s: Snapshot, lease: Id): QueueFields {
    FieldsOf(env, HighestRisk(b, env, s, lease), SimulationOfLease(b, env, s.simulations, lease))
  }

  function QueueList(b: Backend, env: Env, s: Snapshot): seq<QueueEntry> {
    Sort(if b == InMemory then env.QueueOrder() else env.QueueRows(), s.queue)
  }

  /** listAuditLogs: the array, or the table read with ORDER BY created_at, id. The audit field of a table is its rows in the
      order they were inserted, which no query shows. */
  function AuditList(b: Backend, env: Env, s: Snapshot): seq<AuditLog> {
    match b
    case InMemory => s.audit
    case Postgres => Sort(env.AuditRows(), s.audit)
  }

  // ----- operations -----

  datatype Step<+T> = Step(state: Snapshot, result: Result<T>)

  function CreateRepo(s: Snapshot, repo: Repo): Snapshot {
    s.(repos := s.repos + [repo])
  }

  function NewTask(id: Id, title: string, requester: Id, repoId: Id, baseBranch: string, now: Millis): Task {
    Task(id, title, Draft, requester, repoId, baseBranch, None, None, now, now)
  }

  function CreateTask(s: Snapshot, task: Task, auditId: Id, now: Millis): Snapshot {
    s.(tasks := s.tasks + [task],
       audit := s.audit + [AuditLog(auditId, TaskCreated(task.status), Some(task.id), task.requesterUserId, task.repoId, now)])
  }

  function UpdateTask(b: Backend, s: Snapshot, id: Id, patch: TaskPatch, now: Millis): Step<Task> {
    match Lookup(TaskKey(), id, s.tasks)
    case None => Step(s, Err(TaskNotFound(id)))
    case Some(task) =>
      var updated := PatchTask(task, patch, now);
      Step(s.(tasks := Replace(b, TaskKey(), s.tasks, updated)), Ok(updated))
  }

  function TransitionTask(b: Backend, s: Snapshot, id: Id, status: TaskStatus, auditId: Id, now: Millis): Step<Task> {
    match Lookup(TaskKey(), id, s.tasks)
    case None => Step(s, Err(TaskNotFound(id)))
    case Some(task) =>
      if !CanTransition(task.status, status) then Step(s, Err(InvalidTransition(task.status, status)))
      else
        var updated := task.(status := status, updatedAt := now);
        Step(s.(tasks := Replace(b, TaskKey(), s.tasks, updated),
                audit := s.audit + [AuditLog(auditId, TaskStatusChanged(task.status, status), Some(task.id),
                                             task.requesterUserId, task.repoId, now)]),
             Ok(updated))
  }

  function RecordAudit(s: Snapshot, log: AuditLog): Snapshot {
    s.(audit := s.audit + [log])
  }

  function CreateLease(s: Snapshot, lease: Lease): Snapshot {
    s.(leases := s.leases + [lease])
  }

  function UpdateLease(b: Backend, s: Snapshot, id: Id, patch: LeasePatch, now: Millis): Step<Lease> {
    match Lookup(LeaseKey(), id, s.leases)
    case None => Step(s, Err(LeaseNotFound(id)))
    case Some(lease) =>
      var updated := PatchLease(lease, patch, now);
      Step(s.(leases := Replace(b, LeaseKey(), s.leases, updated)), Ok(updated))
  }

  function ReleaseLease(b: Backend, s: Snapshot, id: Id, now: Millis): Step<Lease> {
    UpdateLease(b, s, id, LeasePatch(Some(Released), Some(now), None), now)
  }

  function UpdateEntry(b: Backend, s: Snapshot, id: Id, patch: QueuePatch, now: Millis): Step<QueueEntry> {
    match Lookup(QueueKey(), id, s.queue)
    case None => Step(s, Err(EntryNotFound(id)))
    case Some(entry) =>
      var updated := PatchEntry(entry, patch, now);
      Step(s.(queue := Replace(b, QueueKey(), s.queue, updated)), Ok(updated))
  }

  function Enqueue(b: Backend, env: Env, s: Snapshot, input: QueueInput, id: Id, now: Millis): Snapshot {
    s.(queue := s.queue + [NewEntry(input, Fields(b, env, s, input.branchLeaseId), id, now)])
  }

  function RefreshEntry(b: Backend, env: Env, s: Snapshot, id: Id, now: Millis): Step<QueueEntry> {
    match Lookup(QueueKey(), id, s.queue)
    case None => Step(s, Err(EntryNotFound(id)))
    case Some(entry) => UpdateEntry(b, s, id, Refresh(Fields(b, env, s, entry.branchLeaseId)), now)
  }

  function LiveOf(lease: Id): QueueEntry -> bool {
    (e: QueueEntry) => e.branchLeaseId == lease && e.Live()
  }

  /** The entries a refresh of the lease goes through, in the order the store lists them. */
  function RefreshIds(b: Backend, env: Env, s: Snapshot, lease: Id): seq<Id> {
    Map(QueueKey(), Filter(LiveOf(lease), if b == InMemory then s.queue else QueueList(b, env, s)))
  }

  function RefreshAll(b: Backend, env: Env, s: Snapshot, ids: seq<Id>, now: Millis): Snapshot
    decreases |ids|
  {
    if ids == [] then s else RefreshAll(b, env, RefreshEntry(b, env, s, ids[0], now).state, ids[1..], now)
  }

  /** The entries the refreshes return, in order. */
  function RefreshResults(b: Backend, env: Env, s: Snapshot, ids: seq<Id>, now: Millis): seq<QueueEntry>
    decreases |ids|
  {
    if ids == [] then []
    else
      var first := RefreshEntry(b, env, s, ids[0], now);
      (if first.result.Ok? then [first.result.value] else []) + RefreshResults(b, env, first.state, ids[1..], now)
  }

  /** After the first k refreshes: the state t and the entries done lead to the same end as the start s. */
  ghost predicate Halfway(b: Backend, env: Env, s: Snapshot, ids: seq<Id>, now: Millis, k: nat, t: Snapshot, done: seq<QueueEntry>) {
    && k <= |ids|
    && RefreshAll(b, env, t, ids[k..], now) == RefreshAll(b, env, s, ids, now)
    && done + RefreshResults(b, env, t, ids[k..], now) == RefreshResults(b, env, s, ids, now)
  }

  lemma HalfwayStart(b: Backend, env: Env, s: Snapshot, ids: seq<Id>, now: Millis)
    ensures Halfway(b, env, s, ids, now, 0, s, [])
  {
    assert ids[0..] == ids;
  }

  lemma RefreshCons(b: Backend, env: Env, t: Snapshot, ids: seq<Id>, now: Millis)
    requires ids != []
    ensures var r := RefreshEntry(b, env, t, ids[0], now);
            && RefreshAll(b, env, t, ids, now) == RefreshAll(b, env, r.state, ids[1..], now)
            && RefreshResults(b, env, t, ids, now)
                 == (if r.result.Ok? then [r.result.value] else []) + RefreshResults(b, env, r.state, ids[1..], now)
  {
  }

  lemma HalfwayStep(b: Backend, env: Env, s: Snapshot, ids: seq<Id>, now: Millis, k: nat, t: Snapshot, done: seq<QueueEntry>)
    requires Halfway(b, env, s, ids, now, k, t, done) && k < |ids|
    ensures var r := RefreshEntry(b, env, t, ids[k], now);
            Halfway(b, env, s, ids, now, k + 1, r.state, done + (if r.result.Ok? then [r.result.value] else []))
  {
    var left := ids[k..];
    assert left[0] == ids[k] && left[1..] == ids[k + 1..];
    RefreshCons(b, env, t, left, now);
    var r := RefreshEntry(b, env, t, ids[k], now);
    Regroup(done, if r.result.Ok? then [r.result.value] else [], RefreshResults(b, env, r.state, ids[k + 1..], now));
  }

  lemma Regroup<T>(x: seq<T>, y: seq<T>, z: seq<T>)
    ensures x + (y + z) == x + y + z
  {
  }

  lemma HalfwayDone(b: Backend, env: Env, s: Snapshot, ids: seq<Id>, now: Millis, t: Snapshot, done: seq<QueueEntry>)
    requires Halfway(b, env, s, ids, now, |ids|, t, done)
    ensures t == RefreshAll(b, env, s, ids, now) && done == RefreshResults(b, env, s, ids, now)
  {
  }

  function RefreshLease(b: Backend, env: Env, s: Snapshot, lease: Id, now: Millis): Snapshot {
    RefreshAll(b, env, s, RefreshIds(b, env, s, lease), now)
  }

  /** The lease's task gets the higher of the lease's highest risk and the simulation's contribution. */
  function RescoreTask(b: Backend, env: Env, s: Snapshot, simulation: Simulation, id: Id, now: Millis): Step<Simulation> {
    match Lookup(LeaseKey(), id, s.leases)
    case None => Step(s, Ok(simulation))
    case Some(lease) =>
      var highest := HighestRisk(b, env, s, lease.id);
      var score := Max(if highest.Some? then highest.value.riskScore else 0.0, simulation.riskContribution);
      var updated := UpdateTask(b, s, lease.taskId, TaskPatch(None, Some(score), None), now);
      Step(updated.state, if updated.result.Ok? then Ok(simulation) else Err(updated.result.error))
  }

  function RefreshAfter(b: Backend, env: Env, rescored: Step<Simulation>, id: Id, now: Millis): Step<Simulation> {
    if rescored.result.Err? then rescored
    else Step(RefreshLease(b, env, rescored.state, id, now), rescored.result)
  }

  /** PRIMARY KEY (id): the table takes no second simulation with an id, the array does. */
  predicate Rejected(b: Backend, s: Snapshot, simulation: Simulation) {
    b == Postgres && Lookup(SimulationKey(), simulation.id, s.simulations).Some?
  }

  /** Insert the simulation; if it names a lease, rescore that lease's task and refresh its live entries. A lease
      whose task is missing makes updateTask throw after the insert and before the refresh. */
  function RecordSimulation(b: Backend, env: Env, s: Snapshot, simulation: Simulation, now: Millis): Step<Simulation> {
    var inserted := s.(simulations := s.simulations + [simulation]);
    if Rejected(b, s, simulation) then Step(s, Err(SimulationExists(simulation.id)))
    else if simulation.branchLeaseId.None? || simulation.branchLeaseId.value == "" then Step(inserted, Ok(simulation))
    else
      var id := simulation.branchLeaseId.value;
      RefreshAfter(b, env, RescoreTask(b, env, inserted, simulation, id, now), id, now)
  }

  /** Release the entry's lease, then patch the entry; a missing entry or lease stops before any change. */
  function Finish(b: Backend, s: Snapshot, id: Id, patch: QueuePatch, now: Millis): Step<QueueEntry> {
    match Lookup(QueueKey(), id, s.queue)
    case None => Step(s, Err(EntryNotFound(id)))
    case Some(entry) =>
      var released := ReleaseLease(b, s, entry.branchLeaseId, now);
      if released.result.Err? then Step(released.state, Err(released.result.error))
      else UpdateEntry(b, released.state, id, patch, now)
  }

  function MarkEntryMerged(b: Backend, s: Snapshot, id: Id, now: Millis): Step<QueueEntry> {
    Finish(b, s, id, MarkMerged, now)
  }

  function CancelEntry(b: Backend, s: Snapshot, id: Id, reason: string, now: Millis): Step<QueueEntry> {
    var reasons :=
      match Lookup(QueueKey(), id, s.queue)
      case None => [reason]
      case Some(entry) => entry.fields.reasons + [reason];
    Finish(b, s, id, Cancel(reasons), now)
  }

  // ----- a call, and runs of calls -----

  datatype Op =
    | AddRepo(repo: Repo)
    | AddTask(task: Task, auditId: Id, now: Millis)
    | PatchTaskOp(id: Id, taskPatch: TaskPatch, now: Millis)
    | Transition(id: Id, status: TaskStatus, auditId: Id, now: Millis)
    | Audit(log: AuditLog)
    | AddLease(lease: Lease)
    | SyncLeaseFiles(id: Id, files: seq<string>, now: Millis)
    | Release(id: Id, now: Millis)
    | Simulate(simulation: Simulation, now: Millis)
    | AddEntry(input: QueueInput, id: Id, now: Millis)
    | RefreshLive(id: Id, now: Millis)
    | Merge(id: Id, now: Millis)
    | CancelOp(id: Id, reason: string, now: Millis)

  /** What a call hands back: the record it made or patched, or the error it threw. A refresh hands back entries, here up to
      their order, in which the stores differ. */
  datatype Outcome =
    | Made
    | TaskResult(task: Result<Task>)
    | LeaseResult(leaseResult: Result<Lease>)
    | SimulationResult(simulationResult: Result<Simulation>)
    | EntryMade(entry: QueueEntry)
    | EntryResult(entryResult: Result<QueueEntry>)
    | EntriesRefreshed(entries: multiset<QueueEntry>)

  function Apply(b: Backend, env: Env, s: Snapshot, op: Op): (Snapshot, Outcome) {
    match op
    case AddRepo(repo) => (CreateRepo(s, repo), Made)
    case AddTask(task, auditId, now) => (CreateTask(s, task, auditId, now), Made)
    case PatchTaskOp(id, patch, now) =>
      var r := UpdateTask(b, s, id, patch, now); (r.state, TaskResult(r.result))
    case Transition(id, status, auditId, now) =>
      var r := TransitionTask(b, s, id, status, auditId, now); (r.state, TaskResult(r.result))
    case Audit(log) => (RecordAudit(s, log), Made)
    case AddLease(lease) => (CreateLease(s, lease), Made)
    case SyncLeaseFiles(id, files, now) =>
      var r := UpdateLease(b, s, id, LeasePatch(None, None, Some(files)), now); (r.state, LeaseResult(r.result))
    case Release(id, now) =>
      var r := ReleaseLease(b, s, id, now); (r.state, LeaseResult(r.result))
    case Simulate(simulation, now) =>
      var r := RecordSimulation(b, env, s, simulation, now); (r.state, SimulationResult(r.result))
    case AddEntry(input, id, now) =>
      (Enqueue(b, env, s, input, id, now), EntryMade(NewEntry(input, Fields(b, env, s, input.branchLeaseId), id, now)))
    case RefreshLive(id, now) =>
      (RefreshLease(b, env, s, id, now),
       EntriesRefreshed(multiset(RefreshResults(b, env, s, RefreshIds(b, env, s, id), now))))
    case Merge(id, now) =>
      var r := MarkEntryMerged(b, s, id, now); (r.state, EntryResult(r.result))
    case CancelOp(id, reason, now) =>
      var r := CancelEntry(b, s, id, reason, now); (r.state, EntryResult(r.result))
  }

  function Run(b: Backend, env: Env, s: Snapshot, ops: seq<Op>): Snapshot
    decreases |ops|
  {
    if ops == [] then s else Run(b, env, Apply(b, env, s, ops[0]).0, ops[1..])
  }

  const Empty := Snapshot([], [], [], [], [], [])

  /** Ids come from createId, so they are not in use; a new task starts as a draft (domain.ts:66). */
  ghost predicate Legal(s: Snapshot, op: Op) {
    match op
    case AddRepo(repo) => Keyed.Fresh(RepoKey(), repo.id, s.repos)
    case AddTask(task, _, _) => Keyed.Fresh(TaskKey(), task.id, s.tasks) && task.status == Draft && NoAuditOf(s, task.id)
    case PatchTaskOp(_, patch, _) => patch.status.None?
    case Audit(log) => log.event.OtherAudit?
    case AddLease(lease) =>
      Keyed.Fresh(LeaseKey(), lease.id, s.leases) && MadeLeaseId(lease.id) && lease.status == Active
    case Simulate(simulation, _) => Keyed.Fresh(SimulationKey(), simulation.id, s.simulations)
    case AddEntry(input, id, _) => Keyed.Fresh(QueueKey(), id, s.queue) && input.status.None?
    case _ => true
  }

  /** createId("task") is fresh for the log too: nothing was ever recorded about the new id. */
  ghost predicate NoAuditOf(s: Snapshot, task: Id) {
    forall log :: log in s.audit ==> log.taskId != Some(task)
  }

  ghost predicate LegalRun(b: Backend, env: Env, s: Snapshot, ops: seq<Op>)
    decreases |ops|
  {
    ops == [] || (Legal(s, ops[0]) && LegalRun(b, env, Apply(b, env, s, ops[0]).0, ops[1..]))
  }
}
