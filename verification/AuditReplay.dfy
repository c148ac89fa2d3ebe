/** The audit log tells each task's history: folding a task's entries gives its current status. The entries are recorded in
    an order that the array keeps and the table does not: it is read with ORDER BY created_at, id
    (packages/db/src/repository.ts:144-197, 784-796, packages/db/src/postgres.ts:728-740). */
module AuditReplay {
  import opened Sequences
  import opened Domain
  import opened Keyed
  import opened Queue
  import opened Stores
  import opened RefreshTheorems
  import opened SafetyTheorems

  datatype Trail = Unborn | At(status: TaskStatus) | Broken

  /** One log entry read as a step of the task: created once, then each change leaves from where the
      previous one arrived and is an allowed transition. */
  function Advance(trail: Trail, log: AuditLog, task: Id): Trail {
    if log.taskId != Some(task) then trail
    else
      match log.event
      case TaskCreated(status) => if trail == Unborn then At(status) else Broken
      case TaskStatusChanged(from, to) => if trail == At(from) && CanTransition(from, to) then At(to) else Broken
      case OtherAudit(_) => trail
  }

  function Replay(audit: seq<AuditLog>, task: Id): Trail {
    if audit == [] then Unborn
    else Advance(Replay(audit[..|audit| - 1], task), audit[|audit| - 1], task)
  }

  /** Replaying the entries in the order they were recorded gives every task its status. */
  ghost predicate Recorded(s: Snapshot) {
    forall t :: t in s.tasks ==> Replay(s.audit, t.id) == At(t.status)
  }

  lemma ReplayAppend(audit: seq<AuditLog>, log: AuditLog, task: Id)
    ensures Replay(audit + [log], task) == Advance(Replay(audit, task), log, task)
  {
    assert (audit + [log])[..|audit|] == audit;
  }

  lemma {:induction false} NothingRecorded(audit: seq<AuditLog>, task: Id)
    requires forall log :: log in audit ==> log.taskId != Some(task)
    ensures Replay(audit, task) == Unborn
  {
    if audit != [] {
      assert audit[|audit| - 1] in audit;
      NothingRecorded(audit[..|audit| - 1], task);
    }
  }

  /** Every task of after is one of before, with the same status. */
  ghost predicate StatusesKept(before: seq<Task>, after: seq<Task>) {
    forall y :: y in after ==> exists x :: x in before && x.id == y.id && x.status == y.status
  }

  lemma PatchKeepsStatuses(b: Backend, s: Snapshot, id: Id, patch: TaskPatch, now: Millis)
    requires UniqueKeys(TaskKey(), s.tasks) && patch.status.None?
    ensures var t := UpdateTask(b, s, id, patch, now).state;
            StatusesKept(s.tasks, t.tasks) && t.audit == s.audit && UniqueKeys(TaskKey(), t.tasks)
  {
    var found := Lookup(TaskKey(), id, s.tasks);
    LookupFresh(TaskKey(), id, s.tasks);
    if found.Some? {
      ReplaceMembers(b, TaskKey(), s.tasks, PatchTask(found.value, patch, now));
    }
  }

  lemma RescoreKeepsStatuses(b: Backend, env: Env, s: Snapshot, simulation: Simulation, id: Id, now: Millis)
    requires UniqueKeys(TaskKey(), s.tasks)
    ensures var t := RescoreTask(b, env, s, simulation, id, now).state;
            StatusesKept(s.tasks, t.tasks) && t.audit == s.audit && t.queue == s.queue
  {
    var lease := Lookup(ConflictRisks.LeaseKey(), id, s.leases);
    if lease.Some? {
      var highest := HighestRisk(b, env, s, lease.value.id);
      var score := Max(if highest.Some? then highest.value.riskScore else 0.0, simulation.riskContribution);
      PatchKeepsStatuses(b, s, lease.value.taskId, TaskPatch(None, Some(score), None), now);
    }
  }

  lemma RefreshKeepsTasks(b: Backend, env: Env, s: Snapshot, lease: Id, now: Millis)
    requires UniqueKeys(QueueKey(), s.queue)
    ensures var t := RefreshLease(b, env, s, lease, now); t.tasks == s.tasks && t.audit == s.audit
  {
    RefreshLeaseIsExact(b, env, s, lease, now);
  }

  lemma RecordingKeepsStatuses(b: Backend, env: Env, s: Snapshot, simulation: Simulation, now: Millis)
    requires s.UniqueIds()
    ensures var t := RecordSimulation(b, env, s, simulation, now).state; StatusesKept(s.tasks, t.tasks) && t.audit == s.audit
  {
    if simulation.branchLeaseId.Some? && simulation.branchLeaseId.value != "" {
      var id := simulation.branchLeaseId.value;
      var inserted := s.(simulations := s.simulations + [simulation]);
      RescoreKeepsStatuses(b, env, inserted, simulation, id, now);
      RefreshKeepsTasks(b, env, RescoreTask(b, env, inserted, simulation, id, now).state, id, now);
    }
  }

  lemma FinishKeepsTasks(b: Backend, s: Snapshot, id: Id, patch: QueuePatch, now: Millis)
    ensures var t := Finish(b, s, id, patch, now).state; t.tasks == s.tasks && t.audit == s.audit
  {
  }

  lemma TransitionIsLogged(b: Backend, s: Snapshot, id: Id, status: TaskStatus, auditId: Id, now: Millis)
    requires UniqueKeys(TaskKey(), s.tasks) && Recorded(s)
    ensures Recorded(TransitionTask(b, s, id, status, auditId, now).state)
  {
    var found := Lookup(TaskKey(), id, s.tasks);
    LookupFresh(TaskKey(), id, s.tasks);
    if found.Some? && CanTransition(found.value.status, status) {
      var task := found.value;
      ReplaceMembers(b, TaskKey(), s.tasks, task.(status := status, updatedAt := now));
      var log := AuditLog(auditId, TaskStatusChanged(task.status, status), Some(task.id), task.requesterUserId, task.repoId, now);
      var t := TransitionTask(b, s, id, status, auditId, now).state;
      forall y | y in t.tasks
        ensures Replay(t.audit, y.id) == At(y.status)
      {
        ReplayAppend(s.audit, log, y.id);
        assert task in s.tasks;
      }
    }
  }

  lemma CreationIsLogged(s: Snapshot, task: Task, auditId: Id, now: Millis)
    requires Recorded(s) && Keyed.Fresh(TaskKey(), task.id, s.tasks) && NoAuditOf(s, task.id)
    ensures Recorded(CreateTask(s, task, auditId, now))
  {
    var log := AuditLog(auditId, TaskCreated(task.status), Some(task.id), task.requesterUserId, task.repoId, now);
    forall y | y in s.tasks + [task]
      ensures Replay(s.audit + [log], y.id) == At(y.status)
    {
      ReplayAppend(s.audit, log, y.id);
      if y == task {
        NothingRecorded(s.audit, task.id);
      } else {
        assert TaskKey()(y) != task.id;
      }
    }
  }

  lemma OtherAuditIgnored(s: Snapshot, log: AuditLog)
    requires Recorded(s) && log.event.OtherAudit?
    ensures Recorded(RecordAudit(s, log))
  {
    forall y | y in s.tasks
      ensures Replay(s.audit + [log], y.id) == At(y.status)
    {
      ReplayAppend(s.audit, log, y.id);
    }
  }

  lemma CallIsLogged(b: Backend, env: Env, s: Snapshot, op: Op)
    requires QueueSafe(s) && Recorded(s) && Legal(s, op)
    ensures Recorded(Apply(b, env, s, op).0)
  {
    match op
    case AddTask(task, auditId, now) => CreationIsLogged(s, task, auditId, now);
    case PatchTaskOp(id, patch, now) => PatchKeepsStatuses(b, s, id, patch, now);
    case Transition(id, status, auditId, now) => TransitionIsLogged(b, s, id, status, auditId, now);
    case Audit(log) => OtherAuditIgnored(s, log);
    case Simulate(simulation, now) => RecordingKeepsStatuses(b, env, s, simulation, now);
    case RefreshLive(id, now) => RefreshKeepsTasks(b, env, s, id, now);
    case Merge(id, now) => FinishKeepsTasks(b, s, id, MarkMerged, now);
    case CancelOp(id, reason, now) =>
      var found := Lookup(QueueKey(), id, s.queue);
      FinishKeepsTasks(b, s, id, Cancel(if found.None? then [reason] else found.value.fields.reasons + [reason]), now);
    case _ =>
  }

  /** In every reachable state, replaying the entries as they were recorded gives every task its current status. */
  lemma {:induction false} RunIsLogged(b: Backend, env: Env, s: Snapshot, ops: seq<Op>)
    requires env.Valid() && QueueSafe(s) && Recorded(s) && LegalRun(b, env, s, ops)
    ensures Recorded(Run(b, env, s, ops))
    decreases |ops|
  {
    if ops != [] {
      CallIsSafe(b, env, s, ops[0]);
      CallIsLogged(b, env, s, ops[0]);
      RunIsLogged(b, env, Apply(b, env, s, ops[0]).0, ops[1..]);
    }
  }

  // ----- the log as it is read -----

  /** Replaying the log as listAuditLogs returns it gives every task its status. */
  ghost predicate Truthful(b: Backend, env: Env, s: Snapshot) {
    forall t :: t in s.tasks ==> Replay(AuditList(b, env, s), t.id) == At(t.status)
  }

  /** The entries that tell the task's history. */
  function History(task: Id): AuditLog -> bool {
    (l: AuditLog) => l.taskId == Some(task) && !l.event.OtherAudit?
  }

  lemma {:induction false} ReplayHistory(audit: seq<AuditLog>, task: Id)
    ensures Replay(audit, task) == Replay(Filter(History(task), audit), task)
  {
    if audit != [] {
      var front, last := audit[..|audit| - 1], audit[|audit| - 1];
      assert audit == front + [last];
      ReplayHistory(front, task);
      FilterAppend(History(task), front, [last]);
      if History(task)(last) {
        ReplayAppend(Filter(History(task), front), last, task);
      } else {
        assert Filter(History(task), front) + [] == Filter(History(task), front);
      }
    }
  }

  ghost predicate InOrder(env: Env, audit: seq<AuditLog>, task: Id) {
    Sorted(env.AuditRows(), Filter(History(task), audit))
  }

  /** The table lists a task's history as it was recorded exactly when it was recorded in the order of times and ids. */
  lemma ListedExactly(env: Env, s: Snapshot, task: Id)
    ensures Filter(History(task), AuditList(Postgres, env, s)) == Filter(History(task), s.audit) <==> InOrder(env, s.audit, task)
  {
    AuditRowsTotal(env);
    SortedExactly(env.AuditRows(), History(task), s.audit);
  }

  /** The log reads truthfully in memory always, and from Postgres when every task's history was recorded in order. */
  lemma ListedReplays(b: Backend, env: Env, s: Snapshot)
    requires Recorded(s) && (b == Postgres ==> forall t :: t in s.tasks ==> InOrder(env, s.audit, t.id))
    ensures Truthful(b, env, s)
  {
    forall t | t in s.tasks
      ensures Replay(AuditList(b, env, s), t.id) == At(t.status)
    {
      if b == Postgres {
        ListedExactly(env, s, t.id);
        ReplayHistory(AuditList(b, env, s), t.id);
        ReplayHistory(s.audit, t.id);
      }
    }
  }

  /** What a caller can see before a transition: its entry will not sort before the task's earlier ones. */
  ghost predicate InTime(env: Env, s: Snapshot, op: Op) {
    op.Transition? ==>
      forall l :: l in s.audit && History(op.id)(l)
        ==> l.createdAt < op.now || (l.createdAt == op.now && env.database(l.id) <= env.database(op.auditId))
  }

  ghost predicate AllInOrder(env: Env, audit: seq<AuditLog>) {
    forall task :: InOrder(env, audit, task)
  }

  lemma InOrderAppend(env: Env, audit: seq<AuditLog>, log: AuditLog, task: Id)
    requires InOrder(env, audit, task)
    requires History(task)(log) ==> forall l :: l in audit && History(task)(l) ==> env.AuditRows()(l, log)
    ensures InOrder(env, audit + [log], task)
  {
    FilterAppend(History(task), audit, [log]);
    FilterMembers(History(task), audit);
    var f := Filter(History(task), audit);
    assert Filter(History(task), [log]) == if History(task)(log) then [log] else [];
    assert forall i :: 0 <= i < |f| ==> f[i] in f;
    assert f + [] == f;
  }

  lemma AllInOrderAppend(env: Env, audit: seq<AuditLog>, log: AuditLog)
    requires AllInOrder(env, audit)
    requires forall l :: l in audit && !log.event.OtherAudit? && l.taskId == log.taskId && !l.event.OtherAudit? ==> env.AuditRows()(l, log)
    ensures AllInOrder(env, audit + [log])
  {
    forall task
      ensures InOrder(env, audit + [log], task)
    {
      InOrderAppend(env, audit, log, task);
    }
  }

  lemma TransitionInOrder(b: Backend, env: Env, s: Snapshot, id: Id, status: TaskStatus, auditId: Id, now: Millis)
    requires AllInOrder(env, s.audit) && InTime(env, s, Transition(id, status, auditId, now))
    ensures AllInOrder(env, TransitionTask(b, s, id, status, auditId, now).state.audit)
  {
    var found := Lookup(TaskKey(), id, s.tasks);
    LookupFresh(TaskKey(), id, s.tasks);
    if found.Some? && CanTransition(found.value.status, status) {
      var task := found.value;
      AllInOrderAppend(env, s.audit, AuditLog(auditId, TaskStatusChanged(task.status, status), Some(task.id), task.requesterUserId, task.repoId, now));
    }
  }

  lemma CallInOrder(b: Backend, env: Env, s: Snapshot, op: Op)
    requires s.UniqueIds() && AllInOrder(env, s.audit) && Legal(s, op) && InTime(env, s, op)
    ensures AllInOrder(env, Apply(b, env, s, op).0.audit)
  {
    match op
    case AddTask(task, auditId, now) =>
      AllInOrderAppend(env, s.audit, AuditLog(auditId, TaskCreated(task.status), Some(task.id), task.requesterUserId, task.repoId, now));
    case Transition(id, status, auditId, now) => TransitionInOrder(b, env, s, id, status, auditId, now);
    case Audit(log) => AllInOrderAppend(env, s.audit, log);
    case Simulate(simulation, now) => RecordingKeepsStatuses(b, env, s, simulation, now);
    case RefreshLive(id, now) => RefreshKeepsTasks(b, env, s, id, now);
    case Merge(id, now) => FinishKeepsTasks(b, s, id, MarkMerged, now);
    case CancelOp(id, reason, now) =>
      var found := Lookup(QueueKey(), id, s.queue);
      FinishKeepsTasks(b, s, id, Cancel(if found.None? then [reason] else found.value.fields.reasons + [reason]), now);
    case _ =>
  }

  ghost predicate InTimeRun(b: Backend, env: Env, s: Snapshot, ops: seq<Op>)
    decreases |ops|
  {
    ops == [] || (InTime(env, s, ops[0]) && InTimeRun(b, env, Apply(b, env, s, ops[0]).0, ops[1..]))
  }

  lemma {:induction false} RunInOrder(b: Backend, env: Env, s: Snapshot, ops: seq<Op>)
    requires env.Valid() && QueueSafe(s) && AllInOrder(env, s.audit) && LegalRun(b, env, s, ops) && InTimeRun(b, env, s, ops)
    ensures AllInOrder(env, Run(b, env, s, ops).audit)
    decreases |ops|
  {
    if ops != [] {
      CallIsSafe(b, env, s, ops[0]);
      CallInOrder(b, env, s, ops[0]);
      RunInOrder(b, env, Apply(b, env, s, ops[0]).0, ops[1..]);
    }
  }

  /** In every state that calls reach, the log as it is read replays to every task's current status: from the array whatever the
      clock does, from the table when no transition's entry sorts before an earlier one of its task. */
  lemma LogReplays(b: Backend, env: Env, s: Snapshot, ops: seq<Op>)
    requires env.Valid() && QueueSafe(s) && Recorded(s) && LegalRun(b, env, s, ops)
    requires b == Postgres ==> AllInOrder(env, s.audit) && InTimeRun(b, env, s, ops)
    ensures Truthful(b, env, Run(b, env, s, ops))
  {
    RunIsLogged(b, env, s, ops);
    if b == Postgres {
      RunInOrder(b, env, s, ops);
    }
    ListedReplays(b, env, Run(b, env, s, ops));
  }

  // ----- patches -----

  /** A patch keeps the log truthful exactly when the task is missing, or the patch sets no status, or it sets the one the
      task has: a patch is not logged. */
  lemma PatchIsTruthfulExactly(b: Backend, env: Env, s: Snapshot, id: Id, patch: TaskPatch, now: Millis)
    requires UniqueKeys(TaskKey(), s.tasks) && Truthful(b, env, s)
    ensures var found := Lookup(TaskKey(), id, s.tasks);
            (Truthful(b, env, UpdateTask(b, s, id, patch, now).state))
              <==> (found.None? || patch.status.None? || patch.status.value == found.value.status)
  {
    var found := Lookup(TaskKey(), id, s.tasks);
    LookupFresh(TaskKey(), id, s.tasks);
    if found.Some? {
      var patched := PatchTask(found.value, patch, now);
      ReplaceMembers(b, TaskKey(), s.tasks, patched);
      var t := UpdateTask(b, s, id, patch, now).state;
      assert AuditList(b, env, t) == AuditList(b, env, s);
      assert patched in t.tasks && Replay(AuditList(b, env, t), id) == At(found.value.status);
    }
  }

  /** One draft, and its creation in the log. */
  function OneDraft(): Snapshot {
    CreateTask(Empty, NewTask("t", "", "u", "r", "main", 0), "a", 0)
  }

  lemma OneDraftIsTruthful(env: Env)
    ensures QueueSafe(OneDraft()) && Truthful(InMemory, env, OneDraft()) && |OneDraft().tasks| == 1
  {
    CreationIsLogged(Empty, NewTask("t", "", "u", "r", "main", 0), "a", 0);
    ListedReplays(InMemory, env, OneDraft());
  }

  function Completing(): TaskPatch {
    TaskPatch(Some(Completed), None, None)
  }

  /** Such a patch exists: completing a draft without a transition. */
  lemma StatusPatchEscapesTheLog(env: Env)
    ensures QueueSafe(OneDraft()) && Truthful(InMemory, env, OneDraft())
    ensures !Truthful(InMemory, env, UpdateTask(InMemory, OneDraft(), "t", Completing(), 1).state)
  {
    OneDraftIsTruthful(env);
    var task := OneDraft().tasks[0];
    assert task in OneDraft().tasks && task.id == "t" && task.status == Draft;
    LookupIs(TaskKey(), OneDraft().tasks, task);
    PatchIsTruthfulExactly(InMemory, env, OneDraft(), "t", Completing(), 1);
  }
}
