/** What each operation that changes a store leaves behind, in the fields of the records, for both stores
    (packages/db/src/repository.ts:130-254, 515-617, packages/db/src/postgres.ts:195-338, 545-608). */
module OperationMeaning {
  import opened Sequences
  import opened Domain
  import opened Keyed
  import opened ConflictRisks
  import opened LatestSimulation
  import opened Queue
  import opened Stores
  import opened TaskStatuses
  import opened QueueMeaning
  import opened RefreshTheorems
  import Recording

  // ----- one record replaced -----

  /** y stands for x and all else is as before: in the array in the same place, in the table in some place. */
  ghost predicate Replaced<T(!new)>(b: Backend, before: seq<T>, after: seq<T>, x: T, y: T) {
    && x in before
    && multiset(after) == multiset(before) - multiset{x} + multiset{y}
    && (b == InMemory ==> exists i :: 0 <= i < |before| && before[i] == x && after == before[i := y])
  }

  lemma {:induction false} WithoutOne<T(!new)>(key: T -> Key, s: seq<T>, x: T)
    requires UniqueKeys(key, s) && x in s
    ensures multiset(Filter(WithoutKey(key, key(x)), s)) == multiset(s) - multiset{x}
  {
    var p := WithoutKey(key, key(x));
    assert s == [s[0]] + s[1..];
    if s[0] == x {
      FilterAll(p, s[1..]);
    } else {
      WithoutOne(key, s[1..], x);
    }
  }

  lemma ReplaceIs<T(!new)>(b: Backend, key: T -> Key, s: seq<T>, x: T, y: T)
    requires UniqueKeys(key, s) && x in s && key(y) == key(x)
    ensures Replaced(b, s, Replace(b, key, s, y), x, y)
  {
    match b
    case InMemory =>
      LookupIs(key, s, x);
    case Postgres =>
      WithoutOne(key, s, x);
  }

  /** All of the state but the tasks and the log. */
  predicate OnlyTasks(s: Snapshot, t: Snapshot) {
    && t.repos == s.repos && t.leases == s.leases && t.simulations == s.simulations && t.queue == s.queue
  }

  // ----- tasks -----

  /** createTask: a draft at the end, with the given fields, and one log entry that says so. */
  lemma CreatedTaskIs(s: Snapshot, id: Id, title: string, requester: Id, repo: Id, base: string, auditId: Id, now: Millis)
    ensures var task := NewTask(id, title, requester, repo, base, now);
            var t := CreateTask(s, task, auditId, now);
            && OnlyTasks(s, t) && t.tasks == s.tasks + [task]
            && task.id == id && task.title == title && task.status == Draft && task.requesterUserId == requester
            && task.repoId == repo && task.baseBranch == base && task.branchName.None? && task.conflictRiskScore.None?
            && task.createdAt == now && task.updatedAt == now
            && |t.audit| == |s.audit| + 1 && t.audit[..|s.audit|] == s.audit
            && var log := t.audit[|s.audit|];
               && log.id == auditId && log.event.TaskCreated? && log.event.status == Draft && log.taskId == Some(id)
               && log.actorUserId == requester && log.repoId == repo && log.createdAt == now
  {
  }

  /** The other creations and the log only append. */
  lemma AppendsOnly(b: Backend, env: Env, s: Snapshot, repo: Repo, lease: Lease, log: AuditLog)
    ensures Apply(b, env, s, AddRepo(repo)).0 == s.(repos := s.repos + [repo])
    ensures Apply(b, env, s, AddLease(lease)).0 == s.(leases := s.leases + [lease])
    ensures Apply(b, env, s, Audit(log)).0 == s.(audit := s.audit + [log])
  {
  }

  /** The task as the patch leaves it: the given fields, the others as before, and the time. */
  ghost predicate PatchedTask(task: Task, patch: TaskPatch, now: Millis, y: Task) {
    && y == task.(status := y.status, conflictRiskScore := y.conflictRiskScore, branchName := y.branchName, updatedAt := now)
    && (if patch.status.Some? then y.status == patch.status.value else y.status == task.status)
    && (if patch.conflictRiskScore.Some? then y.conflictRiskScore == patch.conflictRiskScore
        else y.conflictRiskScore == task.conflictRiskScore)
    && (if patch.branchName.Some? then y.branchName == patch.branchName else y.branchName == task.branchName)
  }

  lemma UpdatedTaskIs(b: Backend, s: Snapshot, task: Task, patch: TaskPatch, now: Millis)
    requires s.UniqueIds() && task in s.tasks
    ensures var r := UpdateTask(b, s, task.id, patch, now);
            && r.result.Ok? && PatchedTask(task, patch, now, r.result.value)
            && r.state == s.(tasks := r.state.tasks) && Replaced(b, s.tasks, r.state.tasks, task, r.result.value)
  {
    LookupIs(TaskKey(), s.tasks, task);
    ReplaceIs(b, TaskKey(), s.tasks, task, UpdateTask(b, s, task.id, patch, now).result.value);
  }

  /** transitionTask of a stored task: refused exactly when the status is neither its own nor one entered from it, and then
      with both; else the task has the status and the time and is otherwise as before, and one log entry has both statuses. */
  lemma TransitionedTaskIs(b: Backend, s: Snapshot, task: Task, status: TaskStatus, auditId: Id, now: Millis)
    requires s.UniqueIds() && task in s.tasks
    ensures var r := TransitionTask(b, s, task.id, status, auditId, now);
            && OnlyTasks(s, r.state)
            && (if status == task.status || task.status in EnteredFrom(status) then
                  && r.result.Ok? && r.result.value == task.(status := status, updatedAt := now)
                  && Replaced(b, s.tasks, r.state.tasks, task, r.result.value)
                  && |r.state.audit| == |s.audit| + 1 && r.state.audit[..|s.audit|] == s.audit
                  && var log := r.state.audit[|s.audit|];
                     && log.id == auditId && log.event.TaskStatusChanged? && log.event.from == task.status
                     && log.event.to == status && log.taskId == Some(task.id) && log.actorUserId == task.requesterUserId
                     && log.repoId == task.repoId && log.createdAt == now
                else r.state == s && r.result == Err(InvalidTransition(task.status, status)))
  {
    LookupIs(TaskKey(), s.tasks, task);
    TransitionsBackwards(task.status, status);
    if CanTransition(task.status, status) {
      ReplaceIs(b, TaskKey(), s.tasks, task, task.(status := status, updatedAt := now));
    }
  }

  lemma UnknownTask(b: Backend, s: Snapshot, id: Id, patch: TaskPatch, status: TaskStatus, auditId: Id, now: Millis)
    requires forall t :: t in s.tasks ==> t.id != id
    ensures UpdateTask(b, s, id, patch, now) == Step(s, Err(TaskNotFound(id)))
    ensures TransitionTask(b, s, id, status, auditId, now) == Step(s, Err(TaskNotFound(id)))
  {
    LookupFresh(TaskKey(), id, s.tasks);
  }

  // ----- leases -----

  ghost predicate PatchedLease(lease: Lease, patch: LeasePatch, now: Millis, y: Lease) {
    && y == lease.(status := y.status, releasedAt := y.releasedAt, files := y.files, updatedAt := now)
    && (if patch.status.Some? then y.status == patch.status.value else y.status == lease.status)
    && (if patch.releasedAt.Some? then y.releasedAt == patch.releasedAt else y.releasedAt == lease.releasedAt)
    && (if patch.files.Some? then y.files == patch.files.value else y.files == lease.files)
  }

  lemma UpdatedLeaseIs(b: Backend, s: Snapshot, lease: Lease, patch: LeasePatch, now: Millis)
    requires s.UniqueIds() && lease in s.leases
    ensures var r := UpdateLease(b, s, lease.id, patch, now);
            && r.result.Ok? && PatchedLease(lease, patch, now, r.result.value)
            && r.state == s.(leases := r.state.leases) && Replaced(b, s.leases, r.state.leases, lease, r.result.value)
  {
    LookupIs(LeaseKey(), s.leases, lease);
    ReplaceIs(b, LeaseKey(), s.leases, lease, UpdateLease(b, s, lease.id, patch, now).result.value);
  }

  /** releaseBranchLease: the lease is released now, and is otherwise as before. */
  lemma ReleasedLeaseIs(b: Backend, s: Snapshot, lease: Lease, now: Millis)
    requires s.UniqueIds() && lease in s.leases
    ensures var r, released := ReleaseLease(b, s, lease.id, now), lease.(status := Released, releasedAt := Some(now), updatedAt := now);
            && r.result == Ok(released)
            && r.state == s.(leases := r.state.leases) && Replaced(b, s.leases, r.state.leases, lease, released)
  {
    UpdatedLeaseIs(b, s, lease, LeasePatch(Some(Released), Some(now), None), now);
  }

  lemma UnknownLease(b: Backend, s: Snapshot, id: Id, patch: LeasePatch, now: Millis)
    requires forall l :: l in s.leases ==> l.id != id
    ensures UpdateLease(b, s, id, patch, now) == Step(s, Err(LeaseNotFound(id)))
    ensures ReleaseLease(b, s, id, now) == Step(s, Err(LeaseNotFound(id)))
  {
    LookupFresh(LeaseKey(), id, s.leases);
  }

  // ----- queue entries -----

  lemma FinishedIs(b: Backend, s: Snapshot, entry: QueueEntry, lease: Lease, patch: QueuePatch, now: Millis, finished: QueueEntry)
    requires s.UniqueIds() && entry in s.queue && lease in s.leases && lease.id == entry.branchLeaseId
    requires finished == PatchEntry(entry, patch, now) && finished.id == entry.id
    ensures var r, released := Finish(b, s, entry.id, patch, now), lease.(status := Released, releasedAt := Some(now), updatedAt := now);
            && r.result == Ok(finished)
            && r.state == s.(leases := r.state.leases, queue := r.state.queue)
            && Replaced(b, s.leases, r.state.leases, lease, released)
            && Replaced(b, s.queue, r.state.queue, entry, finished)
  {
    LookupIs(QueueKey(), s.queue, entry);
    ReleasedLeaseIs(b, s, lease, now);
    ReplaceIs(b, QueueKey(), s.queue, entry, finished);
  }

  /** markMergeQueueEntryMerged of a stored entry with a stored lease: the entry has the status, the time it was merged and
      the time of its change, and is otherwise as before; its lease is released; nothing else changes. */
  lemma MergedIs(b: Backend, s: Snapshot, entry: QueueEntry, lease: Lease, now: Millis)
    requires s.UniqueIds() && entry in s.queue && lease in s.leases && lease.id == entry.branchLeaseId
    ensures var r, released := MarkEntryMerged(b, s, entry.id, now), lease.(status := Released, releasedAt := Some(now), updatedAt := now);
            var merged := entry.(fields := entry.fields.(status := Merged), mergedAt := Some(now), updatedAt := now);
            && r.result == Ok(merged)
            && r.state == s.(leases := r.state.leases, queue := r.state.queue)
            && Replaced(b, s.leases, r.state.leases, lease, released)
            && Replaced(b, s.queue, r.state.queue, entry, merged)
  {
    var merged := entry.(fields := entry.fields.(status := Merged), mergedAt := Some(now), updatedAt := now);
    FinishedIs(b, s, entry, lease, MarkMerged, now, merged);
  }

  /** cancelMergeQueueEntry: likewise, with the reason after those it had and the time it was cancelled. */
  lemma CancelledIs(b: Backend, s: Snapshot, entry: QueueEntry, lease: Lease, reason: string, now: Millis)
    requires s.UniqueIds() && entry in s.queue && lease in s.leases && lease.id == entry.branchLeaseId
    ensures var r, released := CancelEntry(b, s, entry.id, reason, now), lease.(status := Released, releasedAt := Some(now), updatedAt := now);
            var cancelled := entry.(fields := entry.fields.(status := Cancelled, reasons := entry.fields.reasons + [reason]),
                                    cancelledAt := Some(now), updatedAt := now);
            && r.result == Ok(cancelled)
            && r.state == s.(leases := r.state.leases, queue := r.state.queue)
            && Replaced(b, s.leases, r.state.leases, lease, released)
            && Replaced(b, s.queue, r.state.queue, entry, cancelled)
  {
    LookupIs(QueueKey(), s.queue, entry);
    var cancelled := entry.(fields := entry.fields.(status := Cancelled, reasons := entry.fields.reasons + [reason]),
                            cancelledAt := Some(now), updatedAt := now);
    FinishedIs(b, s, entry, lease, Cancel(entry.fields.reasons + [reason]), now, cancelled);
  }

  /** Without the entry or its lease, neither call changes anything, and the missing record is named. */
  lemma NotFinished(b: Backend, s: Snapshot, id: Id, reason: string, now: Millis)
    requires s.UniqueIds()
    requires forall e, l :: e in s.queue && e.id == id && l in s.leases ==> l.id != e.branchLeaseId
    ensures var merge, cancel := MarkEntryMerged(b, s, id, now), CancelEntry(b, s, id, reason, now);
            && merge.state == s && cancel.state == s && merge.result.Err? && cancel.result == merge.result
            && (merge.result.error == EntryNotFound(id) <==> forall e :: e in s.queue ==> e.id != id)
            && (forall e :: e in s.queue && e.id == id ==> merge.result.error == LeaseNotFound(e.branchLeaseId))
  {
    LookupFresh(QueueKey(), id, s.queue);
    var found := Lookup(QueueKey(), id, s.queue);
    if found.Some? {
      UnknownLease(b, s, found.value.branchLeaseId, LeasePatch(Some(Released), Some(now), None), now);
      forall e | e in s.queue && e.id == id
        ensures e == found.value
      {
        LookupIs(QueueKey(), s.queue, e);
      }
    }
  }

  /** refreshMergeQueueEntryRisk of a stored entry, finished or not: it gets the derived fields of its lease. */
  lemma RefreshedIs(b: Backend, env: Env, s: Snapshot, entry: QueueEntry, now: Millis)
    requires s.UniqueIds() && entry in s.queue
    ensures var r, refreshed := RefreshEntry(b, env, s, entry.id, now),
                                entry.(fields := Fields(b, env, s, entry.branchLeaseId), updatedAt := now);
            && r.result == Ok(refreshed)
            && r.state == s.(queue := r.state.queue) && Replaced(b, s.queue, r.state.queue, entry, refreshed)
  {
    LookupIs(QueueKey(), s.queue, entry);
    ReplaceIs(b, QueueKey(), s.queue, entry, entry.(fields := Fields(b, env, s, entry.branchLeaseId), updatedAt := now));
  }

  // ----- recording a simulation -----

  /** score is the highest of the list, or x if that is higher; an empty list counts as zero. */
  ghost predicate IsTop(risks: seq<ConflictRisk>, x: real, score: real) {
    && x <= score && (forall r :: r in risks ==> r.riskScore <= score) && (risks == [] ==> 0.0 <= score)
    && (score == x || (risks == [] && score == 0.0) || exists r :: r in risks && r.riskScore == score)
  }

  /** What the highest risk of the lease contributes is the highest of its list. */
  lemma ScoreIsTop(b: Backend, env: Env, s: Snapshot, lease: Id, x: real)
    ensures IsTop(LeaseRiskList(b, env, s, lease), x, Max(Recording.ConflictScore(b, env, s, lease), x))
  {
    ListIsHighest(b, env, s, lease);
  }

  /** Recording a simulation of a stored lease with a stored task: the simulation is added; the task scores the higher of what
      the simulation contributes and the highest risk of the lease as it is afterwards; each entry of the lease that is
      neither merged nor cancelled has the fields derived afterwards; all else is as before. */
  lemma RecordedIs(b: Backend, env: Env, s: Snapshot, simulation: Simulation, lease: Lease, task: Task, now: Millis)
    requires s.UniqueIds() && (b == Postgres ==> forall x :: x in s.simulations ==> x.id != simulation.id)
    requires lease in s.leases && lease.id != "" && task in s.tasks && task.id == lease.taskId
    requires simulation.branchLeaseId == Some(lease.id)
    ensures var step := RecordSimulation(b, env, s, simulation, now); var r := step.state;
            && step.result == Ok(simulation)
            && r == s.(simulations := s.simulations + [simulation], tasks := r.tasks, queue := r.queue)
            && (exists score :: IsTop(LeaseRiskList(b, env, r, lease.id), simulation.riskContribution, score)
                  && forall y :: y in r.tasks <==>
                       (y in s.tasks && y != task) || y == task.(conflictRiskScore := Some(score), updatedAt := now))
            && (forall e :: e in s.queue && e.branchLeaseId == lease.id && e.fields.status != Merged && e.fields.status != Cancelled
                  ==> e.(fields := Fields(b, env, r, lease.id), updatedAt := now) in r.queue)
            && (forall e :: e in s.queue && (e.branchLeaseId != lease.id || e.fields.status == Merged || e.fields.status == Cancelled)
                  ==> e in r.queue)
  {
    LookupFresh(SimulationKey(), simulation.id, s.simulations);
    Recording.RecordingSucceeds(b, env, s, simulation, lease, task, now);
    Recording.RecordingRefreshesExactly(b, env, s, simulation, now);
    Recording.RecordingFailsExactly(b, env, s, simulation, now);
    var r := RecordSimulation(b, env, s, simulation, now).state;
    var score := Recording.TaskScore(b, env, r, lease.id, simulation);
    ScoreIsTop(b, env, r, lease.id, simulation.riskContribution);
    TasksRescored(s.tasks, r.tasks, task, score, now);
    LeaseEntriesRefreshed(b, env, r, lease.id, now, s.queue, r.queue);
  }

  lemma TasksRescored(before: seq<Task>, after: seq<Task>, task: Task, score: real, now: Millis)
    requires UniqueKeys(TaskKey(), before) && task in before && IsImage(Recording.Rescored(task.id, score, now), before, after)
    ensures forall y :: y in after <==> (y in before && y != task) || y == task.(conflictRiskScore := Some(score), updatedAt := now)
  {
    var f := Recording.Rescored(task.id, score, now);
    forall x | x in before
      ensures f(x) == if x == task then task.(conflictRiskScore := Some(score), updatedAt := now) else x
    {
      LookupIs(TaskKey(), before, x);
      LookupIs(TaskKey(), before, task);
    }
  }

  lemma LeaseEntriesRefreshed(b: Backend, env: Env, r: Snapshot, lease: Id, now: Millis, before: seq<QueueEntry>, after: seq<QueueEntry>)
    requires IsImage(RefreshedLease(b, env, r, lease, now), before, after)
    ensures forall e :: e in before && e.branchLeaseId == lease && e.fields.status != Merged && e.fields.status != Cancelled
              ==> e.(fields := Fields(b, env, r, lease), updatedAt := now) in after
    ensures forall e :: e in before && (e.branchLeaseId != lease || e.fields.status == Merged || e.fields.status == Cancelled) ==> e in after
  {
    var f := RefreshedLease(b, env, r, lease, now);
    forall e | e in before
      ensures f(e) in after
    {
    }
  }
}
