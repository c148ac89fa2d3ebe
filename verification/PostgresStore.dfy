/** PostgresAichestraStore: the same operations over tables. A table is its rows in whatever order the database keeps
    them; an UPDATE may move the row it rewrites; only ORDER BY fixes the order of what is read
    (packages/db/src/postgres.ts). */
module PostgresStore {
  import opened Sequences
  import opened Domain
  import opened Keyed
  import opened ConflictRisks
  import opened LatestSimulation
  import opened Queue
  import Stores
  import Agreement
  import MemoryStore

  class PostgresStore {
    const env: Env
    var repos: seq<Repo>
    var tasks: seq<Task>
    var leases: seq<Lease>
    var simulations: seq<Simulation>
    var queue: seq<QueueEntry>
    var audit: seq<AuditLog>

    function State(): Stores.Snapshot
      reads this
    {
      Stores.Snapshot(repos, tasks, leases, simulations, queue, audit)
    }

    constructor (env: Env)
      ensures this.env == env && State() == Stores.Empty
    {
      this.env := env;
      repos, tasks, leases, simulations, queue, audit := [], [], [], [], [], [];
    }

    method CreateRepo(repo: Repo)
      modifies this`repos
      ensures State() == Stores.CreateRepo(old(State()), repo)
    {
      repos := repos + [repo];
    }

    method CreateTask(id: Id, title: string, requester: Id, repoId: Id, baseBranch: string, auditId: Id, now: Millis)
      returns (task: Task)
      modifies this`tasks, this`audit
      ensures task == Stores.NewTask(id, title, requester, repoId, baseBranch, now)
      ensures State() == Stores.CreateTask(old(State()), task, auditId, now)
    {
      task := Task(id, title, Draft, requester, repoId, baseBranch, None, None, now, now);
      tasks := tasks + [task];
      RecordAudit(AuditLog(auditId, TaskCreated(task.status), Some(task.id), task.requesterUserId, task.repoId, now));
    }

    method RecordAudit(log: AuditLog)
      modifies this`audit
      ensures State() == Stores.RecordAudit(old(State()), log)
    {
      audit := audit + [log];
    }

    method UpdateTask(id: Id, patch: TaskPatch, now: Millis) returns (r: Result<Task>)
      modifies this`tasks
      ensures Stores.Step(State(), r) == Stores.UpdateTask(Stores.Postgres, old(State()), id, patch, now)
    {
      var current := Lookup(TaskKey(), id, tasks);
      if current.None? {
        return Err(TaskNotFound(id));
      }
      var updated := PatchTask(current.value, patch, now);
      tasks := Rewrite(TaskKey(), tasks, updated);
      r := Ok(updated);
    }

    method TransitionTask(id: Id, status: TaskStatus, auditId: Id, now: Millis) returns (r: Result<Task>)
      modifies this`tasks, this`audit
      ensures Stores.Step(State(), r) == Stores.TransitionTask(Stores.Postgres, old(State()), id, status, auditId, now)
    {
      var current := Lookup(TaskKey(), id, tasks);
      if current.None? {
        return Err(TaskNotFound(id));
      }
      var task := current.value;
      if !CanTransition(task.status, status) {
        return Err(InvalidTransition(task.status, status));
      }
      r := UpdateTask(id, TaskPatch(Some(status), None, None), now);
      RecordAudit(AuditLog(auditId, TaskStatusChanged(task.status, status), Some(task.id), task.requesterUserId, task.repoId, now));
    }

    method CreateBranchLease(lease: Lease)
      modifies this`leases
      ensures State() == Stores.CreateLease(old(State()), lease)
    {
      leases := leases + [lease];
    }

    method UpdateBranchLease(id: Id, patch: LeasePatch, now: Millis) returns (r: Result<Lease>)
      modifies this`leases
      ensures Stores.Step(State(), r) == Stores.UpdateLease(Stores.Postgres, old(State()), id, patch, now)
    {
      var current := Lookup(LeaseKey(), id, leases);
      if current.None? {
        return Err(LeaseNotFound(id));
      }
      var updated := PatchLease(current.value, patch, now);
      leases := Rewrite(LeaseKey(), leases, updated);
      r := Ok(updated);
    }

    method ReleaseBranchLease(id: Id, now: Millis) returns (r: Result<Lease>)
      modifies this`leases
      ensures Stores.Step(State(), r) == Stores.ReleaseLease(Stores.Postgres, old(State()), id, now)
    {
      r := UpdateBranchLease(id, LeasePatch(Some(Released), Some(now), None), now);
    }

    /** SELECT ... WHERE status = 'active' [AND repo_id = ...] ORDER BY created_at, id */
    method ListActiveBranchLeases(repoId: Id) returns (active: seq<Lease>)
      ensures active == Stores.ActiveOf(Stores.Postgres, env, leases, repoId)
      ensures Sorted(env.LeaseRows(), active)
      ensures forall l :: l in active <==> l in leases && l.status == Active && (repoId == "" || l.repoId == repoId)
      ensures UniqueLeases(leases) ==> UniqueLeases(active)
    {
      active := Sort(env.LeaseRows(), Filter(Stores.ActiveRow(repoId), leases));
      ActiveRowsAre(repoId, active);
    }

    lemma ActiveRowsAre(repoId: Id, active: seq<Lease>)
      requires active == Stores.ActiveOf(Stores.Postgres, env, leases, repoId)
      ensures Sorted(env.LeaseRows(), active)
      ensures forall l :: l in active <==> l in leases && l.status == Active && (repoId == "" || l.repoId == repoId)
      ensures UniqueLeases(leases) ==> UniqueLeases(active)
    {
      var rows := Filter(Stores.ActiveRow(repoId), leases);
      RowOrdersTotal(env);
      SortSorted(env.LeaseRows(), rows);
      SortMembers(env.LeaseRows(), rows);
      FilterMembers(Stores.ActiveRow(repoId), leases);
      if UniqueLeases(leases) {
        UniqueLeasesFilter(Stores.ActiveRow(repoId), leases);
        Agreement.SortKeepsUnique(env, rows);
      }
    }

    method ComputeRepoConflictRisks(repoId: Id) returns (risks: seq<ConflictRisk>)
      ensures risks == Stores.RepoRiskList(Stores.Postgres, env, State(), repoId)
    {
      var active := ListActiveBranchLeases(repoId);
      risks := MemoryStore.PairLoop(Stores.Score(Stores.Postgres, env, simulations), active);
      risks := Sort(env.RiskOrder(), risks);
    }

    method ComputeConflictRisksForLease(id: Id) returns (risks: seq<ConflictRisk>)
      ensures risks == Stores.LeaseRiskList(Stores.Postgres, env, State(), id)
    {
      var lease := Lookup(LeaseKey(), id, leases);
      if lease.None? || lease.value.status != Active {
        return [];
      }
      var active := ListActiveBranchLeases(lease.value.repoId);
      var partners := Filter(Partner(lease.value), active);
      risks := Sort(env.RiskOrder(), Map(ScoreAgainst(Stores.Score(Stores.Postgres, env, simulations), lease.value), partners));
    }

    method ComputeConflictRisksForTaskRun(run: Id) returns (risks: seq<ConflictRisk>)
      ensures risks == Stores.RunRiskList(Stores.Postgres, env, State(), run)
    {
      var listed := Sort(env.RepoRows(), repos);
      ghost var s := State();
      risks := [];
      var i := 0;
      while i < |listed|
        invariant 0 <= i <= |listed|
        invariant risks + Stores.AllRiskList(Stores.Postgres, env, s, listed[i..]) == Stores.AllRiskList(Stores.Postgres, env, s, listed)
      {
        var more := ComputeRepoConflictRisks(listed[i].id);
        Stores.AllRiskListStep(Stores.Postgres, env, s, listed, i, risks);
        risks := risks + more;
        i := i + 1;
      }
      assert risks == Stores.AllRiskList(Stores.Postgres, env, s, Stores.ReposOf(Stores.Postgres, env, s.repos));
      risks := Filter(Touches(RunLeaseIds(leases, run)), risks);
    }

    method MergeQueueFieldsForLease(id: Id) returns (fields: QueueFields)
      ensures fields == Stores.Fields(Stores.Postgres, env, State(), id)
    {
      var risks := ComputeConflictRisksForLease(id);
      fields := FieldsOf(env, Head(risks), LatestRowForLease(env, simulations, id));
    }

    method ListMergeQueueEntries() returns (entries: seq<QueueEntry>)
      ensures entries == Stores.QueueList(Stores.Postgres, env, State())
      ensures Sorted(env.QueueRows(), entries) && multiset(entries) == multiset(queue)
    {
      entries := Sort(env.QueueRows(), queue);
      RowOrdersTotal(env);
      SortSorted(env.QueueRows(), queue);
      SortMultiset(env.QueueRows(), queue);
    }

    method CreateMergeQueueEntry(input: QueueInput, id: Id, now: Millis) returns (entry: QueueEntry)
      modifies this`queue
      ensures State() == Stores.Enqueue(Stores.Postgres, env, old(State()), input, id, now)
      ensures State().queue == old(queue) + [entry]
    {
      var derived := MergeQueueFieldsForLease(input.branchLeaseId);
      entry := NewEntry(input, derived, id, now);
      queue := queue + [entry];
    }

    method UpdateMergeQueueEntry(id: Id, patch: QueuePatch, now: Millis) returns (r: Result<QueueEntry>)
      modifies this`queue
      ensures Stores.Step(State(), r) == Stores.UpdateEntry(Stores.Postgres, old(State()), id, patch, now)
    {
      var current := Lookup(QueueKey(), id, queue);
      if current.None? {
        return Err(EntryNotFound(id));
      }
      var updated := PatchEntry(current.value, patch, now);
      queue := Rewrite(QueueKey(), queue, updated);
      r := Ok(updated);
    }

    method RefreshMergeQueueEntryRisk(id: Id, now: Millis) returns (r: Result<QueueEntry>)
      modifies this`queue
      ensures Stores.Step(State(), r) == Stores.RefreshEntry(Stores.Postgres, env, old(State()), id, now)
    {
      var entry := Lookup(QueueKey(), id, queue);
      if entry.None? {
        return Err(EntryNotFound(id));
      }
      var fields := MergeQueueFieldsForLease(entry.value.branchLeaseId);
      r := UpdateMergeQueueEntry(id, Refresh(fields), now);
    }

    method RefreshMergeQueueEntriesForLease(lease: Id, now: Millis) returns (entries: seq<QueueEntry>)
      modifies this`queue
      ensures State() == Stores.RefreshLease(Stores.Postgres, env, old(State()), lease, now)
      ensures entries == Stores.RefreshResults(Stores.Postgres, env, old(State()), Stores.RefreshIds(Stores.Postgres, env, old(State()), lease), now)
    {
      var listed := ListMergeQueueEntries();
      var ids := Map(QueueKey(), Filter(Stores.LiveOf(lease), listed));
      ghost var s := State();
      entries := [];
      Stores.HalfwayStart(Stores.Postgres, env, s, ids, now);
      var k := 0;
      while k < |ids|
        invariant 0 <= k <= |ids|
        invariant Stores.Halfway(Stores.Postgres, env, s, ids, now, k, State(), entries)
      {
        Stores.HalfwayStep(Stores.Postgres, env, s, ids, now, k, State(), entries);
        var refreshed := RefreshMergeQueueEntryRisk(ids[k], now);
        entries := entries + if refreshed.Ok? then [refreshed.value] else [];
        k := k + 1;
      }
      Stores.HalfwayDone(Stores.Postgres, env, s, ids, now, State(), entries);
    }

    method RecordMergeSimulation(simulation: Simulation, now: Millis) returns (r: Result<Simulation>)
      modifies this`simulations, this`tasks, this`queue
      ensures Stores.Step(State(), r) == Stores.RecordSimulation(Stores.Postgres, env, old(State()), simulation, now)
    {
      if Lookup(SimulationKey(), simulation.id, simulations).Some? {
        return Err(SimulationExists(simulation.id));
      }
      simulations := simulations + [simulation];
      if simulation.branchLeaseId.None? || simulation.branchLeaseId.value == "" {
        return Ok(simulation);
      }
      var id := simulation.branchLeaseId.value;
      var lease := Lookup(LeaseKey(), id, leases);
      if lease.Some? {
        var risks := ComputeConflictRisksForLease(lease.value.id);
        var score := Max(if risks == [] then 0.0 else risks[0].riskScore, simulation.riskContribution);
        var updated := UpdateTask(lease.value.taskId, TaskPatch(None, Some(score), None), now);
        if updated.Err? {
          return Err(updated.error);
        }
      }
      var _ := RefreshMergeQueueEntriesForLease(id, now);
      r := Ok(simulation);
    }

    /** SELECT ... ORDER BY created_at, id */
    method ListAuditLogs() returns (logs: seq<AuditLog>)
      ensures logs == Stores.AuditList(Stores.Postgres, env, State())
      ensures Sorted(env.AuditRows(), logs) && multiset(logs) == multiset(audit)
    {
      logs := Sort(env.AuditRows(), audit);
      AuditRowsTotal(env);
      SortSorted(env.AuditRows(), audit);
      SortMultiset(env.AuditRows(), audit);
    }

    method MarkMergeQueueEntryMerged(id: Id, now: Millis) returns (r: Result<QueueEntry>)
      modifies this`leases, this`queue
      ensures Stores.Step(State(), r) == Stores.MarkEntryMerged(Stores.Postgres, old(State()), id, now)
    {
      var entry := Lookup(QueueKey(), id, queue);
      if entry.None? {
        return Err(EntryNotFound(id));
      }
      var released := ReleaseBranchLease(entry.value.branchLeaseId, now);
      if released.Err? {
        return Err(released.error);
      }
      r := UpdateMergeQueueEntry(id, MarkMerged, now);
    }

    method CancelMergeQueueEntry(id: Id, reason: string, now: Millis) returns (r: Result<QueueEntry>)
      modifies this`leases, this`queue
      ensures Stores.Step(State(), r) == Stores.CancelEntry(Stores.Postgres, old(State()), id, reason, now)
    {
      var entry := Lookup(QueueKey(), id, queue);
      if entry.None? {
        return Err(EntryNotFound(id));
      }
      var released := ReleaseBranchLease(entry.value.branchLeaseId, now);
      if released.Err? {
        return Err(released.error);
      }
      r := UpdateMergeQueueEntry(id, Cancel(entry.value.fields.reasons + [reason]), now);
    }
  }
}
