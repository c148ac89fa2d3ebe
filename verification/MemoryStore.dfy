/** InMemoryAichestraStore: arrays of records changed in place (packages/db/src/repository.ts). */
module MemoryStore {
  import opened Sequences
  import opened Domain
  import opened Keyed
  import opened ConflictRisks
  import opened LatestSimulation
  import opened Queue
  import Stores

  /** The double loop over the active leases, which the Postgres store has a copy of. */
  method PairLoop(risk: PairScore, active: seq<Lease>) returns (risks: seq<ConflictRisk>)
    ensures risks == Pairs(risk, active)
  {
    risks := [];
    var source := 0;
    while source < |active|
      invariant 0 <= source <= |active|
      invariant risks + Pairs(risk, active[source..]) == Pairs(risk, active)
    {
      var target := source + 1;
      while target < |active|
        invariant source < target <= |active|
        invariant risks + Row(risk, active[source], active[target..]) + Pairs(risk, active[source + 1..]) == Pairs(risk, active)
      {
        assert active[target..][1..] == active[target + 1..];
        if Compatible(active[source], active[target]) {
          risks := risks + [risk(active[source], active[target])];
        }
        target := target + 1;
      }
      assert active[source..][1..] == active[source + 1..];
      source := source + 1;
    }
  }

  class InMemoryStore {
    const env: Env
    var repos: seq<Repo>
    var tasks: seq<Task>
    var leases: seq<Lease>
    var simulations: seq<Simulation>
    var queue: seq<QueueEntry>
    var audit: seq<AuditLog>

    function State(): Stores.Snapshot
      reads this
    {
      Stores.Snapshot(repos, tasks, leases, simulations, queue, audit)
    }

    constructor (env: Env, seed: Stores.Snapshot)
      ensures this.env == env && State() == seed
    {
      this.env := env;
      repos, tasks, leases := seed.repos, seed.tasks, seed.leases;
      simulations, queue, audit := seed.simulations, seed.queue, seed.audit;
    }

    method CreateRepo(repo: Repo)
      modifies this`repos
      ensures State() == Stores.CreateRepo(old(State()), repo)
    {
      repos := repos + [repo];
    }

    method CreateTask(id: Id, title: string, requester: Id, repoId: Id, baseBranch: string, auditId: Id, now: Millis)
      returns (task: Task)
      modifies this`tasks, this`audit
      ensures task == Stores.NewTask(id, title, requester, repoId, baseBranch, now)
      ensures State() == Stores.CreateTask(old(State()), task, auditId, now)
    {
      task := Task(id, title, Draft, requester, repoId, baseBranch, None, None, now, now);
      tasks := tasks + [task];
      RecordAudit(AuditLog(auditId, TaskCreated(task.status), Some(task.id), task.requesterUserId, task.repoId, now));
    }

    method UpdateTask(id: Id, patch: TaskPatch, now: Millis) returns (r: Result<Task>)
      modifies this`tasks
      ensures Stores.Step(State(), r) == Stores.UpdateTask(Stores.InMemory, old(State()), id, patch, now)
    {
      var i := FirstIndex(WithKey(TaskKey(), id), tasks);
      if i == |tasks| {
        return Err(TaskNotFound(id));
      }
      var task := PatchTask(tasks[i], patch, now);
      tasks := tasks[i := task];
      r := Ok(task);
    }

    method TransitionTask(id: Id, status: TaskStatus, auditId: Id, now: Millis) returns (r: Result<Task>)
      modifies this`tasks, this`audit
      ensures Stores.Step(State(), r) == Stores.TransitionTask(Stores.InMemory, old(State()), id, status, auditId, now)
    {
      var i := FirstIndex(WithKey(TaskKey(), id), tasks);
      if i == |tasks| {
        return Err(TaskNotFound(id));
      }
      var previous := tasks[i].status;
      if !CanTransition(previous, status) {
        return Err(InvalidTransition(previous, status));
      }
      var task := tasks[i].(status := status, updatedAt := now);
      tasks := tasks[i := task];
      RecordAudit(AuditLog(auditId, TaskStatusChanged(previous, status), Some(id), task.requesterUserId, task.repoId, now));
      r := Ok(task);
    }

    method RecordAudit(log: AuditLog)
      modifies this`audit
      ensures State() == Stores.RecordAudit(old(State()), log)
    {
      audit := audit + [log];
    }

    method CreateBranchLease(lease: Lease)
      modifies this`leases
      ensures State() == Stores.CreateLease(old(State()), lease)
    {
      leases := leases + [lease];
    }

    method UpdateBranchLease(id: Id, patch: LeasePatch, now: Millis) returns (r: Result<Lease>)
      modifies this`leases
      ensures Stores.Step(State(), r) == Stores.UpdateLease(Stores.InMemory, old(State()), id, patch, now)
    {
      var i := FirstIndex(WithKey(LeaseKey(), id), leases);
      if i == |leases| {
        return Err(LeaseNotFound(id));
      }
      var lease := PatchLease(leases[i], patch, now);
      leases := leases[i := lease];
      r := Ok(lease);
    }

    method ReleaseBranchLease(id: Id, now: Millis) returns (r: Result<Lease>)
      modifies this`leases
      ensures Stores.Step(State(), r) == Stores.ReleaseLease(Stores.InMemory, old(State()), id, now)
    {
      r := UpdateBranchLease(id, LeasePatch(Some(Released), Some(now), None), now);
    }

    method ComputeRepoConflictRisks(repoId: Id) returns (risks: seq<ConflictRisk>)
      ensures risks == Stores.RepoRiskList(Stores.InMemory, env, State(), repoId)
    {
      var active := ActiveLeases(leases, repoId);
      risks := PairLoop(Stores.Score(Stores.InMemory, env, simulations), active);
      risks := Sort(env.RiskOrder(), risks);
    }

    method ComputeConflictRisksForLease(id: Id) returns (risks: seq<ConflictRisk>)
      ensures risks == Stores.LeaseRiskList(Stores.InMemory, env, State(), id)
    {
      var lease := Lookup(LeaseKey(), id, leases);
      if lease.None? || lease.value.status != Active {
        return [];
      }
      var partners := Filter(Partner(lease.value), ActiveLeases(leases, lease.value.repoId));
      risks := Sort(env.RiskOrder(), Map(ScoreAgainst(Stores.Score(Stores.InMemory, env, simulations), lease.value), partners));
    }

    method ComputeConflictRisksForTaskRun(run: Id) returns (risks: seq<ConflictRisk>)
      ensures risks == Stores.RunRiskList(Stores.InMemory, env, State(), run)
    {
      ghost var s := State();
      risks := [];
      var i := 0;
      while i < |repos|
        invariant 0 <= i <= |repos|
        invariant risks + Stores.AllRiskList(Stores.InMemory, env, s, repos[i..]) == Stores.AllRiskList(Stores.InMemory, env, s, repos)
      {
        var more := ComputeRepoConflictRisks(repos[i].id);
        Stores.AllRiskListStep(Stores.InMemory, env, s, repos, i, risks);
        risks := risks + more;
        i := i + 1;
      }
      assert risks == Stores.AllRiskList(Stores.InMemory, env, s, Stores.ReposOf(Stores.InMemory, env, s.repos));
      risks := Filter(Touches(RunLeaseIds(leases, run)), risks);
    }

    method MergeQueueFieldsForLease(id: Id) returns (fields: QueueFields)
      ensures fields == Stores.Fields(Stores.InMemory, env, State(), id)
    {
      var risks := ComputeConflictRisksForLease(id);
      fields := FieldsOf(env, Head(risks), LatestForLease(env, simulations, id));
    }

    method CreateMergeQueueEntry(input: QueueInput, id: Id, now: Millis) returns (entry: QueueEntry)
      modifies this`queue
      ensures State() == Stores.Enqueue(Stores.InMemory, env, old(State()), input, id, now)
      ensures State().queue == old(queue) + [entry]
    {
      var derived := MergeQueueFieldsForLease(input.branchLeaseId);
      entry := NewEntry(input, derived, id, now);
      queue := queue + [entry];
    }

    method UpdateMergeQueueEntry(id: Id, patch: QueuePatch, now: Millis) returns (r: Result<QueueEntry>)
      modifies this`queue
      ensures Stores.Step(State(), r) == Stores.UpdateEntry(Stores.InMemory, old(State()), id, patch, now)
    {
      var i := FirstIndex(WithKey(QueueKey(), id), queue);
      if i == |queue| {
        return Err(EntryNotFound(id));
      }
      var entry := PatchEntry(queue[i], patch, now);
      queue := queue[i := entry];
      r := Ok(entry);
    }

    method RefreshMergeQueueEntryRisk(id: Id, now: Millis) returns (r: Result<QueueEntry>)
      modifies this`queue
      ensures Stores.Step(State(), r) == Stores.RefreshEntry(Stores.InMemory, env, old(State()), id, now)
    {
      var entry := Lookup(QueueKey(), id, queue);
      if entry.None? {
        return Err(EntryNotFound(id));
      }
      var fields := MergeQueueFieldsForLease(entry.value.branchLeaseId);
      r := UpdateMergeQueueEntry(id, Refresh(fields), now);
    }

    method RefreshMergeQueueEntriesForLease(lease: Id, now: Millis) returns (entries: seq<QueueEntry>)
      modifies this`queue
      ensures State() == Stores.RefreshLease(Stores.InMemory, env, old(State()), lease, now)
      ensures entries == Stores.RefreshResults(Stores.InMemory, env, old(State()), Stores.RefreshIds(Stores.InMemory, env, old(State()), lease), now)
    {
      var ids := Map(QueueKey(), Filter(Stores.LiveOf(lease), queue));
      ghost var s := State();
      entries := [];
      Stores.HalfwayStart(Stores.InMemory, env, s, ids, now);
      var k := 0;
      while k < |ids|
        invariant 0 <= k <= |ids|
        invariant Stores.Halfway(Stores.InMemory, env, s, ids, now, k, State(), entries)
      {
        Stores.HalfwayStep(Stores.InMemory, env, s, ids, now, k, State(), entries);
        var refreshed := RefreshMergeQueueEntryRisk(ids[k], now);
        entries := entries + if refreshed.Ok? then [refreshed.value] else [];
        k := k + 1;
      }
      Stores.HalfwayDone(Stores.InMemory, env, s, ids, now, State(), entries);
    }

    method RecordMergeSimulation(simulation: Simulation, now: Millis) returns (r: Result<Simulation>)
      modifies this`simulations, this`tasks, this`queue
      ensures Stores.Step(State(), r) == Stores.RecordSimulation(Stores.InMemory, env, old(State()), simulation, now)
    {
      simulations := simulations + [simulation];
      if simulation.branchLeaseId.None? || simulation.branchLeaseId.value == "" {
        return Ok(simulation);
      }
      var id := simulation.branchLeaseId.value;
      var lease := Lookup(LeaseKey(), id, leases);
      if lease.Some? {
        var risks := ComputeConflictRisksForLease(lease.value.id);
        var score := Max(if risks == [] then 0.0 else risks[0].riskScore, simulation.riskContribution);
        var updated := UpdateTask(lease.value.taskId, TaskPatch(None, Some(score), None), now);
        if updated.Err? {
          return Err(updated.error);
        }
      }
      var _ := RefreshMergeQueueEntriesForLease(id, now);
      r := Ok(simulation);
    }

    method MarkMergeQueueEntryMerged(id: Id, now: Millis) returns (r: Result<QueueEntry>)
      modifies this`leases, this`queue
      ensures Stores.Step(State(), r) == Stores.MarkEntryMerged(Stores.InMemory, old(State()), id, now)
    {
      var entry := Lookup(QueueKey(), id, queue);
      if entry.None? {
        return Err(EntryNotFound(id));
      }
      var released := ReleaseBranchLease(entry.value.branchLeaseId, now);
      if released.Err? {
        return Err(released.error);
      }
      r := UpdateMergeQueueEntry(id, MarkMerged, now);
    }

    method CancelMergeQueueEntry(id: Id, reason: string, now: Millis) returns (r: Result<QueueEntry>)
      modifies this`leases, this`queue
      ensures Stores.Step(State(), r) == Stores.CancelEntry(Stores.InMemory, old(State()), id, reason, now)
    {
      var entry := Lookup(QueueKey(), id, queue);
      if entry.None? {
        return Err(EntryNotFound(id));
      }
      var released := ReleaseBranchLease(entry.value.branchLeaseId, now);
      if released.Err? {
        return Err(released.error);
      }
      r := UpdateMergeQueueEntry(id, Cancel(entry.value.fields.reasons + [reason]), now);
    }
  }
}
