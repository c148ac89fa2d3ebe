/** What every call reachable through the API keeps, in both stores: a finished queue entry stays finished and its
    lease stays released (packages/db/src/repository.ts:249-254, 588-617; apps/api/src/main.ts:3420-3490). */
module SafetyTheorems {
  import opened Sequences
  import opened Domain
  import opened Keyed
  import opened ConflictRisks
  import opened LatestSimulation
  import opened Queue
  import opened Stores
  import opened RefreshTheorems

  /** Finished entries stay finished, on the same lease. */
  ghost predicate StaysFinished(before: seq<QueueEntry>, after: seq<QueueEntry>) {
    forall e :: e in before && !e.Live() ==>
      exists f :: f in after && f.id == e.id && f.branchLeaseId == e.branchLeaseId && !f.Live()
  }

  /** Released leases stay released. */
  ghost predicate StaysReleased(before: seq<Lease>, after: seq<Lease>) {
    forall l :: l in before && l.status == Released ==> ReleasedIn(after, l.id)
  }

  ghost predicate ReleasedIn(leases: seq<Lease>, id: Id) {
    exists l :: l in leases && l.id == id && l.status == Released
  }

  /** The lease of every finished entry is released. */
  ghost predicate FinishedAreReleased(s: Snapshot) {
    forall e :: e in s.queue && !e.Live() ==> ReleasedIn(s.leases, e.branchLeaseId)
  }

  ghost predicate QueueSafe(s: Snapshot) {
    s.UniqueIds() && FinishedAreReleased(s)
  }

  ghost predicate SafeStep(s: Snapshot, t: Snapshot) {
    StaysFinished(s.queue, t.queue) && StaysReleased(s.leases, t.leases)
  }

  lemma KeepsFinished(s: Snapshot, t: Snapshot)
    requires FinishedAreReleased(s) && SafeStep(s, t)
    requires forall f :: f in t.queue && !f.Live() ==>
               (exists e :: e in s.queue && !e.Live() && e.branchLeaseId == f.branchLeaseId)
               || ReleasedIn(t.leases, f.branchLeaseId)
    ensures FinishedAreReleased(t)
  {
    forall f | f in t.queue && !f.Live()
      ensures ReleasedIn(t.leases, f.branchLeaseId)
    {
      if exists e :: e in s.queue && !e.Live() && e.branchLeaseId == f.branchLeaseId {
        var e :| e in s.queue && !e.Live() && e.branchLeaseId == f.branchLeaseId;
        var l :| l in s.leases && l.id == e.branchLeaseId && l.status == Released;
      }
    }
  }

  lemma LeasePatched(b: Backend, s: Snapshot, id: Id, patch: LeasePatch, now: Millis)
    requires QueueSafe(s) && (patch.status.None? || patch.status == Some(Released))
    ensures var r := UpdateLease(b, s, id, patch, now);
            && QueueSafe(r.state) && SafeStep(s, r.state)
            && r.state == s.(leases := r.state.leases)
            && (r.result.Err? <==> Keyed.Fresh(LeaseKey(), id, s.leases)) && (r.result.Err? ==> r.state == s)
            && (r.result.Ok? && patch.status == Some(Released) ==> ReleasedIn(r.state.leases, id))
  {
    LookupFresh(LeaseKey(), id, s.leases);
    var found := Lookup(LeaseKey(), id, s.leases);
    var t := UpdateLease(b, s, id, patch, now).state;
    if found.Some? {
      var updated := PatchLease(found.value, patch, now);
      ReplaceMembers(b, LeaseKey(), s.leases, updated);
      forall l | l in s.leases && l.status == Released
        ensures ReleasedIn(t.leases, l.id)
      {
        if l.id == id {
          LookupIs(LeaseKey(), s.leases, l);
          assert updated in t.leases;
        } else {
          assert l in t.leases;
        }
      }
      assert updated in t.leases;
    }
    KeepsFinished(s, t);
  }

  lemma EntryPatched(b: Backend, s: Snapshot, id: Id, patch: QueuePatch, now: Millis)
    requires QueueSafe(s) && !patch.Refresh? && Lookup(QueueKey(), id, s.queue).Some?
    requires ReleasedIn(s.leases, Lookup(QueueKey(), id, s.queue).value.branchLeaseId)
    ensures var r := UpdateEntry(b, s, id, patch, now);
            QueueSafe(r.state) && SafeStep(s, r.state) && r.result.Ok?
  {
    LookupFresh(QueueKey(), id, s.queue);
    var entry := Lookup(QueueKey(), id, s.queue).value;
    var updated := PatchEntry(entry, patch, now);
    ReplaceMembers(b, QueueKey(), s.queue, updated);
    var t := UpdateEntry(b, s, id, patch, now).state;
    forall e | e in s.queue && !e.Live()
      ensures exists f :: f in t.queue && f.id == e.id && f.branchLeaseId == e.branchLeaseId && !f.Live()
    {
      LookupIs(QueueKey(), s.queue, e);
      assert if e.id == id then updated in t.queue else e in t.queue;
    }
    KeepsFinished(s, t);
  }

  /** Merging or cancelling: it fails exactly when the entry or its lease is missing, and then changes
      nothing; otherwise the entry is finished and its lease released. */
  lemma FinishIsAllOrNothing(b: Backend, s: Snapshot, id: Id, patch: QueuePatch, now: Millis)
    requires QueueSafe(s) && !patch.Refresh?
    ensures var r := Finish(b, s, id, patch, now);
            var entry := Lookup(QueueKey(), id, s.queue);
            && QueueSafe(r.state) && SafeStep(s, r.state)
            && (r.result.Err? <==> entry.None? || Keyed.Fresh(LeaseKey(), entry.value.branchLeaseId, s.leases))
            && (r.result.Err? ==> r.state == s)
            && (r.result.Ok? ==> && r.result.value == PatchEntry(entry.value, patch, now)
                                 && !r.result.value.Live()
                                 && Lookup(QueueKey(), id, r.state.queue) == Some(r.result.value)
                                 && ReleasedIn(r.state.leases, entry.value.branchLeaseId))
  {
    var found := Lookup(QueueKey(), id, s.queue);
    if found.Some? {
      LookupFresh(QueueKey(), id, s.queue);
      var release := LeasePatch(Some(Released), Some(now), None);
      LeasePatched(b, s, found.value.branchLeaseId, release, now);
      var released := ReleaseLease(b, s, found.value.branchLeaseId, now);
      if released.result.Ok? {
        EntryPatched(b, released.state, id, patch, now);
        var updated := PatchEntry(found.value, patch, now);
        ReplaceMembers(b, QueueKey(), s.queue, updated);
        LookupIs(QueueKey(), Replace(b, QueueKey(), s.queue, updated), updated);
        SafeCompose(s, released.state, Finish(b, s, id, patch, now).state);
      }
    }
  }

  lemma SafeCompose(s: Snapshot, t: Snapshot, u: Snapshot)
    requires SafeStep(s, t) && SafeStep(t, u)
    ensures SafeStep(s, u)
  {
    forall e | e in s.queue && !e.Live()
      ensures exists f :: f in u.queue && f.id == e.id && f.branchLeaseId == e.branchLeaseId && !f.Live()
    {
      var f :| f in t.queue && f.id == e.id && f.branchLeaseId == e.branchLeaseId && !f.Live();
    }
  }

  lemma SafeUntouched(s: Snapshot, t: Snapshot)
    requires t.queue == s.queue && t.leases == s.leases
    ensures SafeStep(s, t) && (FinishedAreReleased(s) ==> FinishedAreReleased(t))
  {
  }

  lemma RefreshKeepsLiveness(b: Backend, env: Env, s: Snapshot, lease: Id, now: Millis, e: QueueEntry)
    requires env.Valid()
    ensures var f := RefreshedLease(b, env, s, lease, now)(e);
            f.Live() == e.Live() && (!e.Live() ==> f == e)
  {
    DerivedIsLive(env, HighestRisk(b, env, s, lease), SimulationOfLease(b, env, s.simulations, lease));
    var fields := Fields(b, env, s, lease);
    assert fields.status == Ready || fields.status == Blocked;
    var f := RefreshedLease(b, env, s, lease, now)(e);
    if LiveOf(lease)(e) {
      assert f == PatchEntry(e, Refresh(fields), now);
      assert f.Live();
    } else {
      assert f == e;
    }
  }

  lemma DerivedIsLive(env: Env, risk: Option<ConflictRisk>, simulation: Option<Simulation>)
    requires env.Valid()
    ensures FieldsOf(env, risk, simulation).status == Ready || FieldsOf(env, risk, simulation).status == Blocked
  {
  }

  lemma QueueRefreshed(b: Backend, env: Env, s: Snapshot, lease: Id, now: Millis)
    requires env.Valid() && QueueSafe(s)
    ensures var t := RefreshLease(b, env, s, lease, now); QueueSafe(t) && SafeStep(s, t)
  {
    var t := RefreshLease(b, env, s, lease, now);
    RefreshLeaseIsExact(b, env, s, lease, now);
    QueueImaged(b, env, s, lease, now, t);
  }

  lemma QueueImaged(b: Backend, env: Env, s: Snapshot, lease: Id, now: Millis, t: Snapshot)
    requires env.Valid() && QueueSafe(s)
    requires t == s.(queue := t.queue) && UniqueKeys(QueueKey(), t.queue)
    requires IsImage(RefreshedLease(b, env, s, lease, now), s.queue, t.queue)
    ensures QueueSafe(t) && SafeStep(s, t)
  {
    var f := RefreshedLease(b, env, s, lease, now);
    forall e | e in s.queue && !e.Live()
      ensures e in t.queue
    {
      RefreshKeepsLiveness(b, env, s, lease, now, e);
    }
    forall y | y in t.queue && !y.Live()
      ensures y in s.queue
    {
      var e :| e in s.queue && y == f(e);
      RefreshKeepsLiveness(b, env, s, lease, now, e);
    }
    KeepsFinished(s, t);
  }

  lemma TaskPatched(b: Backend, s: Snapshot, id: Id, patch: TaskPatch, now: Millis)
    requires UniqueKeys(TaskKey(), s.tasks)
    ensures var t := UpdateTask(b, s, id, patch, now).state;
            t == s.(tasks := t.tasks) && UniqueKeys(TaskKey(), t.tasks)
  {
    var found := Lookup(TaskKey(), id, s.tasks);
    LookupFresh(TaskKey(), id, s.tasks);
    if found.Some? {
      ReplaceMembers(b, TaskKey(), s.tasks, PatchTask(found.value, patch, now));
    }
  }

  lemma TaskRescored(b: Backend, env: Env, s: Snapshot, simulation: Simulation, id: Id, now: Millis)
    requires UniqueKeys(TaskKey(), s.tasks)
    ensures var t := RescoreTask(b, env, s, simulation, id, now).state;
            t == s.(tasks := t.tasks) && UniqueKeys(TaskKey(), t.tasks)
  {
    var lease := Lookup(LeaseKey(), id, s.leases);
    if lease.Some? {
      var highest := HighestRisk(b, env, s, lease.value.id);
      var score := Max(if highest.Some? then highest.value.riskScore else 0.0, simulation.riskContribution);
      TaskPatched(b, s, lease.value.taskId, TaskPatch(None, Some(score), None), now);
    }
  }

  lemma SimulationRecorded(b: Backend, env: Env, s: Snapshot, simulation: Simulation, now: Millis)
    requires env.Valid() && QueueSafe(s) && Keyed.Fresh(SimulationKey(), simulation.id, s.simulations)
    ensures var t := RecordSimulation(b, env, s, simulation, now).state; QueueSafe(t) && SafeStep(s, t)
  {
    AppendUnique(SimulationKey(), s.simulations, simulation);
    var inserted := s.(simulations := s.simulations + [simulation]);
    SafeUntouched(s, inserted);
    if simulation.branchLeaseId.Some? && simulation.branchLeaseId.value != "" {
      var id := simulation.branchLeaseId.value;
      TaskRescored(b, env, inserted, simulation, id, now);
      var rescored := RescoreTask(b, env, inserted, simulation, id, now);
      RescoredIsSafe(s, rescored.state);
      RescoredThenRefreshed(b, env, s, rescored, id, now);
      assert RecordSimulation(b, env, s, simulation, now) == RefreshAfter(b, env, rescored, id, now);
    } else {
      assert RecordSimulation(b, env, s, simulation, now).state == inserted;
    }
  }

  lemma RescoredThenRefreshed(b: Backend, env: Env, s: Snapshot, rescored: Step<Simulation>, lease: Id, now: Millis)
    requires env.Valid() && QueueSafe(rescored.state) && SafeStep(s, rescored.state)
    ensures QueueSafe(RefreshAfter(b, env, rescored, lease, now).state)
    ensures SafeStep(s, RefreshAfter(b, env, rescored, lease, now).state)
  {
    var t, u := rescored.state, RefreshAfter(b, env, rescored, lease, now).state;
    if rescored.result.Ok? {
      QueueRefreshed(b, env, t, lease, now);
      SafeCompose(s, t, u);
    }
  }

  lemma RescoredIsSafe(s: Snapshot, t: Snapshot)
    requires QueueSafe(s) && t == s.(tasks := t.tasks, simulations := t.simulations)
    requires UniqueKeys(TaskKey(), t.tasks) && UniqueKeys(SimulationKey(), t.simulations)
    ensures QueueSafe(t) && SafeStep(s, t)
  {
    SafeUntouched(s, t);
  }

  lemma Enqueued(b: Backend, env: Env, s: Snapshot, input: QueueInput, id: Id, now: Millis)
    requires env.Valid() && QueueSafe(s) && Keyed.Fresh(QueueKey(), id, s.queue) && input.status.None?
    ensures var t := Enqueue(b, env, s, input, id, now); QueueSafe(t) && SafeStep(s, t)
  {
    var fields := Fields(b, env, s, input.branchLeaseId);
    var entry := NewEntry(input, fields, id, now);
    DerivedIsLive(env, HighestRisk(b, env, s, input.branchLeaseId), SimulationOfLease(b, env, s.simulations, input.branchLeaseId));
    assert entry.Live();
    AppendUnique(QueueKey(), s.queue, entry);
    KeepsFinished(s, Enqueue(b, env, s, input, id, now));
  }

  lemma Transitioned(b: Backend, s: Snapshot, id: Id, status: TaskStatus, auditId: Id, now: Millis)
    requires UniqueKeys(TaskKey(), s.tasks)
    ensures var t := TransitionTask(b, s, id, status, auditId, now).state;
            t == s.(tasks := t.tasks, audit := t.audit) && UniqueKeys(TaskKey(), t.tasks)
  {
    var found := Lookup(TaskKey(), id, s.tasks);
    LookupFresh(TaskKey(), id, s.tasks);
    if found.Some? {
      ReplaceMembers(b, TaskKey(), s.tasks, found.value.(status := status, updatedAt := now));
    }
  }

  /** One call of either store. */
  lemma CallIsSafe(b: Backend, env: Env, s: Snapshot, op: Op)
    requires env.Valid() && QueueSafe(s) && Legal(s, op)
    ensures QueueSafe(Apply(b, env, s, op).0) && SafeStep(s, Apply(b, env, s, op).0)
  {
    match op
    case AddRepo(repo) => AppendUnique(RepoKey(), s.repos, repo);
    case AddTask(task, auditId, now) => AppendUnique(TaskKey(), s.tasks, task);
    case PatchTaskOp(id, patch, now) => TaskPatched(b, s, id, patch, now);
    case Transition(id, status, auditId, now) => Transitioned(b, s, id, status, auditId, now);
    case Audit(log) =>
    case AddLease(lease) =>
      AppendUnique(LeaseKey(), s.leases, lease);
      KeepsFinished(s, CreateLease(s, lease));
    case SyncLeaseFiles(id, files, now) => LeasePatched(b, s, id, LeasePatch(None, None, Some(files)), now);
    case Release(id, now) => LeasePatched(b, s, id, LeasePatch(Some(Released), Some(now), None), now);
    case Simulate(simulation, now) => SimulationRecorded(b, env, s, simulation, now);
    case AddEntry(input, id, now) => Enqueued(b, env, s, input, id, now);
    case RefreshLive(id, now) => QueueRefreshed(b, env, s, id, now);
    case Merge(id, now) => FinishIsAllOrNothing(b, s, id, MarkMerged, now);
    case CancelOp(id, reason, now) =>
      var found := Lookup(QueueKey(), id, s.queue);
      FinishIsAllOrNothing(b, s, id, Cancel(if found.None? then [reason] else found.value.fields.reasons + [reason]), now);
  }

  /** Every run, from every safe state (the empty one among them): finished entries never become live again,
      their leases are released, and no released lease becomes active again. */
  lemma {:induction false} RunIsSafe(b: Backend, env: Env, s: Snapshot, ops: seq<Op>)
    requires env.Valid() && QueueSafe(s) && LegalRun(b, env, s, ops)
    ensures QueueSafe(Run(b, env, s, ops)) && SafeStep(s, Run(b, env, s, ops))
    decreases |ops|
  {
    if ops != [] {
      var t := Apply(b, env, s, ops[0]).0;
      CallIsSafe(b, env, s, ops[0]);
      RunIsSafe(b, env, t, ops[1..]);
      SafeCompose(s, t, Run(b, env, t, ops[1..]));
    }
  }

  lemma EmptyIsSafe()
    ensures QueueSafe(Empty)
  {
  }
}
