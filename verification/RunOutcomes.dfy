/** How a record came to be as it is, over every run of legal calls to either store: an entry is merged or cancelled only
    through a call that says so, and a cancelled task stays cancelled. */
module RunOutcomes {
  import opened Sequences
  import opened Domain
  import opened Keyed
  import opened ConflictRisks
  import opened LatestSimulation
  import opened Queue
  import opened Stores
  import opened RefreshTheorems
  import opened SafetyTheorems
  import opened OperationMeaning
  import opened TaskStatuses
  import opened AuditReplay

  // ----- queue entries -----

  /** How an entry ended: its status if that is final, and the times. */
  ghost predicate EndedAlike(e: QueueEntry, f: QueueEntry) {
    && e.id == f.id && e.mergedAt == f.mergedAt && e.cancelledAt == f.cancelledAt
    && (e.fields.status == Merged <==> f.fields.status == Merged)
    && (e.fields.status == Cancelled <==> f.fields.status == Cancelled)
  }

  /** Nothing has ended the entry. */
  ghost predicate NotEnded(f: QueueEntry) {
    f.mergedAt.None? && f.cancelledAt.None? && f.fields.status != Merged && f.fields.status != Cancelled
  }

  /** The entry is new, or ended as its former self did. */
  ghost predicate NotTouched(s: Snapshot, f: QueueEntry) {
    NotEnded(f) || exists e :: e in s.queue && EndedAlike(e, f)
  }

  lemma FinishTouchesOne(b: Backend, s: Snapshot, id: Id, patch: QueuePatch, now: Millis, f: QueueEntry)
    requires s.UniqueIds() && !patch.Refresh? && f in Finish(b, s, id, patch, now).state.queue && f.id != id
    ensures NotTouched(s, f)
  {
    var found := Lookup(QueueKey(), id, s.queue);
    LookupFresh(QueueKey(), id, s.queue);
    if found.Some? {
      ReplaceMembers(b, QueueKey(), s.queue, PatchEntry(found.value, patch, now));
    }
    assert f in s.queue && EndedAlike(f, f);
  }

  lemma RefreshTouchesNone(b: Backend, env: Env, s: Snapshot, lease: Id, now: Millis, f: QueueEntry)
    requires env.Valid() && UniqueKeys(QueueKey(), s.queue) && f in RefreshLease(b, env, s, lease, now).queue
    ensures NotTouched(s, f)
  {
    RefreshLeaseIsExact(b, env, s, lease, now);
    var e :| e in s.queue && f == RefreshedLease(b, env, s, lease, now)(e);
    RefreshedEndsAlike(b, env, s, lease, now, e);
  }

  lemma RefreshedEndsAlike(b: Backend, env: Env, s: Snapshot, lease: Id, now: Millis, e: QueueEntry)
    requires env.Valid()
    ensures EndedAlike(e, RefreshedLease(b, env, s, lease, now)(e))
  {
    DerivedIsLive(env, HighestRisk(b, env, s, lease), SimulationOfLease(b, env, s.simulations, lease));
    var fields := Fields(b, env, s, lease);
    assert fields.status == Ready || fields.status == Blocked;
  }

  lemma RecordingTouchesNone(b: Backend, env: Env, s: Snapshot, simulation: Simulation, now: Millis, f: QueueEntry)
    requires env.Valid() && s.UniqueIds() && f in RecordSimulation(b, env, s, simulation, now).state.queue
    ensures NotTouched(s, f)
  {
    if f in s.queue {
      assert EndedAlike(f, f);
    } else {
      var inserted, id := s.(simulations := s.simulations + [simulation]), simulation.branchLeaseId.value;
      RescoreKeepsStatuses(b, env, inserted, simulation, id, now);
      RefreshTouchesNone(b, env, RescoreTask(b, env, inserted, simulation, id, now).state, id, now, f);
    }
  }

  lemma NewTouchesNone(b: Backend, env: Env, s: Snapshot, input: QueueInput, id: Id, now: Millis, f: QueueEntry)
    requires env.Valid() && input.status.None? && f in Enqueue(b, env, s, input, id, now).queue
    ensures NotTouched(s, f)
  {
    DerivedIsLive(env, HighestRisk(b, env, s, input.branchLeaseId), SimulationOfLease(b, env, s.simulations, input.branchLeaseId));
    if f in s.queue {
      assert EndedAlike(f, f);
    }
  }

  ghost predicate Ends(op: Op, id: Id) {
    (op.Merge? || op.CancelOp?) && op.id == id
  }

  /** A call that neither merges nor cancels the entry leaves how it ended. */
  lemma CallTouches(b: Backend, env: Env, s: Snapshot, op: Op, f: QueueEntry)
    requires env.Valid() && QueueSafe(s) && Legal(s, op) && f in Apply(b, env, s, op).0.queue && !Ends(op, f.id)
    ensures NotTouched(s, f)
  {
    match op
    case Simulate(simulation, now) => RecordingTouchesNone(b, env, s, simulation, now, f);
    case AddEntry(input, id, now) => NewTouchesNone(b, env, s, input, id, now, f);
    case RefreshLive(id, now) => RefreshTouchesNone(b, env, s, id, now, f);
    case Merge(id, now) => FinishTouchesOne(b, s, id, MarkMerged, now, f);
    case CancelOp(id, reason, now) =>
      var found := Lookup(QueueKey(), id, s.queue);
      FinishTouchesOne(b, s, id, Cancel(if found.None? then [reason] else found.value.fields.reasons + [reason]), now, f);
    case PatchTaskOp(id, patch, now) => TaskPatched(b, s, id, patch, now); assert EndedAlike(f, f);
    case Transition(id, status, auditId, now) => Transitioned(b, s, id, status, auditId, now); assert EndedAlike(f, f);
    case SyncLeaseFiles(id, files, now) => assert EndedAlike(f, f);
    case Release(id, now) => assert EndedAlike(f, f);
    case _ => assert EndedAlike(f, f);
  }

  /** What a merge or cancel call leaves of the entry it names: nothing changed, or merged or cancelled just now. */
  lemma EndingCall(b: Backend, env: Env, s: Snapshot, op: Op, f: QueueEntry)
    requires s.UniqueIds() && f in Apply(b, env, s, op).0.queue && Ends(op, f.id)
    ensures f in s.queue
         || exists e :: e in s.queue && e.id == f.id
              && (if op.Merge? then
                    f.fields.status == Merged && f.mergedAt == Some(op.now) && f.cancelledAt == e.cancelledAt
                  else
                    f.fields.status == Cancelled && f.cancelledAt == Some(op.now) && f.mergedAt == e.mergedAt)
  {
    var found := Lookup(QueueKey(), op.id, s.queue);
    LookupFresh(QueueKey(), op.id, s.queue);
    if e, l :| e in s.queue && e.id == op.id && l in s.leases && l.id == e.branchLeaseId {
      LookupIs(QueueKey(), s.queue, e);
      match op
      case Merge(id, now) => MergedIs(b, s, e, l, now); ReplacedMember(b, s.queue, Apply(b, env, s, op).0.queue, e, f);
      case CancelOp(id, reason, now) =>
        CancelledIs(b, s, e, l, reason, now); ReplacedMember(b, s.queue, Apply(b, env, s, op).0.queue, e, f);
    } else {
      NotFinished(b, s, op.id, if op.CancelOp? then op.reason else "", op.now);
    }
  }

  lemma ReplacedMember(b: Backend, before: seq<QueueEntry>, after: seq<QueueEntry>, e: QueueEntry, f: QueueEntry)
    requires f in after
    ensures forall y :: Replaced(b, before, after, e, y) ==> f == y || f in before
  {
    assert f in multiset(after);
  }

  /** Some call of the run is a merge of the entry at that time. */
  ghost predicate MergeCalled(ops: seq<Op>, id: Id, at: Millis) {
    exists k :: 0 <= k < |ops| && ops[k] == Merge(id, at)
  }

  ghost predicate CancelCalled(ops: seq<Op>, id: Id, at: Millis) {
    exists k :: 0 <= k < |ops| && ops[k].CancelOp? && ops[k].id == id && ops[k].now == at
  }

  /** The merge time of an entry is that of a merge call for it, and its status is merged only if it has one; the same for
      cancelling. */
  ghost predicate Accounted(ops: seq<Op>, f: QueueEntry) {
    && (f.mergedAt.Some? ==> MergeCalled(ops, f.id, f.mergedAt.value))
    && (f.fields.status == Merged ==> f.mergedAt.Some?)
    && (f.cancelledAt.Some? ==> CancelCalled(ops, f.id, f.cancelledAt.value))
    && (f.fields.status == Cancelled ==> f.cancelledAt.Some?)
  }

  ghost predicate AllAccounted(s: Snapshot, ops: seq<Op>) {
    forall e :: e in s.queue ==> Accounted(ops, e)
  }

  lemma AccountedSnoc(ops: seq<Op>, op: Op, e: QueueEntry)
    requires Accounted(ops, e)
    ensures Accounted(ops + [op], e)
  {
    var all := ops + [op];
    if e.mergedAt.Some? {
      var k :| 0 <= k < |ops| && ops[k] == Merge(e.id, e.mergedAt.value);
      assert all[k] == Merge(e.id, e.mergedAt.value);
    }
    if e.cancelledAt.Some? {
      var k :| 0 <= k < |ops| && ops[k].CancelOp? && ops[k].id == e.id && ops[k].now == e.cancelledAt.value;
      assert all[k].CancelOp? && all[k].id == e.id && all[k].now == e.cancelledAt.value;
    }
  }

  lemma CallAccounted(b: Backend, env: Env, s: Snapshot, past: seq<Op>, op: Op, f: QueueEntry)
    requires env.Valid() && QueueSafe(s) && Legal(s, op) && f in Apply(b, env, s, op).0.queue
    requires AllAccounted(s, past)
    ensures Accounted(past + [op], f)
  {
    var all := past + [op];
    assert all[|past|] == op;
    if f in s.queue {
      AccountedSnoc(past, op, f);
    } else if Ends(op, f.id) {
      EndingCall(b, env, s, op, f);
      var e :| e in s.queue && e.id == f.id
               && (if op.Merge? then f.fields.status == Merged && f.mergedAt == Some(op.now) && f.cancelledAt == e.cancelledAt
                   else f.fields.status == Cancelled && f.cancelledAt == Some(op.now) && f.mergedAt == e.mergedAt);
      AccountedSnoc(past, op, e);
    } else {
      CallTouches(b, env, s, op, f);
      if !NotEnded(f) {
        var e :| e in s.queue && EndedAlike(e, f);
        AccountedSnoc(past, op, e);
      }
    }
  }

  /** Over every run: an entry is merged, and has a merge time, only through a merge call for it at that time, and cancelled
      only through a cancel call. */
  lemma {:induction false} EndedOnlyByCalls(b: Backend, env: Env, s: Snapshot, past: seq<Op>, ops: seq<Op>, f: QueueEntry)
    requires env.Valid() && QueueSafe(s) && LegalRun(b, env, s, ops) && f in Run(b, env, s, ops).queue
    requires AllAccounted(s, past)
    ensures Accounted(past + ops, f)
    decreases |ops|
  {
    if ops == [] {
      assert past + ops == past;
    } else {
      var t := Apply(b, env, s, ops[0]).0;
      CallIsSafe(b, env, s, ops[0]);
      CallKeepsAccounts(b, env, s, past, ops[0]);
      EndedOnlyByCalls(b, env, t, past + [ops[0]], ops[1..], f);
      FirstMoved(past, ops);
    }
  }

  lemma FirstMoved(past: seq<Op>, ops: seq<Op>)
    requires ops != []
    ensures past + [ops[0]] + ops[1..] == past + ops
  {
  }

  lemma CallKeepsAccounts(b: Backend, env: Env, s: Snapshot, past: seq<Op>, op: Op)
    requires env.Valid() && QueueSafe(s) && Legal(s, op)
    requires AllAccounted(s, past)
    ensures AllAccounted(Apply(b, env, s, op).0, past + [op])
  {
    forall f | f in Apply(b, env, s, op).0.queue
      ensures Accounted(past + [op], f)
    {
      CallAccounted(b, env, s, past, op, f);
    }
  }

  /** From the empty store: the status is the one of a call of the run. */
  lemma MergedOnlyByMerge(b: Backend, env: Env, ops: seq<Op>, f: QueueEntry)
    requires env.Valid() && LegalRun(b, env, Empty, ops) && f in Run(b, env, Empty, ops).queue
    ensures f.fields.status == Merged ==> f.mergedAt.Some? && MergeCalled(ops, f.id, f.mergedAt.value)
    ensures f.fields.status == Cancelled ==> f.cancelledAt.Some? && CancelCalled(ops, f.id, f.cancelledAt.value)
  {
    EndedOnlyByCalls(b, env, Empty, [], ops, f);
    assert [] + ops == ops;
  }

  // ----- tasks -----

  /** A stored task is cancelled. */
  ghost predicate CancelledTask(s: Snapshot, id: Id) {
    exists t :: t in s.tasks && t.id == id && t.status == TaskCancelled
  }

  lemma ReplacedTask(b: Backend, before: seq<Task>, after: seq<Task>, x: Task, y: Task, t: Task)
    requires Replaced(b, before, after, x, y) && t in before
    ensures t in after || t == x
    ensures y in after
  {
    assert multiset(after)[y] >= 1;
    if t != x {
      assert multiset(after)[t] >= multiset(before)[t] >= 1;
    }
  }

  lemma PatchKeepsCancelled(b: Backend, s: Snapshot, id: Id, patch: TaskPatch, now: Millis, task: Id)
    requires s.UniqueIds() && patch.status.None? && CancelledTask(s, task)
    ensures CancelledTask(UpdateTask(b, s, id, patch, now).state, task)
  {
    var t :| t in s.tasks && t.id == task && t.status == TaskCancelled;
    var r := UpdateTask(b, s, id, patch, now);
    if x :| x in s.tasks && x.id == id {
      UpdatedTaskIs(b, s, x, patch, now);
      var y := r.result.value;
      ReplacedTask(b, s.tasks, r.state.tasks, x, y, t);
      assert PatchedTask(x, patch, now, y);
      assert if t == x then y in r.state.tasks && y.id == task && y.status == TaskCancelled else t in r.state.tasks;
      assert CancelledTask(r.state, task);
    } else {
      UnknownTask(b, s, id, patch, TaskCancelled, "", now);
      assert r.state == s;
    }
  }

  lemma TransitionKeepsCancelled(b: Backend, s: Snapshot, id: Id, status: TaskStatus, auditId: Id, now: Millis, task: Id)
    requires s.UniqueIds() && CancelledTask(s, task)
    ensures CancelledTask(TransitionTask(b, s, id, status, auditId, now).state, task)
  {
    if x :| x in s.tasks && x.id == id {
      TransitionOf(b, s, x, status, auditId, now, task);
    } else {
      UnknownTask(b, s, id, TaskPatch(None, None, None), status, auditId, now);
    }
  }

  lemma TransitionOf(b: Backend, s: Snapshot, x: Task, status: TaskStatus, auditId: Id, now: Millis, task: Id)
    requires s.UniqueIds() && CancelledTask(s, task) && x in s.tasks
    ensures CancelledTask(TransitionTask(b, s, x.id, status, auditId, now).state, task)
  {
    var t :| t in s.tasks && t.id == task && t.status == TaskCancelled;
    TransitionedTaskIs(b, s, x, status, auditId, now);
    var r := TransitionTask(b, s, x.id, status, auditId, now);
    if r.result.Ok? {
      ReplacedTask(b, s.tasks, r.state.tasks, x, r.result.value, t);
      if t == x {
        OnlyItself(x.status, status);
      }
    }
  }

  lemma OnlyItself(from: TaskStatus, to: TaskStatus)
    requires from == TaskCancelled && (to == from || from in EnteredFrom(to))
    ensures to == TaskCancelled
  {
  }

  lemma RecordingKeepsCancelled(b: Backend, env: Env, s: Snapshot, simulation: Simulation, now: Millis, task: Id)
    requires s.UniqueIds() && CancelledTask(s, task)
    ensures CancelledTask(RecordSimulation(b, env, s, simulation, now).state, task)
  {
    var inserted := s.(simulations := s.simulations + [simulation]);
    if simulation.branchLeaseId.Some? && simulation.branchLeaseId.value != "" && !Rejected(b, s, simulation) {
      var id := simulation.branchLeaseId.value;
      RescoreKeepsCancelled(b, env, s, inserted, simulation, id, now, task);
      var rescored := RescoreTask(b, env, inserted, simulation, id, now);
      TasksOfRecording(b, env, rescored, id, now, s);
    }
  }

  lemma TasksOfRecording(b: Backend, env: Env, rescored: Step<Simulation>, id: Id, now: Millis, s: Snapshot)
    requires UniqueKeys(QueueKey(), rescored.state.queue)
    ensures RefreshAfter(b, env, rescored, id, now).state.tasks == rescored.state.tasks
  {
    RefreshKeepsTasks(b, env, rescored.state, id, now);
  }

  lemma RescoreKeepsCancelled(b: Backend, env: Env, s: Snapshot, inserted: Snapshot, simulation: Simulation, id: Id, now: Millis, task: Id)
    requires s.UniqueIds() && inserted == s.(simulations := s.simulations + [simulation]) && CancelledTask(s, task)
    ensures CancelledTask(RescoreTask(b, env, inserted, simulation, id, now).state, task)
    ensures RescoreTask(b, env, inserted, simulation, id, now).state.queue == s.queue
  {
    var lease := Lookup(LeaseKey(), id, s.leases);
    if lease.Some? {
      var highest := HighestRisk(b, env, inserted, lease.value.id);
      var score := Max(if highest.Some? then highest.value.riskScore else 0.0, simulation.riskContribution);
      PatchKeepsCancelled(b, s, lease.value.taskId, TaskPatch(None, Some(score), None), now, task);
    }
  }

  lemma CallKeepsCancelled(b: Backend, env: Env, s: Snapshot, op: Op, task: Id)
    requires QueueSafe(s) && Legal(s, op) && CancelledTask(s, task)
    ensures CancelledTask(Apply(b, env, s, op).0, task)
  {
    match op
    case PatchTaskOp(id, patch, now) => PatchKeepsCancelled(b, s, id, patch, now, task);
    case Transition(id, status, auditId, now) => TransitionKeepsCancelled(b, s, id, status, auditId, now, task);
    case Simulate(simulation, now) => RecordingKeepsCancelled(b, env, s, simulation, now, task);
    case RefreshLive(id, now) => RefreshKeepsTasks(b, env, s, id, now);
    case Merge(id, now) => FinishKeepsTasks(b, s, id, MarkMerged, now);
    case CancelOp(id, reason, now) =>
    case AddTask(added, auditId, now) =>
      var t :| t in s.tasks && t.id == task && t.status == TaskCancelled;
      assert t in s.tasks + [added];
    case _ =>
  }

  /** Over every run: a cancelled task stays cancelled. */
  lemma {:induction false} CancelledStays(b: Backend, env: Env, s: Snapshot, ops: seq<Op>, task: Id)
    requires env.Valid() && QueueSafe(s) && LegalRun(b, env, s, ops) && CancelledTask(s, task)
    ensures CancelledTask(Run(b, env, s, ops), task)
    decreases |ops|
  {
    if ops != [] {
      CallKeepsCancelled(b, env, s, ops[0], task);
      CallIsSafe(b, env, s, ops[0]);
      CancelledStays(b, env, Apply(b, env, s, ops[0]).0, ops[1..], task);
    }
  }
}
