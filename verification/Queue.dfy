/** The merge-queue fields both stores derive, and the patches they apply to stored records
    (packages/db/src/repository.ts:76-78, 344-364, 515-617). */
module Queue {
  import opened Sequences
  import opened Domain

  /** [...new Set(values)]: first occurrences, in order. */
  function UniqueOrdered(values: seq<string>): seq<string> {
    if values == [] then []
    else
      var last := |values| - 1;
      var rest := UniqueOrdered(values[..last]);
      if values[last] in values[..last] then rest else rest + [values[last]]
  }

  /** Nothing is repeated, nothing is lost, and applying it again changes nothing. */
  lemma {:induction false} UniqueOrderedIsSet(values: seq<string>)
    ensures NoDup(UniqueOrdered(values))
    ensures SameElements(UniqueOrdered(values), values)
    ensures NoDup(values) ==> UniqueOrdered(values) == values
  {
    if values != [] {
      var last := |values| - 1;
      UniqueOrderedIsSet(values[..last]);
      assert values == values[..last] + [values[last]];
    }
  }

  /** Some occurrence of x comes before some occurrence of y. */
  ghost predicate Before(s: seq<string>, x: string, y: string) {
    exists m, n :: 0 <= m < n < |s| && s[m] == x && s[n] == y
  }

  lemma BeforeAppend(s: seq<string>, x: string, y: string, z: string)
    ensures Before(s, x, y) ==> Before(s + [z], x, y)
    ensures x in s ==> Before(s + [z], x, z)
  {
    var t := s + [z];
    if Before(s, x, y) {
      var m, n :| 0 <= m < n < |s| && s[m] == x && s[n] == y;
      assert t[m] == x && t[n] == y;
    }
    if x in s {
      var m :| 0 <= m < |s| && s[m] == x;
      assert t[m] == x && t[|s|] == z;
    }
  }

  /** What stays is in the order of first occurrence. */
  lemma {:induction false} UniqueOrderedKeepsOrder(values: seq<string>, i: nat, j: nat)
    requires i < j < |values|
    requires values[i] !in values[..i] && values[j] !in values[..j]
    ensures Before(UniqueOrdered(values), values[i], values[j])
  {
    var last := |values| - 1;
    var front := values[..last];
    UniqueOrderedIsSet(front);
    BeforeAppend(UniqueOrdered(front), values[i], values[j], values[last]);
    if j < last {
      assert front[..i] == values[..i] && front[..j] == values[..j];
      UniqueOrderedKeepsOrder(front, i, j);
    } else {
      assert front[i] in front;
    }
  }

  /** mergeQueueFieldsForLease, given the lease's highest risk and newest simulation. */
  function FieldsOf(env: Env, risk: Option<ConflictRisk>, simulation: Option<Simulation>): QueueFields {
    var conflict := if risk.Some? then risk.value.riskScore else 0.0;
    var contribution := if simulation.Some? then simulation.value.riskContribution else 0.0;
    var score := Max(conflict, contribution);
    var decision := env.decide(score, simulation);
    QueueFields(
      score,
      conflict,
      decision.status,
      UniqueOrdered(decision.reasons + (if risk.Some? then risk.value.reasons else [])),
      decision.blockingReasons,
      decision.recommendation,
      if simulation.Some? then Some(simulation.value.status) else None,
      if simulation.Some? then Some(simulation.value.createdAt) else None)
  }

  function QueueKey(): QueueEntry -> Id {
    (e: QueueEntry) => e.id
  }

  function TaskKey(): Task -> Id {
    (t: Task) => t.id
  }

  function RepoKey(): Repo -> Id {
    (r: Repo) => r.id
  }

  /** The input of createMergeQueueEntry; fields left out are derived. */
  datatype QueueInput = QueueInput(
    repoId: Id,
    taskId: Id,
    taskRunId: Id,
    branchLeaseId: Id,
    pullRequestId: Id,
    pullRequestUrl: string,
    branchName: string,
    priority: int,
    riskScore: real,
    conflictRiskScore: Option<real>,
    status: Option<QueueStatus>,
    reasons: Option<seq<string>>,
    blockingReasons: Option<seq<string>>,
    recommendation: Option<QueueRecommendation>,
    simulationStatus: Option<SimulationStatus>,
    lastSimulationAt: Option<Millis>)

  function OrElse<T>(x: Option<T>, y: Option<T>): Option<T> {
    if x.Some? then x else y
  }

  function NewEntry(input: QueueInput, derived: QueueFields, id: Id, now: Millis): QueueEntry {
    QueueEntry(
      id, input.repoId, input.taskId, input.taskRunId, input.branchLeaseId, input.pullRequestId, input.pullRequestUrl,
      input.branchName, input.priority,
      QueueFields(
        Max(input.riskScore, derived.riskScore),
        input.conflictRiskScore.GetOr(derived.conflictRiskScore),
        input.status.GetOr(derived.status),
        UniqueOrdered(input.reasons.GetOr([]) + derived.reasons),
        input.blockingReasons.GetOr(derived.blockingReasons),
        input.recommendation.GetOr(derived.recommendation),
        OrElse(input.simulationStatus, derived.simulationStatus),
        OrElse(input.lastSimulationAt, derived.lastSimulationAt)),
      now, now, None, None)
  }

  /** The patches updateMergeQueueEntry is called with. */
  datatype QueuePatch =
    | Refresh(fields: QueueFields)
    | MarkMerged
    | Cancel(reasons: seq<string>)

  function PatchEntry(e: QueueEntry, patch: QueuePatch, now: Millis): QueueEntry {
    match patch
    case Refresh(fields) => e.(fields := fields, updatedAt := now)
    case MarkMerged => e.(fields := e.fields.(status := Merged), mergedAt := Some(now), updatedAt := now)
    case Cancel(reasons) =>
      e.(fields := e.fields.(status := Cancelled, reasons := reasons), cancelledAt := Some(now), updatedAt := now)
  }

  datatype TaskPatch = TaskPatch(status: Option<TaskStatus>, conflictRiskScore: Option<real>, branchName: Option<string>)

  function PatchTask(t: Task, patch: TaskPatch, now: Millis): Task {
    t.(status := patch.status.GetOr(t.status),
       conflictRiskScore := OrElse(patch.conflictRiskScore, t.conflictRiskScore),
       branchName := OrElse(patch.branchName, t.branchName),
       updatedAt := now)
  }

  datatype LeasePatch = LeasePatch(status: Option<LeaseStatus>, releasedAt: Option<Millis>, files: Option<seq<string>>)

  function PatchLease(l: Lease, patch: LeasePatch, now: Millis): Lease {
    l.(status := patch.status.GetOr(l.status),
       releasedAt := OrElse(patch.releasedAt, l.releasedAt),
       files := patch.files.GetOr(l.files),
       updatedAt := now)
  }

  datatype StoreError =
    | TaskNotFound(id: Id)
    | LeaseNotFound(id: Id)
    | EntryNotFound(id: Id)
    | SimulationExists(id: Id)
    | InvalidTransition(from: TaskStatus, to: TaskStatus)

  datatype Result<+T> = Ok(value: T) | Err(error: StoreError)
}
