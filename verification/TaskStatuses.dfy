/** What the task state machine allows (packages/core/src/domain/status.ts:35-65). */
module TaskStatuses {
  import opened Sequences
  import opened Domain

  /** The statuses a task can enter a status from, other than that status. */
  function EnteredFrom(to: TaskStatus): set<TaskStatus> {
    match to
    case Draft => {}
    case Planned => {Draft}
    case PolicyBlocked => {Planned, TaskQueued}
    case TaskQueued => {Planned, Completed, TaskFailed}
    case BranchCreated => {TaskQueued}
    case Running => {TaskQueued, BranchCreated}
    case Testing => {Running, ConflictFixing}
    case PrDraftReady => {Testing}
    case PrOpened => {PrDraftReady}
    case CiPending => {PrOpened}
    case CiFailed => {Testing, CiPending}
    case Conflicted => {Testing, PrOpened}
    case ConflictFixing => {Conflicted}
    case ReviewRequired => {Testing, PrDraftReady, PrOpened, CiFailed, Conflicted, ConflictFixing}
    case MergeReady => {PrDraftReady, CiPending, ReviewRequired}
    case TaskMerged => {MergeReady}
    case Completed => {PrDraftReady, TaskMerged}
    case TaskFailed =>
      {Draft, Planned, TaskQueued, BranchCreated, Running, Testing, PrDraftReady, PrOpened, CiPending, CiFailed, Conflicted,
       ConflictFixing, ReviewRequired, MergeReady}
    case TaskCancelled =>
      {Draft, Planned, PolicyBlocked, TaskQueued, BranchCreated, Running, Testing, PrDraftReady, PrOpened, CiPending, CiFailed,
       Conflicted, ConflictFixing, ReviewRequired, MergeReady}
  }

  predicate Early(from: TaskStatus) {
    from in {Draft, Planned, PolicyBlocked, TaskQueued, BranchCreated, Running, Testing, PrDraftReady, PrOpened}
  }

  lemma EarlyBackwards(from: TaskStatus, to: TaskStatus)
    requires Early(from)
    ensures CanTransition(from, to) <==> from == to || from in EnteredFrom(to)
  {
  }

  lemma LateBackwards(from: TaskStatus, to: TaskStatus)
    requires !Early(from)
    ensures CanTransition(from, to) <==> from == to || from in EnteredFrom(to)
  {
  }

  /** The table read backwards: a task enters a status exactly from these, or stays. */
  lemma TransitionsBackwards(from: TaskStatus, to: TaskStatus)
    ensures CanTransition(from, to) <==> from == to || from in EnteredFrom(to)
  {
    if Early(from) {
      EarlyBackwards(from, to);
    } else {
      LateBackwards(from, to);
    }
  }

  /** Only a cancelled task can go nowhere; a task is queued again exactly after it completed or failed; it can be
      cancelled exactly until it is merged, completed or failed. */
  lemma TerminalAndRetry(from: TaskStatus)
    ensures (forall to :: CanTransition(from, to) ==> to == from) <==> from == TaskCancelled
    ensures from != TaskQueued && CanTransition(from, TaskQueued) <==> from == Planned || from == Completed || from == TaskFailed
    ensures CanTransition(from, TaskCancelled) <==> from != TaskMerged && from != Completed && from != TaskFailed
  {
    if from != TaskCancelled {
      var other := if from == TaskMerged then Completed else if from == Completed || from == TaskFailed then TaskQueued else TaskCancelled;
      assert CanTransition(from, other) && other != from;
    }
  }

  predicate IsPath(path: seq<TaskStatus>) {
    forall i :: 0 <= i < |path| - 1 ==> CanTransition(path[i], path[i + 1])
  }

  /** A way from the status to completion, for every status that has one. */
  function WayToComplete(from: TaskStatus): seq<TaskStatus> {
    match from
    case Draft => [Draft, Planned, TaskQueued, Running, Testing, PrDraftReady, Completed]
    case Planned => [Planned, TaskQueued, Running, Testing, PrDraftReady, Completed]
    case TaskQueued => [TaskQueued, Running, Testing, PrDraftReady, Completed]
    case BranchCreated => [BranchCreated, Running, Testing, PrDraftReady, Completed]
    case Running => [Running, Testing, PrDraftReady, Completed]
    case Testing => [Testing, PrDraftReady, Completed]
    case PrDraftReady => [PrDraftReady, Completed]
    case PrOpened => [PrOpened, CiPending, MergeReady, TaskMerged, Completed]
    case CiPending => [CiPending, MergeReady, TaskMerged, Completed]
    case CiFailed => [CiFailed, ReviewRequired, MergeReady, TaskMerged, Completed]
    case Conflicted => [Conflicted, ConflictFixing, Testing, PrDraftReady, Completed]
    case ConflictFixing => [ConflictFixing, Testing, PrDraftReady, Completed]
    case ReviewRequired => [ReviewRequired, MergeReady, TaskMerged, Completed]
    case MergeReady => [MergeReady, TaskMerged, Completed]
    case TaskMerged => [TaskMerged, Completed]
    case Completed => [Completed]
    case TaskFailed => [TaskFailed, TaskQueued, Running, Testing, PrDraftReady, Completed]
    case _ => []
  }

  lemma {:induction false} NoWayBack(path: seq<TaskStatus>)
    requires path != [] && IsPath(path) && (path[0] == PolicyBlocked || path[0] == TaskCancelled)
    ensures path[|path| - 1] == PolicyBlocked || path[|path| - 1] == TaskCancelled
  {
    if |path| > 1 {
      assert CanTransition(path[0], path[1]);
      var rest := path[1..];
      forall i | 0 <= i < |rest| - 1
        ensures CanTransition(rest[i], rest[i + 1])
      {
        assert CanTransition(path[i + 1], path[i + 2]);
      }
      NoWayBack(rest);
    }
  }

  /** A task can still be completed exactly when it is neither blocked by policy nor cancelled. */
  lemma CompletableExactly(from: TaskStatus)
    ensures (exists path :: IsPath(path) && path != [] && path[0] == from && path[|path| - 1] == Completed)
       <==> from != PolicyBlocked && from != TaskCancelled
  {
    if from != PolicyBlocked && from != TaskCancelled {
      var path := WayToComplete(from);
      assert IsPath(path) && path[0] == from && path[|path| - 1] == Completed;
    }
    if path :| IsPath(path) && path != [] && path[0] == from && path[|path| - 1] == Completed {
      if from == PolicyBlocked || from == TaskCancelled {
        NoWayBack(path);
        assert false;
      }
    }
  }
}
