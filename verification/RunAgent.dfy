/** POST /tasks/:id/run-agent: many handlers over one store. Each handler checks for an active run and creates one
    without yielding, then awaits the agent, and finishes its run when the agent answers
    (apps/api/src/main.ts:3280-3352; packages/db/src/repository.ts:199-222). */
module RunAgent {
  import opened Sequences

  type Id = string
  type HandlerId = nat

  datatype RunStatus = RunQueued | RunRunning | RunSucceeded | RunFailed | RunCancelled
  datatype TaskRun = TaskRun(id: Id, taskId: Id, attempt: nat, status: RunStatus)
  {
    predicate Active() {
      status == RunQueued || status == RunRunning
    }
  }

  /** What the awaited agent answers. */
  datatype AgentStatus = AgentCompleted | AgentFailed | AgentBlocked | AgentCancelled

  datatype Handler =
    | Awaiting(runId: Id, taskId: Id)
    | Died(runId: Id, taskId: Id)
    | Responded(code: nat)
  {
    /** Between the creation of its run and the end of that run. */
    predicate Holds(run: Id) {
      (Awaiting? || Died?) && runId == run
    }
  }

  datatype Server = Server(tasks: set<Id>, runs: seq<TaskRun>, handlers: map<HandlerId, Handler>)

  function OfTask(task: Id): TaskRun -> bool {
    (r: TaskRun) => r.taskId == task
  }

  function ActiveRun(): TaskRun -> bool {
    (r: TaskRun) => r.Active()
  }

  function RunId(run: Id): TaskRun -> bool {
    (r: TaskRun) => r.id == run
  }

  function ListTaskRuns(runs: seq<TaskRun>, task: Id): seq<TaskRun> {
    Filter(OfTask(task), runs)
  }

  // ----- steps -----

  datatype Step =
    | AddTask(task: Id)
    | Begin(handler: HandlerId, task: Id, run: Id)
    | AgentAnswers(handler: HandlerId, answer: AgentStatus)
    | AgentThrows(handler: HandlerId)

  /** A request opens a new handler, and createId makes an unused run id; only a handler that awaits the agent can
      go on. */
  predicate Enabled(s: Server, step: Step) {
    match step
    case AddTask(_) => true
    case Begin(h, _, run) => h !in s.handlers && Find(RunId(run), s.runs).None?
    case AgentAnswers(h, _) => h in s.handlers && s.handlers[h].Awaiting?
    case AgentThrows(h) => h in s.handlers && s.handlers[h].Awaiting?
  }

  function BeginRun(s: Server, h: HandlerId, task: Id, run: Id): Server {
    if task !in s.tasks then s.(handlers := s.handlers[h := Responded(404)])
    else if Find(ActiveRun(), ListTaskRuns(s.runs, task)).Some? then s.(handlers := s.handlers[h := Responded(409)])
    else
      s.(runs := s.runs + [TaskRun(run, task, |ListTaskRuns(s.runs, task)| + 1, RunRunning)],
         handlers := s.handlers[h := Awaiting(run, task)])
  }

  function FinishRun(runs: seq<TaskRun>, run: Id, answer: AgentStatus): seq<TaskRun> {
    var i := FirstIndex(RunId(run), runs);
    if i < |runs| then runs[i := runs[i].(status := if answer == AgentCompleted then RunSucceeded else RunFailed)] else runs
  }

  function Apply(s: Server, step: Step): Server
    requires Enabled(s, step)
  {
    match step
    case AddTask(task) => s.(tasks := s.tasks + {task})
    case Begin(h, task, run) => BeginRun(s, h, task, run)
    case AgentAnswers(h, answer) =>
      s.(runs := FinishRun(s.runs, s.handlers[h].runId, answer),
         handlers := s.handlers[h := Responded(if answer == AgentBlocked then 409 else 201)])
    case AgentThrows(h) => s.(handlers := s.handlers[h := Died(s.handlers[h].runId, s.handlers[h].taskId)])
  }

  ghost predicate EnabledRun(s: Server, steps: seq<Step>)
    decreases |steps|
  {
    steps == [] || (Enabled(s, steps[0]) && EnabledRun(Apply(s, steps[0]), steps[1..]))
  }

  function RunAll(s: Server, steps: seq<Step>): Server
    requires EnabledRun(s, steps)
    decreases |steps|
  {
    if steps == [] then s else RunAll(Apply(s, steps[0]), steps[1..])
  }

  // ----- what every interleaving keeps -----

  ghost predicate UniqueRuns(runs: seq<TaskRun>) {
    forall i, j :: 0 <= i < j < |runs| ==> runs[i].id != runs[j].id
  }

  /** At most one active run per task. */
  ghost predicate OneActive(runs: seq<TaskRun>) {
    forall i, j :: 0 <= i < j < |runs| && runs[i].taskId == runs[j].taskId ==> !(runs[i].Active() && runs[j].Active())
  }

  function Attempt(): TaskRun -> nat {
    (r: TaskRun) => r.attempt
  }

  function Attempts(runs: seq<TaskRun>, task: Id): seq<nat> {
    Map(Attempt(), ListTaskRuns(runs, task))
  }

  /** Every task's attempts, in creation order, are 1, 2, ... */
  ghost predicate CountsUp(runs: seq<TaskRun>) {
    forall task, k :: 0 <= k < |Attempts(runs, task)| ==> Attempts(runs, task)[k] == k + 1
  }

  ghost predicate IsHeld(s: Server, r: TaskRun) {
    exists h :: h in s.handlers && s.handlers[h].Holds(r.id) && s.handlers[h].taskId == r.taskId
  }

  /** The active runs are those whose handler still awaits the agent, or died there. */
  ghost predicate ActiveIsHeld(s: Server) {
    && (forall r :: r in s.runs ==> (r.Active() <==> IsHeld(s, r)))
    && (forall h :: h in s.handlers && !s.handlers[h].Responded? ==>
          exists r :: r in s.runs && r.id == s.handlers[h].runId && r.taskId == s.handlers[h].taskId)
    && (forall h, g :: h in s.handlers && g in s.handlers && !s.handlers[h].Responded? && s.handlers[g].Holds(s.handlers[h].runId)
          ==> h == g)
  }

  ghost predicate Inv(s: Server) {
    UniqueRuns(s.runs) && OneActive(s.runs) && CountsUp(s.runs) && ActiveIsHeld(s)
  }

  lemma UniqueRun(runs: seq<TaskRun>, a: TaskRun, b: TaskRun)
    requires UniqueRuns(runs) && a in runs && b in runs && a.id == b.id
    ensures a == b
  {
  }

  lemma MapAppend<A, B>(f: A -> B, s: seq<A>, t: seq<A>)
    ensures Map(f, s + t) == Map(f, s) + Map(f, t)
  {
    assert forall i :: 0 <= i < |s + t| ==> Map(f, s + t)[i] == (Map(f, s) + Map(f, t))[i];
  }

  lemma AttemptsAppend(runs: seq<TaskRun>, r: TaskRun, task: Id)
    ensures Attempts(runs + [r], task) == Attempts(runs, task) + (if r.taskId == task then [r.attempt] else [])
  {
    FilterAppend(OfTask(task), runs, [r]);
    assert Filter(OfTask(task), [r]) == if r.taskId == task then [r] else [];
    MapAppend(Attempt(), Filter(OfTask(task), runs), Filter(OfTask(task), [r]));
    assert r.taskId == task ==> Map(Attempt(), [r]) == [r.attempt];
  }

  lemma {:induction false} AttemptsKept(runs: seq<TaskRun>, i: nat, r: TaskRun, task: Id)
    requires i < |runs| && r.taskId == runs[i].taskId && r.attempt == runs[i].attempt
    ensures Attempts(runs[i := r], task) == Attempts(runs, task)
  {
    var after := runs[i := r];
    if i == 0 {
      assert after[1..] == runs[1..];
      var f := Filter(OfTask(task), runs[1..]);
      assert ([r] + f)[1..] == f && ([runs[0]] + f)[1..] == f;
    } else {
      assert after[1..] == runs[1..][i - 1 := r];
      AttemptsKept(runs[1..], i - 1, r, task);
      var f, g := Filter(OfTask(task), runs[1..]), Filter(OfTask(task), after[1..]);
      assert ([runs[0]] + f)[1..] == f && ([runs[0]] + g)[1..] == g;
    }
  }

  lemma NoActive(runs: seq<TaskRun>, task: Id)
    ensures Find(ActiveRun(), ListTaskRuns(runs, task)).None? <==> forall r :: r in runs && r.taskId == task ==> !r.Active()
  {
    FilterMembers(OfTask(task), runs);
    var listed := ListTaskRuns(runs, task);
    forall r | r in runs && r.taskId == task
      ensures r in listed
    {
    }
  }

  lemma BeginKeepsRuns(s: Server, h: HandlerId, task: Id, run: Id)
    requires Inv(s) && Enabled(s, Begin(h, task, run)) && task in s.tasks
    requires Find(ActiveRun(), ListTaskRuns(s.runs, task)).None?
    ensures var t := BeginRun(s, h, task, run); UniqueRuns(t.runs) && OneActive(t.runs) && CountsUp(t.runs)
  {
    var r := TaskRun(run, task, |ListTaskRuns(s.runs, task)| + 1, RunRunning);
    NoActive(s.runs, task);
    forall other, k | 0 <= k < |Attempts(s.runs + [r], other)|
      ensures Attempts(s.runs + [r], other)[k] == k + 1
    {
      AttemptsAppend(s.runs, r, other);
    }
    assert forall q :: q in s.runs ==> RunId(run)(q) == (q.id == run);
  }

  lemma BeginKeepsHeld(s: Server, h: HandlerId, task: Id, run: Id)
    requires Inv(s) && Enabled(s, Begin(h, task, run)) && task in s.tasks
    requires Find(ActiveRun(), ListTaskRuns(s.runs, task)).None?
    ensures ActiveIsHeld(BeginRun(s, h, task, run))
  {
    var t := BeginRun(s, h, task, run);
    var r := TaskRun(run, task, |ListTaskRuns(s.runs, task)| + 1, RunRunning);
    assert t.handlers[h].Holds(r.id);
    assert forall q :: q in s.runs ==> RunId(run)(q) == (q.id == run);
    assert forall g :: g in s.handlers ==> g in t.handlers && t.handlers[g] == s.handlers[g];
    forall q | q in s.runs
      ensures IsHeld(t, q) <==> IsHeld(s, q)
    {
      if IsHeld(s, q) {
        var g :| g in s.handlers && s.handlers[g].Holds(q.id) && s.handlers[g].taskId == q.taskId;
        assert t.handlers[g].Holds(q.id);
      }
    }
    assert IsHeld(t, r);
    forall g | g in t.handlers && !t.handlers[g].Responded?
      ensures exists q :: q in t.runs && q.id == t.handlers[g].runId && q.taskId == t.handlers[g].taskId
    {
      if g == h {
        assert r in t.runs;
      } else {
        var q :| q in s.runs && q.id == s.handlers[g].runId && q.taskId == s.handlers[g].taskId;
        assert q in t.runs;
      }
    }
  }

  /** A handler that answers at once changes no run. */
  lemma RespondKeeps(s: Server, h: HandlerId, code: nat)
    requires Inv(s) && h !in s.handlers
    ensures Inv(s.(handlers := s.handlers[h := Responded(code)]))
  {
    var t := s.(handlers := s.handlers[h := Responded(code)]);
    assert forall g :: g in s.handlers ==> g in t.handlers && t.handlers[g] == s.handlers[g];
    forall r | r in s.runs
      ensures IsHeld(t, r) <==> IsHeld(s, r)
    {
      if IsHeld(s, r) {
        var g :| g in s.handlers && s.handlers[g].Holds(r.id) && s.handlers[g].taskId == r.taskId;
        assert t.handlers[g].Holds(r.id);
      }
    }
  }

  lemma FinishedRun(s: Server, h: HandlerId, answer: AgentStatus) returns (i: nat)
    requires Inv(s) && Enabled(s, AgentAnswers(h, answer))
    ensures i < |s.runs| && s.runs[i].id == s.handlers[h].runId && s.runs[i].taskId == s.handlers[h].taskId
    ensures FinishRun(s.runs, s.handlers[h].runId, answer)
         == s.runs[i := s.runs[i].(status := if answer == AgentCompleted then RunSucceeded else RunFailed)]
  {
    var run := s.handlers[h].runId;
    i := FirstIndex(RunId(run), s.runs);
    var r :| r in s.runs && r.id == run && r.taskId == s.handlers[h].taskId;
    assert RunId(run)(r);
    UniqueRun(s.runs, r, s.runs[i]);
  }

  lemma AnswerKeeps(s: Server, h: HandlerId, answer: AgentStatus)
    requires Inv(s) && Enabled(s, AgentAnswers(h, answer))
    ensures Inv(Apply(s, AgentAnswers(h, answer)))
  {
    var i := FinishedRun(s, h, answer);
    var t := Apply(s, AgentAnswers(h, answer));
    assert t.runs == s.runs[i := t.runs[i]];
    AnswerKeepsRuns(s.runs, i, t.runs[i]);
    AnswerKeepsHeld(s, t, h, i);
  }

  /** One run stops being active; its task and attempt stay. */
  lemma AnswerKeepsRuns(runs: seq<TaskRun>, i: nat, done: TaskRun)
    requires UniqueRuns(runs) && OneActive(runs) && CountsUp(runs)
    requires i < |runs| && !done.Active()
    requires done.id == runs[i].id && done.taskId == runs[i].taskId && done.attempt == runs[i].attempt
    ensures var after := runs[i := done]; UniqueRuns(after) && OneActive(after) && CountsUp(after)
  {
    var after := runs[i := done];
    forall task, k | 0 <= k < |Attempts(after, task)|
      ensures Attempts(after, task)[k] == k + 1
    {
      AttemptsKept(runs, i, done, task);
    }
  }

  lemma AnswerKeepsHeld(s: Server, t: Server, h: HandlerId, i: nat)
    requires UniqueRuns(s.runs) && ActiveIsHeld(s) && h in s.handlers && s.handlers[h].Awaiting?
    requires i < |s.runs| && s.runs[i].id == s.handlers[h].runId && |t.runs| == |s.runs|
    requires !t.runs[i].Active() && t.runs[i].id == s.runs[i].id && t.runs[i].taskId == s.runs[i].taskId
    requires forall k :: 0 <= k < |s.runs| && k != i ==> t.runs[k] == s.runs[k]
    requires t.handlers.Keys == s.handlers.Keys && t.handlers[h].Responded?
    requires forall g :: g in s.handlers && g != h ==> t.handlers[g] == s.handlers[g]
    ensures ActiveIsHeld(t)
  {
    forall r | r in t.runs
      ensures r.Active() <==> IsHeld(t, r)
    {
      var k :| 0 <= k < |t.runs| && t.runs[k] == r;
      AnsweredRunHeld(s, t, h, i, k);
    }
    forall g | g in t.handlers && !t.handlers[g].Responded?
      ensures exists q :: q in t.runs && q.id == t.handlers[g].runId && q.taskId == t.handlers[g].taskId
    {
      var q :| q in s.runs && q.id == s.handlers[g].runId && q.taskId == s.handlers[g].taskId;
      var k :| 0 <= k < |s.runs| && s.runs[k] == q;
      assert t.runs[k] in t.runs && t.runs[k].id == q.id && t.runs[k].taskId == q.taskId;
    }
  }

  lemma AnsweredRunHeld(s: Server, t: Server, h: HandlerId, i: nat, k: nat)
    requires UniqueRuns(s.runs) && ActiveIsHeld(s) && h in s.handlers && s.handlers[h].Awaiting?
    requires i < |s.runs| && k < |s.runs| && s.runs[i].id == s.handlers[h].runId
    requires |t.runs| == |s.runs| && !t.runs[i].Active() && t.runs[i].id == s.runs[i].id
    requires k != i ==> t.runs[k] == s.runs[k]
    requires t.handlers.Keys == s.handlers.Keys && t.handlers[h].Responded?
    requires forall g :: g in s.handlers && g != h ==> t.handlers[g] == s.handlers[g]
    ensures t.runs[k].Active() <==> IsHeld(t, t.runs[k])
  {
    var r := t.runs[k];
    if k == i {
      assert !IsHeld(t, r);
    } else {
      assert r in s.runs;
      if IsHeld(s, r) {
        var g :| g in s.handlers && s.handlers[g].Holds(r.id) && s.handlers[g].taskId == r.taskId;
        assert g != h;
        assert t.handlers[g].Holds(r.id);
      }
    }
  }

  lemma ThrowKeeps(s: Server, h: HandlerId)
    requires Inv(s) && Enabled(s, AgentThrows(h))
    ensures Inv(Apply(s, AgentThrows(h)))
  {
    var t := Apply(s, AgentThrows(h));
    assert t.handlers.Keys == s.handlers.Keys;
    forall g, run | g in s.handlers
      ensures t.handlers[g].Holds(run) <==> s.handlers[g].Holds(run)
    {
    }
    forall r | r in s.runs
      ensures IsHeld(t, r) <==> IsHeld(s, r)
    {
      if IsHeld(s, r) {
        var g :| g in s.handlers && s.handlers[g].Holds(r.id) && s.handlers[g].taskId == r.taskId;
        assert t.handlers[g].Holds(r.id) && t.handlers[g].taskId == r.taskId;
      }
      if IsHeld(t, r) {
        var g :| g in t.handlers && t.handlers[g].Holds(r.id) && t.handlers[g].taskId == r.taskId;
        assert s.handlers[g].Holds(r.id) && s.handlers[g].taskId == r.taskId;
      }
    }
  }

  lemma StepKeeps(s: Server, step: Step)
    requires Inv(s) && Enabled(s, step)
    ensures Inv(Apply(s, step))
  {
    match step
    case AddTask(task) =>
      var t := Apply(s, step);
      assert forall r :: r in s.runs ==> (IsHeld(t, r) <==> IsHeld(s, r));
    case Begin(h, task, run) =>
      if task !in s.tasks {
        RespondKeeps(s, h, 404);
      } else if Find(ActiveRun(), ListTaskRuns(s.runs, task)).Some? {
        RespondKeeps(s, h, 409);
      } else {
        BeginKeepsRuns(s, h, task, run);
        BeginKeepsHeld(s, h, task, run);
      }
    case AgentAnswers(h, answer) => AnswerKeeps(s, h, answer);
    case AgentThrows(h) => ThrowKeeps(s, h);
  }

  const Start := Server({}, [], map[])

  /** Every interleaving of handlers: at most one active run per task, attempts 1..n in creation order, and
      active runs exactly those whose handler awaits the agent or died awaiting it. */
  lemma {:induction false} EveryInterleaving(s: Server, steps: seq<Step>)
    requires Inv(s) && EnabledRun(s, steps)
    ensures Inv(RunAll(s, steps))
    decreases |steps|
  {
    if steps != [] {
      StepKeeps(s, steps[0]);
      EveryInterleaving(Apply(s, steps[0]), steps[1..]);
    }
  }

  lemma StartsWell()
    ensures Inv(Start)
  {
  }

  /** A request is refused with 409 exactly when some handler of the same task is awaiting or died awaiting. */
  lemma RefusedExactly(s: Server, h: HandlerId, task: Id, run: Id)
    requires Inv(s) && Enabled(s, Begin(h, task, run)) && task in s.tasks
    ensures BeginRun(s, h, task, run).handlers[h] == Responded(409)
       <==> exists g :: g in s.handlers && !s.handlers[g].Responded? && s.handlers[g].taskId == task
  {
    NoActive(s.runs, task);
    if g :| g in s.handlers && !s.handlers[g].Responded? && s.handlers[g].taskId == task {
      var r :| r in s.runs && r.id == s.handlers[g].runId && r.taskId == task;
      assert s.handlers[g].Holds(r.id);
      assert IsHeld(s, r);
    }
  }

  /** A handler that dies while awaiting blocks its task for good: in every later state its run is still active and
      every new request for the task is refused. */
  lemma {:induction false} DeathBlocksForever(s: Server, dead: HandlerId, steps: seq<Step>, h: HandlerId, run: Id)
    requires Inv(s) && EnabledRun(s, steps)
    requires dead in s.handlers && s.handlers[dead].Died? && s.handlers[dead].taskId in s.tasks
    requires Enabled(RunAll(s, steps), Begin(h, s.handlers[dead].taskId, run))
    ensures var t := RunAll(s, steps);
            && dead in t.handlers && t.handlers[dead] == s.handlers[dead]
            && BeginRun(t, h, s.handlers[dead].taskId, run).handlers[h] == Responded(409)
            && exists r :: r in t.runs && r.id == s.handlers[dead].runId && r.Active()
    decreases |steps|
  {
    if steps == [] {
      var task := s.handlers[dead].taskId;
      RefusedExactly(s, h, task, run);
      var r :| r in s.runs && r.id == s.handlers[dead].runId && r.taskId == task;
      assert s.handlers[dead].Holds(r.id);
      assert IsHeld(s, r);
    } else {
      StepKeeps(s, steps[0]);
      var t := Apply(s, steps[0]);
      assert dead in t.handlers && t.handlers[dead] == s.handlers[dead];
      DeathBlocksForever(t, dead, steps[1..], h, run);
    }
  }

  // ----- the handler over the store -----

  class RunAgentServer {
    var tasks: set<Id>
    var runs: seq<TaskRun>
    var handlers: map<HandlerId, Handler>

    function State(): Server
      reads this
    {
      Server(tasks, runs, handlers)
    }

    constructor ()
      ensures State() == Start
    {
      tasks, runs, handlers := {}, [], map[];
    }

    method CreateTask(task: Id)
      modifies this`tasks
      ensures State() == Apply(old(State()), AddTask(task))
    {
      tasks := tasks + {task};
    }

    /** Up to the await: the check and the creation are one step. */
    method Request(h: HandlerId, task: Id, run: Id)
      requires Enabled(State(), Begin(h, task, run))
      modifies this`runs, this`handlers
      ensures State() == Apply(old(State()), Begin(h, task, run))
    {
      if task !in tasks {
        handlers := handlers[h := Responded(404)];
        return;
      }
      var listed := ListTaskRuns(runs, task);
      if Find(ActiveRun(), listed).Some? {
        handlers := handlers[h := Responded(409)];
        return;
      }
      runs := runs + [TaskRun(run, task, |listed| + 1, RunRunning)];
      handlers := handlers[h := Awaiting(run, task)];
    }

    /** After the await. */
    method Resume(h: HandlerId, answer: AgentStatus)
      requires Enabled(State(), AgentAnswers(h, answer))
      modifies this`runs, this`handlers
      ensures State() == Apply(old(State()), AgentAnswers(h, answer))
    {
      var i := FirstIndex(RunId(handlers[h].runId), runs);
      if i < |runs| {
        runs := runs[i := runs[i].(status := if answer == AgentCompleted then RunSucceeded else RunFailed)];
      }
      handlers := handlers[h := Responded(if answer == AgentBlocked then 409 else 201)];
    }

    method Abort(h: HandlerId)
      requires Enabled(State(), AgentThrows(h))
      modifies this`handlers
      ensures State() == Apply(old(State()), AgentThrows(h))
    {
      handlers := handlers[h := Died(handlers[h].runId, handlers[h].taskId)];
    }
  }
}
