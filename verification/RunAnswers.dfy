/** What a request to run an agent gets back, and what becomes of its run, over every interleaving of handlers
    (apps/api/src/main.ts:3280-3352). */
module RunAnswers {
  import opened Sequences
  import opened RunAgent

  // ----- one request and one answer -----

  ghost predicate HasActive(s: Server, task: Id) {
    exists r :: r in s.runs && r.taskId == task && (r.status == RunQueued || r.status == RunRunning)
  }

  /** Up to the await: 404 exactly for an unknown task, else 409 exactly when the task has an active run, and neither makes a
      run; otherwise one running run is added, numbered after the task's others, and the handler awaits its agent. */
  lemma RequestMeans(s: Server, h: HandlerId, task: Id, run: Id)
    requires Enabled(s, Begin(h, task, run))
    ensures var t := Apply(s, Begin(h, task, run));
            && t.tasks == s.tasks && h in t.handlers && t.handlers == s.handlers[h := t.handlers[h]]
            && (t.handlers[h] == Responded(404) <==> task !in s.tasks)
            && (t.handlers[h] == Responded(409) <==> task in s.tasks && HasActive(s, task))
            && (t.handlers[h] == Awaiting(run, task) <==> task in s.tasks && !HasActive(s, task))
            && (t.handlers[h].Responded? ==> t.runs == s.runs)
            && (t.handlers[h].Awaiting? ==> t.runs == s.runs + [TaskRun(run, task, |ListTaskRuns(s.runs, task)| + 1, RunRunning)])
  {
    NoActive(s.runs, task);
  }

  /** After the await: 409 exactly when the agent was blocked, else 201; the handler's run has succeeded exactly when the agent
      completed, else failed; and nothing else changes. */
  lemma AnswerMeans(s: Server, h: HandlerId, answer: AgentStatus)
    requires Inv(s) && Enabled(s, AgentAnswers(h, answer))
    ensures var t := Apply(s, AgentAnswers(h, answer));
            && t.tasks == s.tasks
            && t.handlers == s.handlers[h := if answer == AgentBlocked then Responded(409) else Responded(201)]
            && exists i :: 0 <= i < |s.runs| && s.runs[i].id == s.handlers[h].runId
                 && t.runs == s.runs[i := s.runs[i].(status := if answer == AgentCompleted then RunSucceeded else RunFailed)]
  {
    var i := FinishedRun(s, h, answer);
  }

  // ----- every interleaving -----

  /** The states of a run of steps, one before each and one after the last. */
  ghost predicate Trace(states: seq<Server>, steps: seq<Step>) {
    && |states| == |steps| + 1
    && states[0] == Start
    && forall k :: 0 <= k < |steps| ==> Enabled(states[k], steps[k]) && states[k + 1] == Apply(states[k], steps[k])
  }

  lemma {:induction false} TraceKeeps(states: seq<Server>, steps: seq<Step>, n: nat)
    requires Trace(states, steps) && n <= |steps|
    ensures Inv(states[n])
  {
    if n == 0 {
      StartsWell();
    } else {
      TraceKeeps(states, steps, n - 1);
      StepKeeps(states[n - 1], steps[n - 1]);
    }
  }

  /** The step answers the handler with the code. */
  ghost predicate Settles(s: Server, step: Step, h: HandlerId, code: nat) {
    match step
    case Begin(g, task, _) =>
      g == h && ((code == 404 && task !in s.tasks) || (code == 409 && task in s.tasks && HasActive(s, task)))
    case AgentAnswers(g, answer) => g == h && ((code == 409 && answer == AgentBlocked) || (code == 201 && answer != AgentBlocked))
    case _ => false
  }

  ghost predicate HasAnswer(s: Server, h: HandlerId, code: nat) {
    h in s.handlers && s.handlers[h] == Responded(code)
  }

  lemma StepAnswers(s: Server, step: Step, h: HandlerId, code: nat)
    requires Inv(s) && Enabled(s, step)
    ensures HasAnswer(Apply(s, step), h, code) <==> HasAnswer(s, h, code) || Settles(s, step, h, code)
  {
    match step
    case Begin(g, task, run) => RequestMeans(s, g, task, run);
    case AgentAnswers(g, answer) => AnswerMeans(s, g, answer);
    case _ =>
  }

  ghost predicate SettledBefore(states: seq<Server>, steps: seq<Step>, n: nat, h: HandlerId, code: nat)
    requires |states| >= n && |steps| >= n
  {
    exists k :: 0 <= k < n && Settles(states[k], steps[k], h, code)
  }

  lemma SettledSnoc(states: seq<Server>, steps: seq<Step>, n: nat, h: HandlerId, code: nat)
    requires 0 < n <= |states| && n <= |steps|
    ensures SettledBefore(states, steps, n, h, code)
       <==> SettledBefore(states, steps, n - 1, h, code) || Settles(states[n - 1], steps[n - 1], h, code)
  {
  }

  /** A handler has answered with a code exactly when some step settled it: its own request, with 404 for a task unknown then
      and 409 for one with an active run then, or its agent's answer, with 409 if that was blocked and 201 otherwise. */
  lemma {:induction false} AnswersExactly(states: seq<Server>, steps: seq<Step>, n: nat, h: HandlerId, code: nat)
    requires Trace(states, steps) && n <= |steps|
    ensures HasAnswer(states[n], h, code) <==> SettledBefore(states, steps, n, h, code)
  {
    if n > 0 {
      AnswersExactly(states, steps, n - 1, h, code);
      TraceKeeps(states, steps, n - 1);
      StepAnswers(states[n - 1], steps[n - 1], h, code);
      SettledSnoc(states, steps, n, h, code);
    }
  }

  // ----- what becomes of a run -----

  ghost predicate HasRun(s: Server, run: Id, status: RunStatus) {
    exists r :: r in s.runs && r.id == run && r.status == status
  }

  /** The step is the answer of the agent for the run. */
  ghost predicate Concludes(s: Server, step: Step, run: Id, completed: bool) {
    && step.AgentAnswers? && step.handler in s.handlers && s.handlers[step.handler].Awaiting?
    && s.handlers[step.handler].runId == run
    && (completed <==> step.answer == AgentCompleted)
  }

  lemma AnswerConcludes(s: Server, h: HandlerId, answer: AgentStatus, run: Id, status: RunStatus)
    requires Inv(s) && Enabled(s, AgentAnswers(h, answer))
    requires status == RunSucceeded || status == RunFailed
    ensures HasRun(Apply(s, AgentAnswers(h, answer)), run, status)
       <==> HasRun(s, run, status) || Concludes(s, AgentAnswers(h, answer), run, status == RunSucceeded)
  {
    var t, held := Apply(s, AgentAnswers(h, answer)), s.handlers[h].runId;
    AnswerMeans(s, h, answer);
    var i :| 0 <= i < |s.runs| && s.runs[i].id == held
             && t.runs == s.runs[i := s.runs[i].(status := if answer == AgentCompleted then RunSucceeded else RunFailed)];
    HeldIsActive(s, h, i);
    OneConcluded(s.runs, i, t.runs, run, status);
  }

  lemma OneConcluded(runs: seq<TaskRun>, i: nat, after: seq<TaskRun>, run: Id, status: RunStatus)
    requires UniqueRuns(runs) && i < |runs| && runs[i].Active() && |after| == |runs| && after[i].id == runs[i].id
    requires after == runs[i := after[i]] && status != RunQueued && status != RunRunning
    ensures (exists r :: r in after && r.id == run && r.status == status)
       <==> (exists r :: r in runs && r.id == run && r.status == status) || (run == runs[i].id && after[i].status == status)
  {
    if r :| r in after && r.id == run && r.status == status {
      var k :| 0 <= k < |after| && after[k] == r;
      assert k != i ==> runs[k] in runs;
    }
    if r :| r in runs && r.id == run && r.status == status {
      var k :| 0 <= k < |runs| && runs[k] == r;
      assert k != i && after[k] in after;
    }
    if run == runs[i].id && after[i].status == status {
      assert after[i] in after;
    }
  }

  lemma HeldIsActive(s: Server, h: HandlerId, i: nat)
    requires Inv(s) && h in s.handlers && s.handlers[h].Awaiting? && i < |s.runs| && s.runs[i].id == s.handlers[h].runId
    ensures s.runs[i].Active()
  {
    var r :| r in s.runs && r.id == s.handlers[h].runId && r.taskId == s.handlers[h].taskId;
    UniqueRun(s.runs, r, s.runs[i]);
    assert s.handlers[h].Holds(r.id);
    assert IsHeld(s, r);
  }

  lemma StepConcludes(s: Server, step: Step, run: Id, status: RunStatus)
    requires Inv(s) && Enabled(s, step) && (status == RunSucceeded || status == RunFailed)
    ensures HasRun(Apply(s, step), run, status) <==> HasRun(s, run, status) || Concludes(s, step, run, status == RunSucceeded)
  {
    match step
    case Begin(h, task, added) =>
      RequestMeans(s, h, task, added);
      var t := Apply(s, step);
      if t.runs != s.runs {
        var made := TaskRun(added, task, |ListTaskRuns(s.runs, task)| + 1, RunRunning);
        assert forall r :: r in t.runs <==> r in s.runs || r == made;
      }
    case AgentAnswers(h, answer) => AnswerConcludes(s, h, answer, run, status);
    case _ =>
  }

  /** A run has succeeded exactly when the agent of the handler that awaited it completed, and failed exactly when that agent
      answered anything else. */
  lemma {:induction false} RunsConcludeExactly(states: seq<Server>, steps: seq<Step>, n: nat, run: Id, status: RunStatus)
    requires Trace(states, steps) && n <= |steps| && (status == RunSucceeded || status == RunFailed)
    ensures HasRun(states[n], run, status) <==> exists k :: 0 <= k < n && Concludes(states[k], steps[k], run, status == RunSucceeded)
  {
    if n > 0 {
      RunsConcludeExactly(states, steps, n - 1, run, status);
      TraceKeeps(states, steps, n - 1);
      StepConcludes(states[n - 1], steps[n - 1], run, status);
    }
  }

  /** A run is made exactly by a request for a known task without an active run. */
  ghost predicate Makes(s: Server, step: Step, run: Id) {
    step.Begin? && step.run == run && step.task in s.tasks && !HasActive(s, step.task)
  }

  ghost predicate HasRunId(s: Server, run: Id) {
    exists r :: r in s.runs && r.id == run
  }

  ghost predicate MadeBefore(states: seq<Server>, steps: seq<Step>, n: nat, run: Id)
    requires |states| >= n && |steps| >= n
  {
    exists k :: 0 <= k < n && Makes(states[k], steps[k], run)
  }

  lemma MadeSnoc(states: seq<Server>, steps: seq<Step>, n: nat, run: Id)
    requires 0 < n <= |states| && n <= |steps|
    ensures MadeBefore(states, steps, n, run) <==> MadeBefore(states, steps, n - 1, run) || Makes(states[n - 1], steps[n - 1], run)
  {
  }

  lemma StepMakes(s: Server, step: Step, run: Id)
    requires Inv(s) && Enabled(s, step)
    ensures HasRunId(Apply(s, step), run) <==> HasRunId(s, run) || Makes(s, step, run)
  {
    var t := Apply(s, step);
    match step
    case Begin(h, task, added) =>
      RequestMeans(s, h, task, added);
      if t.runs != s.runs {
        var made := TaskRun(added, task, |ListTaskRuns(s.runs, task)| + 1, RunRunning);
        assert forall r :: r in t.runs <==> r in s.runs || r == made;
      }
    case AgentAnswers(h, answer) =>
      var i := FinishedRun(s, h, answer);
      assert t.runs == s.runs[i := t.runs[i]];
      SameRunIds(s.runs, i, t.runs[i], run);
    case _ =>
  }

  lemma SameRunIds(runs: seq<TaskRun>, i: nat, done: TaskRun, run: Id)
    requires i < |runs| && done.id == runs[i].id
    ensures (exists r :: r in runs[i := done] && r.id == run) <==> exists r :: r in runs && r.id == run
  {
    var after := runs[i := done];
    if r :| r in after && r.id == run {
      var k :| 0 <= k < |after| && after[k] == r;
      assert runs[k] in runs && runs[k].id == run;
    }
    if r :| r in runs && r.id == run {
      var k :| 0 <= k < |runs| && runs[k] == r;
      assert after[k] in after && after[k].id == run;
    }
  }

  lemma {:induction false} RunsMadeExactly(states: seq<Server>, steps: seq<Step>, n: nat, run: Id)
    requires Trace(states, steps) && n <= |steps|
    ensures HasRunId(states[n], run) <==> MadeBefore(states, steps, n, run)
  {
    if n > 0 {
      RunsMadeExactly(states, steps, n - 1, run);
      TraceKeeps(states, steps, n - 1);
      StepMakes(states[n - 1], steps[n - 1], run);
      MadeSnoc(states, steps, n, run);
    }
  }
}
