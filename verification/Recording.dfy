/** Recording a simulation, which rescores one task and refreshes exactly the right queue entries
    (packages/db/src/repository.ts:272-283, packages/db/src/postgres.ts:327-338). */
module Recording {
  import opened Sequences
  import opened Domain
  import opened Keyed
  import opened ConflictRisks
  import opened LatestSimulation
  import opened Queue
  import opened Stores
  import opened RefreshTheorems

  /** The lease the simulation names; an empty id names none. */
  function Named(simulation: Simulation): Option<Id> {
    if simulation.branchLeaseId == Some("") then None else simulation.branchLeaseId
  }

  function NamedLease(s: Snapshot, simulation: Simulation): Option<Lease> {
    if Named(simulation).None? then None else Lookup(LeaseKey(), Named(simulation).value, s.leases)
  }

  function Inserted(s: Snapshot, simulation: Simulation): Snapshot {
    s.(simulations := s.simulations + [simulation])
  }

  /** Recording fails exactly when Postgres already has a simulation with the id, and then nothing has changed, or the
      simulation names a stored lease whose task is not stored, and then the simulation stays recorded and nothing else has
      changed. createBranchLease takes any task id, so there can be such a lease. */
  lemma RecordingFailsExactly(b: Backend, env: Env, s: Snapshot, simulation: Simulation, now: Millis)
    ensures var r := RecordSimulation(b, env, s, simulation, now);
            var lease := NamedLease(s, simulation);
            var stored := b == Postgres && !Keyed.Fresh(SimulationKey(), simulation.id, s.simulations);
            && (r.result.Err? <==> stored || (lease.Some? && Keyed.Fresh(TaskKey(), lease.value.taskId, s.tasks)))
            && (stored ==> r == Step(s, Err(SimulationExists(simulation.id))))
            && (r.result.Err? && !stored ==> r == Step(Inserted(s, simulation), Err(TaskNotFound(lease.value.taskId))))
            && (r.result.Ok? ==> r.result.value == simulation)
  {
    var lease := NamedLease(s, simulation);
    LookupFresh(SimulationKey(), simulation.id, s.simulations);
    if lease.Some? {
      LookupFresh(TaskKey(), lease.value.taskId, s.tasks);
    }
  }

  // ----- what a recording changes -----

  /** What the highest conflict risk of the lease contributes. */
  function ConflictScore(b: Backend, env: Env, s: Snapshot, lease: Id): real {
    var highest := HighestRisk(b, env, s, lease);
    if highest.Some? then highest.value.riskScore else 0.0
  }

  /** The score recordMergeSimulation gives the task. */
  function TaskScore(b: Backend, env: Env, after: Snapshot, lease: Id, simulation: Simulation): real {
    Max(ConflictScore(b, env, after, lease), simulation.riskContribution)
  }

  function Rescored(task: Id, score: real, now: Millis): Task -> Task {
    (t: Task) => if t.id == task then t.(conflictRiskScore := Some(score), updatedAt := now) else t
  }

  /** The named lease's task gets its score; without a stored lease no task changes. */
  function RescoredFor(b: Backend, env: Env, after: Snapshot, lease: Option<Lease>, simulation: Simulation, now: Millis): Task -> Task {
    if lease.None? then (t: Task) => t
    else Rescored(lease.value.taskId, TaskScore(b, env, after, lease.value.id, simulation), now)
  }

  lemma FramedScore(b: Backend, env: Env, s: Snapshot, t: Snapshot, lease: Id)
    requires s.leases == t.leases && s.simulations == t.simulations
    ensures ConflictScore(b, env, s, lease) == ConflictScore(b, env, t, lease)
  {
  }

  lemma TaskRescored(b: Backend, tasks: seq<Task>, task: Task, score: real, now: Millis)
    requires UniqueKeys(TaskKey(), tasks) && task in tasks
    ensures var after := Replace(b, TaskKey(), tasks, PatchTask(task, TaskPatch(None, Some(score), None), now));
            UniqueKeys(TaskKey(), after) && IsImage(Rescored(task.id, score, now), tasks, after)
  {
    var patched := PatchTask(task, TaskPatch(None, Some(score), None), now);
    LookupIs(TaskKey(), tasks, task);
    ReplaceMembers(b, TaskKey(), tasks, patched);
    ReplacedIsImage(TaskKey(), Rescored(task.id, score, now), tasks, Replace(b, TaskKey(), tasks, patched), task, patched);
  }

  lemma Unchanged(tasks: seq<Task>)
    ensures IsImage((t: Task) => t, tasks, tasks)
  {
    var f := (t: Task) => t;
    assert forall t :: t in tasks ==> t == f(t);
  }

  lemma RescoreIsExact(b: Backend, env: Env, s: Snapshot, simulation: Simulation, id: Id, now: Millis)
    requires UniqueKeys(TaskKey(), s.tasks) && RescoreTask(b, env, s, simulation, id, now).result.Ok?
    ensures var t := RescoreTask(b, env, s, simulation, id, now).state;
            && t == s.(tasks := t.tasks) && UniqueKeys(TaskKey(), t.tasks)
            && IsImage(RescoredFor(b, env, s, Lookup(LeaseKey(), id, s.leases), simulation, now), s.tasks, t.tasks)
  {
    var lease := Lookup(LeaseKey(), id, s.leases);
    if lease.None? {
      Unchanged(s.tasks);
    } else {
      var task := Lookup(TaskKey(), lease.value.taskId, s.tasks);
      LookupFresh(TaskKey(), lease.value.taskId, s.tasks);
      TaskRescored(b, s.tasks, task.value, TaskScore(b, env, s, lease.value.id, simulation), now);
    }
  }

  /** A recording that names no lease only adds the simulation. */
  lemma RecordingWithoutLease(b: Backend, env: Env, s: Snapshot, simulation: Simulation, now: Millis)
    requires Named(simulation).None? && !Rejected(b, s, simulation)
    ensures RecordSimulation(b, env, s, simulation, now) == Step(Inserted(s, simulation), Ok(simulation))
  {
  }

  lemma RescoredForFramed(
    b: Backend, env: Env, s: Snapshot, t: Snapshot, lease: Option<Lease>, simulation: Simulation, now: Millis, from: seq<Task>, to: seq<Task>)
    requires s.leases == t.leases && s.simulations == t.simulations
    requires IsImage(RescoredFor(b, env, s, lease, simulation, now), from, to)
    ensures IsImage(RescoredFor(b, env, t, lease, simulation, now), from, to)
  {
    if lease.Some? {
      FramedScore(b, env, s, t, lease.value.id);
    }
  }

  lemma RefreshedFramed(b: Backend, env: Env, s: Snapshot, t: Snapshot, lease: Id, now: Millis, from: seq<QueueEntry>, to: seq<QueueEntry>)
    requires s.leases == t.leases && s.simulations == t.simulations
    requires IsImage(RefreshedLease(b, env, s, lease, now), from, to)
    ensures IsImage(RefreshedLease(b, env, t, lease, now), from, to)
  {
    FieldsFrame(b, env, s, t, lease);
    ImageCongruent(RefreshedLease(b, env, s, lease, now), RefreshedLease(b, env, t, lease, now), from, to);
  }

  /** In either store, a recording that succeeds adds the simulation, rescores the task of the lease it names if that lease
      is stored, gives every live entry filed under the named lease, stored or not, the recomputed fields, and
      changes nothing else. */
  lemma RecordingRefreshesExactly(b: Backend, env: Env, s: Snapshot, simulation: Simulation, now: Millis)
    requires s.UniqueIds() && RecordSimulation(b, env, s, simulation, now).result.Ok?
    ensures var r := RecordSimulation(b, env, s, simulation, now).state;
            && r == Inserted(s, simulation).(tasks := r.tasks, queue := r.queue)
            && (Named(simulation).None? ==> r == Inserted(s, simulation))
            && (Named(simulation).Some? ==>
                  && UniqueKeys(TaskKey(), r.tasks) && UniqueKeys(QueueKey(), r.queue)
                  && IsImage(RescoredFor(b, env, r, NamedLease(s, simulation), simulation, now), s.tasks, r.tasks)
                  && IsImage(RefreshedLease(b, env, r, Named(simulation).value, now), s.queue, r.queue))
  {
    var r := RecordSimulation(b, env, s, simulation, now).state;
    if Named(simulation).Some? {
      var id, inserted := Named(simulation).value, Inserted(s, simulation);
      var rescored := RescoreTask(b, env, inserted, simulation, id, now);
      RescoreIsExact(b, env, inserted, simulation, id, now);
      RefreshLeaseIsExact(b, env, rescored.state, id, now);
      assert r == RefreshLease(b, env, rescored.state, id, now);
      RescoredForFramed(b, env, inserted, r, NamedLease(s, simulation), simulation, now, s.tasks, r.tasks);
      RefreshedFramed(b, env, rescored.state, r, id, now, s.queue, r.queue);
    } else {
      RecordingWithoutLease(b, env, s, simulation, now);
    }
  }

  /** A new simulation is added whether the call succeeds or not, and no lease is touched. */
  lemma RecordingKeepsLeases(b: Backend, env: Env, s: Snapshot, simulation: Simulation, now: Millis)
    requires s.UniqueIds() && Keyed.Fresh(SimulationKey(), simulation.id, s.simulations)
    ensures var r := RecordSimulation(b, env, s, simulation, now).state;
            r.leases == s.leases && r.simulations == s.simulations + [simulation]
  {
    RecordingFailsExactly(b, env, s, simulation, now);
    if RecordSimulation(b, env, s, simulation, now).result.Ok? {
      RecordingRefreshesExactly(b, env, s, simulation, now);
    }
  }

  lemma ImageLookup<T(!new)>(key: T -> Key, f: T -> T, from: seq<T>, to: seq<T>, x: T)
    requires UniqueKeys(key, to) && IsImage(f, from, to) && x in from && key(f(x)) == key(x)
    ensures Lookup(key, key(x), to) == Some(f(x))
  {
    LookupIs(key, to, f(x));
  }

  // ----- the task's score against the queue's -----

  /** The order in which the store takes the newest simulation of a lease. */
  function LeaseOrder(b: Backend, env: Env): Newer {
    if b == InMemory then env.NewestFirst() else env.NewestRowFirst()
  }

  /** The simulation would become the lease's newest: nothing recorded for the lease sorts before it. */
  predicate WillBeNewest(b: Backend, env: Env, simulations: seq<Simulation>, lease: Id, simulation: Simulation) {
    var prior := SimulationOfLease(b, env, simulations, lease);
    prior.None? || !LeaseOrder(b, env)(prior.value, simulation)
  }

  /** A simulation that does not become the lease's newest changes no pair lookup of the lease. */
  lemma PairKept(env: Env, simulations: seq<Simulation>, lease: Id, other: Id, simulation: Simulation)
    requires simulation.branchLeaseId == Some(lease) && !WillBeNewest(InMemory, env, simulations, lease, simulation)
    ensures LatestForPair(env, simulations + [simulation], lease, other) == LatestForPair(env, simulations, lease, other)
  {
    var newer := env.NewestFirst();
    NewestFirstTotal(env);
    LatestIsRunningMaximum(env, OfPair(lease, other), simulations, simulation);
    LatestIsLatest(newer, OfLease(lease), simulations);
    LatestIsLatest(newer, OfPair(lease, other), simulations);
    var prior := LatestForLease(env, simulations, lease).value;
    assert OfPair(lease, other)(prior);
    assert newer(LatestForPair(env, simulations, lease, other).value, simulation);
  }

  /** So it changes no conflict risk of the lease either. */
  lemma ScoreKept(env: Env, s: Snapshot, r: Snapshot, lease: Id, simulation: Simulation)
    requires simulation.branchLeaseId == Some(lease) && !WillBeNewest(InMemory, env, s.simulations, lease, simulation)
    requires r.leases == s.leases && r.simulations == s.simulations + [simulation]
    ensures ConflictScore(InMemory, env, r, lease) == ConflictScore(InMemory, env, s, lease)
  {
    var found := Lookup(LeaseKey(), lease, s.leases);
    if found.Some? && found.value.status == Active {
      LookupFresh(LeaseKey(), lease, s.leases);
      var l, partners := found.value, Filter(Partner(found.value), ActiveLeases(s.leases, found.value.repoId));
      var f, g := ScoreAgainst(Score(InMemory, env, s.simulations), l), ScoreAgainst(Score(InMemory, env, r.simulations), l);
      forall t | t in partners
        ensures f(t) == g(t)
      {
        PairKept(env, s.simulations, lease, t.id, simulation);
        assert SimulationOfPair(InMemory, env, r.simulations, l, t) == SimulationOfPair(InMemory, env, s.simulations, l, t);
      }
      MapCongruent(f, g, partners);
    }
  }

  lemma SameMaximum(floor: real, x: real, y: real)
    ensures Max(floor, x) == Max(floor, y) <==> x == y || (x <= floor && y <= floor)
  {
  }

  // ----- in either store -----

  lemma SimulationOfLeaseIs(b: Backend, env: Env, simulations: seq<Simulation>, lease: Id)
    requires lease != ""
    ensures SimulationOfLease(b, env, simulations, lease) == LatestWhere(LeaseOrder(b, env), OfLease(lease), simulations)
  {
  }

  lemma NewestOfLeaseAfter(b: Backend, env: Env, simulations: seq<Simulation>, lease: Id, simulation: Simulation)
    requires simulation.branchLeaseId == Some(lease) && lease != ""
    ensures SimulationOfLease(b, env, simulations + [simulation], lease)
         == if WillBeNewest(b, env, simulations, lease, simulation) then Some(simulation)
            else SimulationOfLease(b, env, simulations, lease)
  {
    NewestFirstTotal(env);
    SimulationOfLeaseIs(b, env, simulations, lease);
    SimulationOfLeaseIs(b, env, simulations + [simulation], lease);
    RunningMaximum(LeaseOrder(b, env), OfLease(lease), simulations, simulation);
  }

  lemma FieldsScore(b: Backend, env: Env, s: Snapshot, lease: Id)
    ensures var latest := SimulationOfLease(b, env, s.simulations, lease);
            Fields(b, env, s, lease).riskScore
              == Max(ConflictScore(b, env, s, lease), if latest.Some? then latest.value.riskContribution else 0.0)
  {
  }

  /** The highest conflict risk the lease will have. In memory a simulation that does not become the lease's newest leaves it as
      it is; in Postgres it can still become the newest of a pair within the repo, so the simulation is counted in. */
  function ConflictToCome(b: Backend, env: Env, s: Snapshot, lease: Id, simulation: Simulation): real {
    ConflictScore(b, env, if b == InMemory then s else Inserted(s, simulation), lease)
  }

  /** What a caller can tell before the call: the simulation becomes the lease's newest, or contributes what the newest one
      does, or neither of the two contributes more than the highest conflict risk. */
  predicate ScoresWillMatch(b: Backend, env: Env, s: Snapshot, lease: Id, simulation: Simulation) {
    || WillBeNewest(b, env, s.simulations, lease, simulation)
    || var prior := SimulationOfLease(b, env, s.simulations, lease).value.riskContribution;
       || simulation.riskContribution == prior
       || (simulation.riskContribution <= ConflictToCome(b, env, s, lease, simulation)
           && prior <= ConflictToCome(b, env, s, lease, simulation))
  }

  lemma ConflictComes(b: Backend, env: Env, s: Snapshot, r: Snapshot, lease: Id, simulation: Simulation)
    requires simulation.branchLeaseId == Some(lease) && !WillBeNewest(b, env, s.simulations, lease, simulation)
    requires r.leases == s.leases && r.simulations == s.simulations + [simulation]
    ensures ConflictScore(b, env, r, lease) == ConflictToCome(b, env, s, lease, simulation)
  {
    match b
    case InMemory => ScoreKept(env, s, r, lease, simulation);
    case Postgres => FramedScore(Postgres, env, Inserted(s, simulation), r, lease);
  }

  lemma ScoresCompared(b: Backend, env: Env, s: Snapshot, r: Snapshot, simulation: Simulation, lease: Id)
    requires simulation.branchLeaseId == Some(lease) && lease != ""
    requires r.leases == s.leases && r.simulations == s.simulations + [simulation]
    ensures TaskScore(b, env, r, lease, simulation) == Fields(b, env, r, lease).riskScore
       <==> ScoresWillMatch(b, env, s, lease, simulation)
  {
    NewestOfLeaseAfter(b, env, s.simulations, lease, simulation);
    FieldsScore(b, env, r, lease);
    if !WillBeNewest(b, env, s.simulations, lease, simulation) {
      ConflictComes(b, env, s, r, lease, simulation);
      SameMaximum(ConflictToCome(b, env, s, lease, simulation), simulation.riskContribution,
                  SimulationOfLease(b, env, s.simulations, lease).value.riskContribution);
    }
  }

  lemma RecordingSucceeds(b: Backend, env: Env, s: Snapshot, simulation: Simulation, lease: Lease, task: Task, now: Millis)
    requires s.UniqueIds() && !Rejected(b, s, simulation)
    requires lease in s.leases && task in s.tasks && task.id == lease.taskId
    requires simulation.branchLeaseId == Some(lease.id) && lease.id != ""
    ensures NamedLease(s, simulation) == Some(lease) && RecordSimulation(b, env, s, simulation, now).result.Ok?
  {
    LookupIs(LeaseKey(), s.leases, lease);
    LookupIs(TaskKey(), s.tasks, task);
    LookupFresh(TaskKey(), task.id, s.tasks);
    LookupFresh(SimulationKey(), simulation.id, s.simulations);
    RecordingFailsExactly(b, env, s, simulation, now);
  }

  /** The records of the lease's task and of one of its live entries after the call. */
  lemma RecordedScores(b: Backend, env: Env, s: Snapshot, simulation: Simulation, lease: Lease, task: Task, entry: QueueEntry, now: Millis)
    requires s.UniqueIds() && !Rejected(b, s, simulation)
    requires lease in s.leases && task in s.tasks && task.id == lease.taskId
    requires simulation.branchLeaseId == Some(lease.id) && lease.id != ""
    requires entry in s.queue && LiveOf(lease.id)(entry)
    ensures var r := RecordSimulation(b, env, s, simulation, now).state;
            && r.leases == s.leases && r.simulations == s.simulations + [simulation]
            && Lookup(TaskKey(), task.id, r.tasks) == Some(Rescored(task.id, TaskScore(b, env, r, lease.id, simulation), now)(task))
            && Lookup(QueueKey(), entry.id, r.queue) == Some(PatchEntry(entry, Refresh(Fields(b, env, r, lease.id)), now))
  {
    RecordingSucceeds(b, env, s, simulation, lease, task, now);
    RecordingRefreshesExactly(b, env, s, simulation, now);
    var r := RecordSimulation(b, env, s, simulation, now).state;
    ImageLookup(TaskKey(), Rescored(task.id, TaskScore(b, env, r, lease.id, simulation), now), s.tasks, r.tasks, task);
    ImageLookup(QueueKey(), RefreshedLease(b, env, r, lease.id, now), s.queue, r.queue, entry);
  }

  /** In either store, after the call the task's score and the score of a live entry of the lease are the same number exactly
      when the caller could tell so before it. */
  lemma TaskScoreMatchesQueue(
    b: Backend, env: Env, s: Snapshot, simulation: Simulation, lease: Lease, task: Task, entry: QueueEntry, now: Millis)
    requires s.UniqueIds() && !Rejected(b, s, simulation)
    requires lease in s.leases && task in s.tasks && task.id == lease.taskId
    requires simulation.branchLeaseId == Some(lease.id) && lease.id != ""
    requires entry in s.queue && LiveOf(lease.id)(entry)
    ensures var r := RecordSimulation(b, env, s, simulation, now).state;
            var scored := Lookup(TaskKey(), task.id, r.tasks);
            var refreshed := Lookup(QueueKey(), entry.id, r.queue);
            && scored.Some? && refreshed.Some?
            && ((scored.value.conflictRiskScore == Some(refreshed.value.fields.riskScore))
                <==> ScoresWillMatch(b, env, s, lease.id, simulation))
  {
    RecordedScores(b, env, s, simulation, lease, task, entry, now);
    var r := RecordSimulation(b, env, s, simulation, now).state;
    ScoresCompared(b, env, s, r, simulation, lease.id);
  }

  // ----- places -----

  lemma RescoreInPlace(env: Env, s: Snapshot, simulation: Simulation, lease: Lease, task: Task, now: Millis)
    requires UniqueKeys(TaskKey(), s.tasks) && UniqueKeys(LeaseKey(), s.leases)
    requires lease in s.leases && task in s.tasks && task.id == lease.taskId
    ensures RescoreTask(InMemory, env, s, simulation, lease.id, now)
         == Step(s.(tasks := Map(Rescored(task.id, TaskScore(InMemory, env, s, lease.id, simulation), now), s.tasks)), Ok(simulation))
  {
    LookupIs(LeaseKey(), s.leases, lease);
    LookupIs(TaskKey(), s.tasks, task);
    RescoredInPlace(s.tasks, task, TaskScore(InMemory, env, s, lease.id, simulation), now);
  }

  lemma RefreshedLeaseFramed(env: Env, s: Snapshot, t: Snapshot, lease: Id, now: Millis, queue: seq<QueueEntry>)
    requires s.leases == t.leases && s.simulations == t.simulations
    ensures Map(RefreshedLease(InMemory, env, s, lease, now), queue) == Map(RefreshedLease(InMemory, env, t, lease, now), queue)
  {
    FieldsFrame(InMemory, env, s, t, lease);
    MapCongruent(RefreshedLease(InMemory, env, s, lease, now), RefreshedLease(InMemory, env, t, lease, now), queue);
  }

  /** In memory, tasks and entries also keep their places. */
  lemma RecordingInPlace(env: Env, s: Snapshot, simulation: Simulation, lease: Lease, task: Task, now: Millis)
    requires s.UniqueIds()
    requires lease in s.leases && task in s.tasks && task.id == lease.taskId
    requires simulation.branchLeaseId == Some(lease.id) && lease.id != ""
    ensures var r := RecordSimulation(InMemory, env, s, simulation, now);
            && r.result == Ok(simulation)
            && r.state == s.(
                 simulations := s.simulations + [simulation],
                 tasks := Map(Rescored(task.id, TaskScore(InMemory, env, r.state, lease.id, simulation), now), s.tasks),
                 queue := Map(RefreshedLease(InMemory, env, r.state, lease.id, now), s.queue))
  {
    var inserted := Inserted(s, simulation);
    RescoreInPlace(env, inserted, simulation, lease, task, now);
    var rescored := RescoreTask(InMemory, env, inserted, simulation, lease.id, now).state;
    RefreshLeaseInPlace(env, rescored, lease.id, now);
    var r := RecordSimulation(InMemory, env, s, simulation, now);
    assert r.state == RefreshLease(InMemory, env, rescored, lease.id, now);
    RefreshedLeaseFramed(env, rescored, r.state, lease.id, now, s.queue);
    FramedScore(InMemory, env, inserted, r.state, lease.id);
  }

  lemma RescoredInPlace(tasks: seq<Task>, task: Task, score: real, now: Millis)
    requires UniqueKeys(TaskKey(), tasks) && task in tasks
    ensures Put(TaskKey(), tasks, PatchTask(task, TaskPatch(None, Some(score), None), now)) == Map(Rescored(task.id, score, now), tasks)
  {
    var patched := PatchTask(task, TaskPatch(None, Some(score), None), now);
    LookupIs(TaskKey(), tasks, task);
    PutMembers(TaskKey(), tasks, patched);
    forall i | 0 <= i < |tasks|
      ensures Put(TaskKey(), tasks, patched)[i] == Rescored(task.id, score, now)(tasks[i])
    {
      LookupIs(TaskKey(), tasks, tasks[i]);
    }
  }
}
