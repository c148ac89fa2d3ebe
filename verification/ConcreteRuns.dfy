/** Legal runs from the empty store after which the two stores, or the two scores of one store, come apart: the exact
    conditions of the other modules do fail in states the API reaches. */
module ConcreteRuns {
  import opened Sequences
  import opened Domain
  import opened Keyed
  import opened ConflictRisks
  import opened ConflictScoring
  import opened LatestSimulation
  import opened Queue
  import opened Stores
  import opened RefreshTheorems
  import opened Recording
  import AuditReplay
  import SafetyTheorems
  import opened Agreement
  import opened Listings
  import opened RunRiskOrder

  /** The run of the calls is legal and ends in s. */
  ghost predicate Reaches(b: Backend, env: Env, ops: seq<Op>, s: Snapshot) {
    LegalRun(b, env, Empty, ops) && Run(b, env, Empty, ops) == s
  }

  lemma {:induction false} RunSnoc(b: Backend, env: Env, s: Snapshot, ops: seq<Op>, op: Op)
    ensures Run(b, env, s, ops + [op]) == Apply(b, env, Run(b, env, s, ops), op).0
    ensures LegalRun(b, env, s, ops) && Legal(Run(b, env, s, ops), op) ==> LegalRun(b, env, s, ops + [op])
    decreases |ops|
  {
    if ops == [] {
      assert ops + [op] == [op] && [op][1..] == [];
    } else {
      assert (ops + [op])[1..] == ops[1..] + [op];
      RunSnoc(b, env, Apply(b, env, s, ops[0]).0, ops[1..], op);
    }
  }

  lemma Then(b: Backend, env: Env, ops: seq<Op>, s: Snapshot, op: Op)
    requires Reaches(b, env, ops, s) && Legal(s, op)
    ensures Reaches(b, env, ops + [op], Apply(b, env, s, op).0)
  {
    RunSnoc(b, env, Empty, ops, op);
  }

  function ARepo(id: Id, created: Millis): Repo {
    Repo(id, "o", "n", "main", created)
  }

  function ALease(id: Id, task: Id, run: Id, repo: Id): Lease {
    Lease(id, task, run, repo, "branch", "b", "main", [], [], [], Active, None, None, 0, 0)
  }

  function ASimulation(id: Id, repo: Id, lease: Id, contribution: real, created: Millis): Simulation {
    Simulation(id, repo, None, "main", "b", None, None, Some(lease), Mock, Clean, [], [], "", contribution, created)
  }

  function AnInput(lease: Id): QueueInput {
    QueueInput("repo_1", "task_1", "run_1", lease, "pr_1", "", "b", 0, 0.0, None, None, None, None, None, None, None)
  }

  const LEASE_1 := "lease_0000000000000001"
  const LEASE_2 := "lease_0000000000000002"
  const LEASE_3 := "lease_0000000000000003"
  const LEASE_4 := "lease_0000000000000004"

  lemma Names()
    ensures MadeLeaseId(LEASE_1) && MadeLeaseId(LEASE_2) && MadeLeaseId(LEASE_3) && MadeLeaseId(LEASE_4)
    ensures LEASE_1 != LEASE_2 && LEASE_1 != LEASE_3 && LEASE_1 != LEASE_4 && LEASE_2 != LEASE_3
         && LEASE_2 != LEASE_4 && LEASE_3 != LEASE_4
    ensures "repo_1" != "repo_2" && "task_1" != "task_2" && "task_1" != "task_3" && "task_3" != "task_4"
         && "run_1" != "run_2" && "run_1" != "run_4" && "queue_1" != "queue_2" && "sim_1" != "sim_2"
         && LEASE_1 != "" && "repo_1" != "" && "repo_2" != ""
  {
    assert LEASE_1[21] == '1' && LEASE_2[21] == '2' && LEASE_3[21] == '3' && LEASE_4[21] == '4';
    assert "repo_1"[5] != "repo_2"[5] && "task_1"[5] != "task_2"[5] && "task_1"[5] != "task_3"[5] && "task_3"[5] != "task_4"[5];
    assert "run_1"[4] != "run_2"[4] && "run_1"[4] != "run_4"[4] && "queue_1"[6] != "queue_2"[6] && "sim_1"[4] != "sim_2"[4];
  }

  // ----- a simulation recorded against another repo -----

  function TwoTasks(): seq<Task> {
    [NewTask("task_1", "", "u", "repo_1", "main", 0), NewTask("task_2", "", "u", "repo_1", "main", 0)]
  }

  function TwoLeases(): seq<Lease> {
    [ALease(LEASE_1, "task_1", "run_1", "repo_1"), ALease(LEASE_2, "task_2", "run_2", "repo_1")]
  }

  function Overlapping(): seq<Op> {
    [AddRepo(ARepo("repo_1", 0))] + [AddRepo(ARepo("repo_2", 0))]
    + [AddTask(TwoTasks()[0], "audit_1", 0)] + [AddTask(TwoTasks()[1], "audit_2", 0)]
    + [AddLease(TwoLeases()[0])] + [AddLease(TwoLeases()[1])]
  }

  function Foreign(): Simulation {
    ASimulation("sim_1", "repo_2", LEASE_1, 0.5, 0)
  }

  lemma OverlappingTasks(b: Backend, env: Env)
    ensures var ops := [AddRepo(ARepo("repo_1", 0))] + [AddRepo(ARepo("repo_2", 0))]
                       + [AddTask(TwoTasks()[0], "audit_1", 0)] + [AddTask(TwoTasks()[1], "audit_2", 0)];
            var s := Run(b, env, Empty, ops);
            Reaches(b, env, ops, s) && s.repos == [ARepo("repo_1", 0), ARepo("repo_2", 0)] && s.tasks == TwoTasks()
            && s.leases == [] && s.simulations == [] && s.queue == []
  {
    Names();
    var r1, r2, t1, t2 := ARepo("repo_1", 0), ARepo("repo_2", 0), TwoTasks()[0], TwoTasks()[1];
    var s1 := CreateRepo(Empty, r1);
    var s2 := CreateRepo(s1, r2);
    var s3 := CreateTask(s2, t1, "audit_1", 0);
    Then(b, env, [], Empty, AddRepo(r1));
    assert [] + [AddRepo(r1)] == [AddRepo(r1)];
    Then(b, env, [AddRepo(r1)], s1, AddRepo(r2));
    Then(b, env, [AddRepo(r1)] + [AddRepo(r2)], s2, AddTask(t1, "audit_1", 0));
    Then(b, env, [AddRepo(r1)] + [AddRepo(r2)] + [AddTask(t1, "audit_1", 0)], s3, AddTask(t2, "audit_2", 0));
  }

  lemma AddTwoLeases(b: Backend, env: Env, ops: seq<Op>, s: Snapshot, l1: Lease, l2: Lease)
    requires Reaches(b, env, ops, s) && s.leases == [] && l1.id != l2.id
    requires MadeLeaseId(l1.id) && MadeLeaseId(l2.id) && l1.status == Active && l2.status == Active
    ensures Reaches(b, env, ops + [AddLease(l1)] + [AddLease(l2)], s.(leases := [l1, l2]))
  {
    Then(b, env, ops, s, AddLease(l1));
    var t := CreateLease(s, l1);
    assert t.leases == [l1];
    Then(b, env, ops + [AddLease(l1)], t, AddLease(l2));
    assert CreateLease(t, l2) == s.(leases := [l1, l2]);
  }

  lemma OverlappingRun(b: Backend, env: Env)
    ensures var s := Run(b, env, Empty, Overlapping());
            Reaches(b, env, Overlapping(), s) && s.repos == [ARepo("repo_1", 0), ARepo("repo_2", 0)] && s.tasks == TwoTasks()
            && s.leases == TwoLeases() && s.simulations == [] && s.queue == []
  {
    Names();
    OverlappingTasks(b, env);
    var ops := [AddRepo(ARepo("repo_1", 0))] + [AddRepo(ARepo("repo_2", 0))]
               + [AddTask(TwoTasks()[0], "audit_1", 0)] + [AddTask(TwoTasks()[1], "audit_2", 0)];
    AddTwoLeases(b, env, ops, Run(b, env, Empty, ops), TwoLeases()[0], TwoLeases()[1]);
  }

  lemma ForeignRun(b: Backend, env: Env)
    ensures var ops := Overlapping() + [Simulate(Foreign(), 1)];
            var s := Run(b, env, Empty, ops);
            LegalRun(b, env, Empty, ops) && s.leases == TwoLeases() && s.simulations == [Foreign()]
  {
    OverlappingRun(b, env);
    var s := Run(b, env, Empty, Overlapping());
    Then(b, env, Overlapping(), s, Simulate(Foreign(), 1));
    UniqueOverlapping(s);
    RecordingKeepsLeases(b, env, s, Foreign(), 1);
    assert [] + [Foreign()] == [Foreign()];
  }

  lemma UniqueOverlapping(s: Snapshot)
    requires s.repos == [ARepo("repo_1", 0), ARepo("repo_2", 0)] && s.tasks == TwoTasks()
    requires s.leases == TwoLeases() && s.simulations == [] && s.queue == []
    ensures s.UniqueIds()
  {
    Names();
  }

  /** Two repos, two tasks, two overlapping leases of one repo, and one simulation of the first lease whose request body names
      the other repo: a legal run of either store, after which their risk lists for the repo differ. */
  lemma ForeignSimulationIsReachable(overlap: OverlapScore, locale: Id -> real, database: Id -> real)
    requires ConcreteEnv(overlap, locale, database).Valid()
    ensures var env := ConcreteEnv(overlap, locale, database);
            var ops := Overlapping() + [Simulate(Foreign(), 1)];
            && LegalRun(InMemory, env, Empty, ops) && LegalRun(Postgres, env, Empty, ops)
            && RepoRiskList(Postgres, env, Run(Postgres, env, Empty, ops), "repo_1")
                 != RepoRiskList(InMemory, env, Run(InMemory, env, Empty, ops), "repo_1")
  {
    var env := ConcreteEnv(overlap, locale, database);
    Names();
    ForeignRun(InMemory, env);
    ForeignRun(Postgres, env);
    var l, ops := TwoLeases(), Overlapping() + [Simulate(Foreign(), 1)];
    assert [l[0], l[1]] == l;
    ForeignSimulationIsVisible(overlap, locale, database, Run(InMemory, env, Empty, ops), Run(Postgres, env, Empty, ops),
                               l[0], l[1], Foreign());
  }

  // ----- the task's score against the queue's -----

  function Newer(): Simulation {
    ASimulation("sim_1", "repo_1", LEASE_1, 0.25, 10)
  }

  function Older(): Simulation {
    ASimulation("sim_2", "repo_1", LEASE_1, 0.75, 5)
  }

  function Queueing(): seq<Op> {
    [AddTask(TwoTasks()[0], "audit_1", 0)] + [AddLease(TwoLeases()[0])] + [AddEntry(AnInput(LEASE_1), "queue_1", 0)]
  }

  lemma QueueingRun(env: Env)
    ensures var s := Run(InMemory, env, Empty, Queueing());
            && Reaches(InMemory, env, Queueing(), s)
            && s.repos == [] && s.tasks == [TwoTasks()[0]] && s.leases == [TwoLeases()[0]] && s.simulations == []
            && |s.queue| == 1 && s.queue[0] == NewEntry(AnInput(LEASE_1), Fields(InMemory, env, s, LEASE_1), "queue_1", 0)
  {
    Names();
    var t, l := TwoTasks()[0], TwoLeases()[0];
    var s1 := CreateTask(Empty, t, "audit_1", 0);
    var s2 := CreateLease(s1, l);
    Then(InMemory, env, [], Empty, AddTask(t, "audit_1", 0));
    assert [] + [AddTask(t, "audit_1", 0)] == [AddTask(t, "audit_1", 0)];
    Then(InMemory, env, [AddTask(t, "audit_1", 0)], s1, AddLease(l));
    Then(InMemory, env, [AddTask(t, "audit_1", 0)] + [AddLease(l)], s2, AddEntry(AnInput(LEASE_1), "queue_1", 0));
    FieldsFrame(InMemory, env, s2, Run(InMemory, env, Empty, Queueing()), LEASE_1);
  }

  /** The state after the newer simulation: one task, one lease, one live entry. */
  ghost predicate OneOfEach(s: Snapshot) {
    && s.repos == [] && |s.tasks| == 1 && s.tasks[0].id == "task_1" && s.leases == [TwoLeases()[0]]
    && s.simulations == [Newer()] && |s.queue| == 1 && s.queue[0].id == "queue_1" && LiveOf(LEASE_1)(s.queue[0])
  }

  lemma NewerRecorded(env: Env, s: Snapshot)
    requires env.Valid()
    requires s.repos == [] && s.tasks == [TwoTasks()[0]] && s.leases == [TwoLeases()[0]] && s.simulations == []
    requires |s.queue| == 1 && s.queue[0].id == "queue_1" && LiveOf(LEASE_1)(s.queue[0])
    ensures OneOfEach(RecordSimulation(InMemory, env, s, Newer(), 10).state)
  {
    assert LEASE_1 != "" by { Names(); }
    assert s.tasks[0] in s.tasks && s.leases[0] in s.leases;
    RecordingInPlace(env, s, Newer(), s.leases[0], s.tasks[0], 10);
    var r := RecordSimulation(InMemory, env, s, Newer(), 10).state;
    SafetyTheorems.RefreshKeepsLiveness(InMemory, env, r, LEASE_1, 10, s.queue[0]);
    assert [] + [Newer()] == [Newer()];
  }

  lemma NewEntryIsLive(env: Env, s: Snapshot, id: Id)
    requires env.Valid()
    ensures LiveOf(LEASE_1)(NewEntry(AnInput(LEASE_1), Fields(InMemory, env, s, LEASE_1), id, 0))
  {
    SafetyTheorems.DerivedIsLive(env, HighestRisk(InMemory, env, s, LEASE_1), LatestForLease(env, s.simulations, LEASE_1));
  }

  lemma NewerRun(env: Env)
    requires env.Valid()
    ensures var ops := Queueing() + [Simulate(Newer(), 10)];
            var s := Run(InMemory, env, Empty, ops);
            Reaches(InMemory, env, ops, s) && OneOfEach(s)
  {
    QueueingRun(env);
    var s := Run(InMemory, env, Empty, Queueing());
    Then(InMemory, env, Queueing(), s, Simulate(Newer(), 10));
    NewEntryIsLive(env, s, "queue_1");
    NewerRecorded(env, s);
  }

  lemma AloneHasNoRisk(env: Env, s: Snapshot)
    requires s.leases == [TwoLeases()[0]]
    ensures ConflictScore(InMemory, env, s, LEASE_1) == 0.0
  {
    var l := TwoLeases()[0];
    LookupFresh(LeaseKey(), LEASE_1, s.leases);
    NoPartner(l, s.leases);
  }

  lemma NoPartner(l: Lease, leases: seq<Lease>)
    requires leases == [l]
    ensures Filter(Partner(l), ActiveLeases(leases, l.repoId)) == []
  {
    assert ActiveLeases(leases, l.repoId) == [] || ActiveLeases(leases, l.repoId) == [l];
    assert Filter(Partner(l), [l]) == [];
  }

  lemma OnlyNewest(env: Env, x: Simulation, lease: Id)
    requires OfLease(lease)(x)
    ensures LatestForLease(env, [x], lease) == Some(x)
  {
    assert Filter(OfLease(lease), [x]) == [x];
    assert Sort(env.NewestFirst(), [x]) == [x];
  }

  lemma OlderRecorded(env: Env, s: Snapshot)
    requires env.Valid() && OneOfEach(s)
    ensures var r := RecordSimulation(InMemory, env, s, Older(), 11).state;
            var task, entry := Lookup(TaskKey(), "task_1", r.tasks), Lookup(QueueKey(), "queue_1", r.queue);
            task.Some? && entry.Some? && task.value.conflictRiskScore != Some(entry.value.fields.riskScore)
  {
    assert LEASE_1 != "" by { Names(); }
    assert s.tasks[0] in s.tasks && s.leases[0] in s.leases && s.queue[0] in s.queue;
    TaskScoreMatchesQueue(InMemory, env, s, Older(), s.leases[0], s.tasks[0], s.queue[0], 11);
    OlderWillNotMatch(env, s);
  }

  lemma OlderWillNotMatch(env: Env, s: Snapshot)
    requires OneOfEach(s)
    ensures !ScoresWillMatch(InMemory, env, s, LEASE_1, Older())
  {
    AloneHasNoRisk(env, s);
    OnlyNewest(env, Newer(), LEASE_1);
  }

  /** A simulation that is recorded late but is older than the newest, and contributes more: the task gets its contribution, the
      queue entry keeps the newest one's. */
  lemma ScoresComeApart(env: Env)
    requires env.Valid()
    ensures var ops := Queueing() + [Simulate(Newer(), 10)] + [Simulate(Older(), 11)];
            var r := Run(InMemory, env, Empty, ops);
            var task, entry := Lookup(TaskKey(), "task_1", r.tasks), Lookup(QueueKey(), "queue_1", r.queue);
            && LegalRun(InMemory, env, Empty, ops) && task.Some? && entry.Some?
            && task.value.conflictRiskScore != Some(entry.value.fields.riskScore)
  {
    NewerRun(env);
    var ops := Queueing() + [Simulate(Newer(), 10)];
    var s := Run(InMemory, env, Empty, ops);
    assert Keyed.Fresh(SimulationKey(), Older().id, s.simulations) by { Names(); }
    Then(InMemory, env, ops, s, Simulate(Older(), 11));
    OlderRecorded(env, s);
  }

  // ----- the queue list -----

  /** Of two ids, the one the database orders last. */
  function LastId(env: Env): Id {
    if env.database("queue_1") > env.database("queue_2") then "queue_1" else "queue_2"
  }

  function FirstId(env: Env): Id {
    if env.database("queue_1") > env.database("queue_2") then "queue_2" else "queue_1"
  }

  lemma IdsOrdered(env: Env)
    requires env.Valid()
    ensures LastId(env) != FirstId(env) && env.database(LastId(env)) > env.database(FirstId(env))
  {
    Names();
    assert env.database("queue_1") != env.database("queue_2");
  }

  function OneLease(): Snapshot {
    Snapshot([], [], [TwoLeases()[0]], [], [], [])
  }

  function Enqueued(b: Backend, env: Env, s: Snapshot, input: QueueInput, id: Id): QueueEntry {
    NewEntry(input, Fields(b, env, s, input.branchLeaseId), id, 0)
  }

  lemma EnqueueOnce(b: Backend, env: Env, ops: seq<Op>, s: Snapshot, input: QueueInput, id: Id)
    requires Reaches(b, env, ops, s) && Keyed.Fresh(QueueKey(), id, s.queue) && input.status.None?
    ensures Reaches(b, env, ops + [AddEntry(input, id, 0)], s.(queue := s.queue + [Enqueued(b, env, s, input, id)]))
  {
    Then(b, env, ops, s, AddEntry(input, id, 0));
  }

  lemma EnqueuedFramed(b: Backend, env: Env, s: Snapshot, t: Snapshot, input: QueueInput, id: Id)
    requires s.leases == t.leases && s.simulations == t.simulations
    ensures Enqueued(b, env, s, input, id) == Enqueued(b, env, t, input, id)
  {
    FieldsFrame(b, env, s, t, input.branchLeaseId);
  }

  lemma FreshBeside(e: QueueEntry, id: Id)
    requires e.id != id
    ensures Keyed.Fresh(QueueKey(), id, [e])
  {
  }

  lemma EnqueuedId(b: Backend, env: Env, s: Snapshot, input: QueueInput, id: Id)
    ensures Enqueued(b, env, s, input, id).id == id
  {
  }

  lemma EnqueueSecond(b: Backend, env: Env, ops: seq<Op>, s: Snapshot, e: QueueEntry, input: QueueInput, y: Id)
    requires Reaches(b, env, ops, s.(queue := [e])) && e.id != y && input.status.None?
    ensures Reaches(b, env, ops + [AddEntry(input, y, 0)], s.(queue := [e, Enqueued(b, env, s, input, y)]))
  {
    var t, f := s.(queue := [e]), Enqueued(b, env, s, input, y);
    FreshBeside(e, y);
    EnqueuedFramed(b, env, s, t, input, y);
    EnqueueOnce(b, env, ops, t, input, y);
    assert [e] + [f] == [e, f];
    assert t.(queue := t.queue + [f]) == s.(queue := [e, f]);
  }

  lemma EnqueueTwice(b: Backend, env: Env, ops: seq<Op>, s: Snapshot, input: QueueInput, x: Id, y: Id)
    requires Reaches(b, env, ops, s) && s.queue == [] && x != y && input.status.None?
    ensures Reaches(b, env, ops + [AddEntry(input, x, 0)] + [AddEntry(input, y, 0)],
                    s.(queue := [Enqueued(b, env, s, input, x), Enqueued(b, env, s, input, y)]))
  {
    EnqueueOnce(b, env, ops, s, input, x);
    EnqueuedId(b, env, s, input, x);
    assert [] + [Enqueued(b, env, s, input, x)] == [Enqueued(b, env, s, input, x)];
    EnqueueSecond(b, env, ops + [AddEntry(input, x, 0)], s, Enqueued(b, env, s, input, x), input, y);
  }

  function TiedState(b: Backend, env: Env): Snapshot {
    OneLease().(queue := [Enqueued(b, env, OneLease(), AnInput(LEASE_1), LastId(env)),
                          Enqueued(b, env, OneLease(), AnInput(LEASE_1), FirstId(env))])
  }

  /** The entry whose id the database orders last is queued first, at the same instant. */
  function Tied(env: Env): seq<Op> {
    [AddLease(TwoLeases()[0])] + [AddEntry(AnInput(LEASE_1), LastId(env), 0)] + [AddEntry(AnInput(LEASE_1), FirstId(env), 0)]
  }

  lemma OneLeaseRun(b: Backend, env: Env)
    ensures Reaches(b, env, [AddLease(TwoLeases()[0])], OneLease())
  {
    assert MadeLeaseId(LEASE_1) by { Names(); }
    var op := AddLease(TwoLeases()[0]);
    Then(b, env, [], Empty, op);
    assert [] + [op] == [op];
    assert CreateLease(Empty, TwoLeases()[0]) == OneLease();
  }

  lemma TiedRun(b: Backend, env: Env)
    requires env.Valid()
    ensures Reaches(b, env, Tied(env), TiedState(b, env))
  {
    IdsOrdered(env);
    OneLeaseRun(b, env);
    EnqueueTwice(b, env, [AddLease(TwoLeases()[0])], OneLease(), AnInput(LEASE_1), LastId(env), FirstId(env));
  }

  lemma OneLeaseIsCoherent(env: Env)
    ensures Related(OneLease(), OneLease()) && Coherent(env, OneLease())
  {
    Names();
  }

  lemma TwoEntriesRelate(s: Snapshot, x: QueueEntry, y: QueueEntry)
    requires Related(s, s) && x.id != y.id
    ensures Related(s.(queue := [x, y]), s.(queue := [x, y]))
  {
  }

  lemma TiedStatesRelated(env: Env)
    requires env.Valid() && env.NamesPairs()
    ensures TiedState(Postgres, env) == TiedState(InMemory, env)
    ensures Related(TiedState(InMemory, env), TiedState(InMemory, env))
  {
    OneLeaseIsCoherent(env);
    assert LEASE_1 != "" by { Names(); }
    FieldsAgree(env, OneLease(), OneLease(), LEASE_1);
    IdsOrdered(env);
    TwoEntriesRelate(OneLease(), Enqueued(InMemory, env, OneLease(), AnInput(LEASE_1), LastId(env)),
                     Enqueued(InMemory, env, OneLease(), AnInput(LEASE_1), FirstId(env)));
  }

  lemma AgainstIdOrder(env: Env, s: Snapshot, x: QueueEntry, y: QueueEntry)
    requires env.Valid() && Related(s, s) && s.queue == [x, y]
    requires x.priority == y.priority && x.createdAt == y.createdAt && env.database(x.id) > env.database(y.id)
    ensures QueueList(Postgres, env, s) != QueueList(InMemory, env, s)
  {
    QueueListsAgree(env, s, s);
    assert s.queue[0] == x && s.queue[1] == y;
    assert env.QueueOrder()(x, y) && env.QueueOrder()(y, x) && !env.QueueRows()(x, y);
  }

  /** Two entries of one priority and one instant, queued against the order of their ids: the two lists differ. */
  lemma QueueListsComeApart(env: Env)
    requires env.Valid() && env.NamesPairs()
    ensures LegalRun(InMemory, env, Empty, Tied(env)) && LegalRun(Postgres, env, Empty, Tied(env))
    ensures QueueList(Postgres, env, Run(Postgres, env, Empty, Tied(env))) != QueueList(InMemory, env, Run(InMemory, env, Empty, Tied(env)))
  {
    TiedRun(InMemory, env);
    TiedRun(Postgres, env);
    TiedStatesRelated(env);
    IdsOrdered(env);
    AgainstIdOrder(env, TiedState(InMemory, env), Enqueued(InMemory, env, OneLease(), AnInput(LEASE_1), LastId(env)),
                   Enqueued(InMemory, env, OneLease(), AnInput(LEASE_1), FirstId(env)));
  }

  lemma TiedIsCoherent(env: Env)
    ensures Coherent(env, TiedState(InMemory, env))
  {
    OneLeaseIsCoherent(env);
    assert LEASE_1 != "" by { Names(); }
  }

  lemma BothLive(env: Env)
    requires env.Valid()
    ensures Filter(LiveOf(LEASE_1), TiedState(InMemory, env).queue) == TiedState(InMemory, env).queue
  {
    NewEntryIsLive(env, OneLease(), LastId(env));
    NewEntryIsLive(env, OneLease(), FirstId(env));
    FilterAll(LiveOf(LEASE_1), TiedState(InMemory, env).queue);
  }

  lemma NotSortedBackwards(env: Env, queue: seq<QueueEntry>)
    requires |queue| == 2 && queue[0].priority == queue[1].priority && queue[0].createdAt == queue[1].createdAt
    requires env.database(queue[0].id) > env.database(queue[1].id)
    ensures !Sorted(env.QueueRows(), queue)
  {
    assert !env.QueueRows()(queue[0], queue[1]);
  }

  /** Refreshing the lease of those two entries returns them in different orders. */
  lemma RefreshListsComeApart(env: Env, now: Millis)
    requires env.Valid() && env.NamesPairs()
    ensures LegalRun(InMemory, env, Empty, Tied(env)) && LegalRun(Postgres, env, Empty, Tied(env))
    ensures var m, t := Run(InMemory, env, Empty, Tied(env)), Run(Postgres, env, Empty, Tied(env));
            RefreshResults(Postgres, env, t, RefreshIds(Postgres, env, t, LEASE_1), now)
              != RefreshResults(InMemory, env, m, RefreshIds(InMemory, env, m, LEASE_1), now)
  {
    TiedRun(InMemory, env);
    TiedRun(Postgres, env);
    TiedStatesRelated(env);
    TiedIsCoherent(env);
    BothLive(env);
    IdsOrdered(env);
    assert LEASE_1 != "" by { Names(); }
    var s := TiedState(InMemory, env);
    NotSortedBackwards(env, s.queue);
    RefreshListsAgree(env, s, s, LEASE_1, now);
  }

  // ----- the audit log -----

  function LastAudit(env: Env): Id {
    if env.database("audit_1") > env.database("audit_2") then "audit_1" else "audit_2"
  }

  function FirstAudit(env: Env): Id {
    if env.database("audit_1") > env.database("audit_2") then "audit_2" else "audit_1"
  }

  /** A task is created and planned in one instant, and the id of the first entry is ordered last. */
  function Hasty(env: Env): seq<Op> {
    [AddTask(TwoTasks()[0], LastAudit(env), 0)] + [Transition("task_1", Planned, FirstAudit(env), 0)]
  }

  function Creation(env: Env): AuditLog {
    AuditLog(LastAudit(env), TaskCreated(Draft), Some("task_1"), "u", "repo_1", 0)
  }

  function Planning(env: Env): AuditLog {
    AuditLog(FirstAudit(env), TaskStatusChanged(Draft, Planned), Some("task_1"), "u", "repo_1", 0)
  }

  lemma PlanOnly(b: Backend, env: Env, s: Snapshot)
    requires s.tasks == [TwoTasks()[0]] && s.audit == [Creation(env)]
    ensures var t := TransitionTask(b, s, "task_1", Planned, FirstAudit(env), 0).state;
            t.audit == [Creation(env), Planning(env)] && t.tasks == [TwoTasks()[0].(status := Planned, updatedAt := 0)]
  {
    var t := TwoTasks()[0];
    assert s.tasks[0] == t && t in s.tasks;
    LookupIs(TaskKey(), s.tasks, t);
    OnlyTaskReplaced(b, t, t.(status := Planned, updatedAt := 0));
    assert [Creation(env)] + [Planning(env)] == [Creation(env), Planning(env)];
  }

  lemma HastyRun(b: Backend, env: Env)
    ensures var s := Run(b, env, Empty, Hasty(env));
            && LegalRun(b, env, Empty, Hasty(env)) && s.audit == [Creation(env), Planning(env)]
            && s.tasks == [TwoTasks()[0].(status := Planned, updatedAt := 0)]
  {
    var t := TwoTasks()[0];
    var s1 := CreateTask(Empty, t, LastAudit(env), 0);
    var first, second := AddTask(t, LastAudit(env), 0), Transition("task_1", Planned, FirstAudit(env), 0);
    Then(b, env, [], Empty, first);
    assert [] + [first] == [first];
    Then(b, env, [first], s1, second);
    assert s1.tasks == [t] && s1.audit == [Creation(env)];
    PlanOnly(b, env, s1);
  }

  lemma OnlyTaskReplaced(b: Backend, t: Task, u: Task)
    requires t.id == u.id
    ensures Replace(b, TaskKey(), [t], u) == [u]
  {
    assert WithKey(TaskKey(), u.id)(t);
    assert FirstIndex(WithKey(TaskKey(), u.id), [t]) == 0;
    assert Filter(WithoutKey(TaskKey(), u.id), [t]) == [];
  }

  lemma ReadBackwards(env: Env)
    requires env.Valid()
    ensures Sort(env.AuditRows(), [Creation(env), Planning(env)]) == [Planning(env), Creation(env)]
  {
    assert "audit_1" != "audit_2" by { assert "audit_1"[6] != "audit_2"[6]; }
    assert env.database("audit_1") != env.database("audit_2");
    assert !env.AuditRows()(Creation(env), Planning(env));
    assert Sort(env.AuditRows(), [Planning(env)]) == [Planning(env)];
    assert [Creation(env), Planning(env)][1..] == [Planning(env)];
    assert Insert(env.AuditRows(), Creation(env), []) == [Creation(env)];
    assert [Planning(env)][1..] == [];
  }

  lemma BackwardsIsBroken(env: Env)
    ensures AuditReplay.Replay([Planning(env), Creation(env)], "task_1") == AuditReplay.Broken
  {
    var log := [Planning(env), Creation(env)];
    assert log[..1] == [Planning(env)] && [Planning(env)][..0] == [];
    assert AuditReplay.Replay([Planning(env)], "task_1") == AuditReplay.Broken;
  }

  /** After that run the log replays from memory, and from the table it does not: it is listed change first. */
  lemma AuditListComesApart(env: Env)
    requires env.Valid()
    ensures LegalRun(InMemory, env, Empty, Hasty(env)) && LegalRun(Postgres, env, Empty, Hasty(env))
    ensures AuditReplay.Truthful(InMemory, env, Run(InMemory, env, Empty, Hasty(env)))
    ensures AuditReplay.Replay(AuditList(Postgres, env, Run(Postgres, env, Empty, Hasty(env))), "task_1") == AuditReplay.Broken
    ensures !AuditReplay.Truthful(Postgres, env, Run(Postgres, env, Empty, Hasty(env)))
  {
    HastyRun(InMemory, env);
    HastyRun(Postgres, env);
    SafetyTheorems.EmptyIsSafe();
    AuditReplay.LogReplays(InMemory, env, Empty, Hasty(env));
    ReadBackwards(env);
    BackwardsIsBroken(env);
    var s := Run(Postgres, env, Empty, Hasty(env));
    assert s.tasks[0] in s.tasks && s.tasks[0].id == "task_1";
  }

  // ----- task-run risks -----

  function FourLeases(): seq<Lease> {
    [ALease(LEASE_1, "task_1", "run_1", "repo_1"), ALease(LEASE_2, "task_2", "run_2", "repo_1"),
     ALease(LEASE_3, "task_3", "run_1", "repo_2"), ALease(LEASE_4, "task_4", "run_4", "repo_2")]
  }

  /** The repo created last is registered first; one run has a lease in each. */
  function Backwards(): seq<Op> {
    [AddRepo(ARepo("repo_1", 1))] + [AddRepo(ARepo("repo_2", 0))] + [AddLease(FourLeases()[0])] + [AddLease(FourLeases()[1])]
    + [AddLease(FourLeases()[2])] + [AddLease(FourLeases()[3])]
  }

  function BackwardsState(): Snapshot {
    Snapshot([ARepo("repo_1", 1), ARepo("repo_2", 0)], [], FourLeases(), [], [], [])
  }

  lemma BackwardsRun(b: Backend, env: Env)
    ensures Reaches(b, env, Backwards(), BackwardsState())
  {
    Names();
    var r1, r2, l := ARepo("repo_1", 1), ARepo("repo_2", 0), FourLeases();
    var s1 := CreateRepo(Empty, r1);
    var s2 := CreateRepo(s1, r2);
    var s3 := CreateLease(s2, l[0]);
    var s4 := CreateLease(s3, l[1]);
    var s5 := CreateLease(s4, l[2]);
    var o1 := [AddRepo(r1)];
    var o2 := o1 + [AddRepo(r2)];
    var o3 := o2 + [AddLease(l[0])];
    var o4 := o3 + [AddLease(l[1])];
    var o5 := o4 + [AddLease(l[2])];
    Then(b, env, [], Empty, AddRepo(r1));
    assert [] + [AddRepo(r1)] == o1;
    Then(b, env, o1, s1, AddRepo(r2));
    Then(b, env, o2, s2, AddLease(l[0]));
    Then(b, env, o3, s3, AddLease(l[1]));
    Then(b, env, o4, s4, AddLease(l[2]));
    Then(b, env, o5, s5, AddLease(l[3]));
    assert CreateLease(s5, l[3]) == BackwardsState();
  }

  lemma PairIsListed(env: Env, s: Snapshot, repo: Id, a: Lease, b: Lease)
    requires env.Valid() && s.UniqueIds() && a in s.leases && b in s.leases
    requires ActiveIn(repo)(a) && ActiveIn(repo)(b) && Compatible(a, b)
    ensures Score(InMemory, env, s.simulations)(a, b) in RepoRiskList(InMemory, env, s, repo)
  {
    var risk, active := Score(InMemory, env, s.simulations), ActiveLeases(s.leases, repo);
    MemoryIsPairwise(env, s.simulations);
    UniqueLeasesFilter(ActiveIn(repo), s.leases);
    FilterMembers(ActiveIn(repo), s.leases);
    assert PairRisk(risk, active, risk(a, b));
    PairsMembers(risk, active, risk(a, b));
    SortMembers(env.RiskOrder(), Pairs(risk, active));
  }

  lemma HasOwnBy(env: Env, s: Snapshot, run: Id, repo: Repo, a: Lease, b: Lease)
    requires env.Valid() && s.UniqueIds() && a in s.leases && b in s.leases
    requires ActiveIn(repo.id)(a) && ActiveIn(repo.id)(b) && Compatible(a, b) && a.taskRunId == run
    ensures HasOwn(env, s, run)(repo)
  {
    var r, touch := Score(InMemory, env, s.simulations)(a, b), Touches(RunLeaseIds(s.leases, run));
    PairIsListed(env, s, repo.id, a, b);
    MemoryIsPairwise(env, s.simulations);
    assert ScoresPair(r, a, b) && a.id in RunLeaseIds(s.leases, run);
    FilterMembers(touch, RepoRiskList(InMemory, env, s, repo.id));
    assert OwnRisks(env, s, run)(repo) == Filter(touch, RepoRiskList(InMemory, env, s, repo.id));
    assert r in OwnRisks(env, s, run)(repo);
  }

  lemma BackwardsIsCoherent(env: Env)
    ensures Related(BackwardsState(), BackwardsState()) && Coherent(env, BackwardsState())
  {
    Names();
  }

  /** The run's risks come repo by repo, in registration order from memory and in creation order from Postgres. */
  lemma RunRisksComeApart(env: Env)
    requires env.Valid() && env.NamesPairs()
    ensures LegalRun(InMemory, env, Empty, Backwards()) && LegalRun(Postgres, env, Empty, Backwards())
    ensures RunRiskList(Postgres, env, Run(Postgres, env, Empty, Backwards()), "run_1")
         != RunRiskList(InMemory, env, Run(InMemory, env, Empty, Backwards()), "run_1")
  {
    Names();
    BackwardsRun(InMemory, env);
    BackwardsRun(Postgres, env);
    BackwardsIsCoherent(env);
    var s, l := BackwardsState(), FourLeases();
    assert l[0] in s.leases && l[1] in s.leases && l[2] in s.leases && l[3] in s.leases;
    HasOwnBy(env, s, "run_1", s.repos[0], l[0], l[1]);
    HasOwnBy(env, s, "run_1", s.repos[1], l[2], l[3]);
    FilterAll(HasOwn(env, s, "run_1"), s.repos);
    assert !env.RepoRows()(s.repos[0], s.repos[1]);
    RunRisksAgree(env, s, s, "run_1");
  }
}
