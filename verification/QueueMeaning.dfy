/** What the derived fields of a queue entry say about its lease, and when an entry is blocked
    (packages/db/src/repository.ts:344-364, packages/core/src/conflicts/scoring.ts:236-291). */
module QueueMeaning {
  import opened Sequences
  import opened Domain
  import opened Keyed
  import opened ConflictScoring
  import opened LatestSimulation
  import opened Queue
  import opened Stores
  import opened RiskMeaning

  /** top is the highest score in the list, or zero for an empty list. */
  ghost predicate IsHighest(risks: seq<ConflictRisk>, top: real) {
    && (forall r :: r in risks ==> r.riskScore <= top)
    && (if risks == [] then top == 0.0 else exists r :: r in risks && r.riskScore == top)
  }

  lemma FirstIsHighest(env: Env, risks: seq<ConflictRisk>)
    ensures IsHighest(Sort(env.RiskOrder(), risks),
                      if risks == [] then 0.0 else Sort(env.RiskOrder(), risks)[0].riskScore)
  {
    if risks != [] {
      RiskOrderTotal(env);
      SortHead(env.RiskOrder(), risks);
      SortMembers(env.RiskOrder(), risks);
      assert Sort(env.RiskOrder(), risks)[0] in Sort(env.RiskOrder(), risks);
    }
  }

  lemma ListIsHighest(b: Backend, env: Env, s: Snapshot, lease: Id)
    ensures IsHighest(LeaseRiskList(b, env, s, lease), Fields(b, env, s, lease).conflictRiskScore)
  {
    var found := Lookup(ConflictRisks.LeaseKey(), lease, s.leases);
    if found.Some? && found.value.status == Active {
      FirstIsHighest(env, Map(ConflictRisks.ScoreAgainst(Score(b, env, s.simulations), found.value),
                              Filter(ConflictRisks.Partner(found.value), ActiveOf(b, env, s.leases, found.value.repoId))));
    }
  }

  function Newest(b: Backend, env: Env, s: Snapshot, lease: Id): Option<Simulation> {
    SimulationOfLease(b, env, s.simulations, lease)
  }

  /** The newest of the simulations looked through for the lease, as the fields show it. */
  ghost predicate ShowsNewest(b: Backend, simulations: seq<Simulation>, lease: Id, f: QueueFields) {
    match f.lastSimulationAt
    case None => f.simulationStatus.None? && forall x :: x in simulations ==> !OfLeaseIn(b, lease)(x)
    case Some(at) =>
      && (forall x :: x in simulations && OfLeaseIn(b, lease)(x) ==> x.createdAt <= at)
      && (exists x :: x in simulations && OfLeaseIn(b, lease)(x) && x.createdAt == at && f.simulationStatus == Some(x.status))
  }

  lemma FieldsShowNewest(b: Backend, env: Env, s: Snapshot, lease: Id)
    ensures ShowsNewest(b, s.simulations, lease, Fields(b, env, s, lease))
  {
    var p := OfLeaseIn(b, lease);
    NewestFirstTotal(env);
    if b == Postgres && lease == "" {
      FilterAll(p, s.simulations);
    } else {
      FilterCongruent(p, OfLease(lease), s.simulations);
    }
    match b
    case InMemory => LatestIsLatest(env.NewestFirst(), p, s.simulations);
    case Postgres => LatestIsLatest(env.NewestRowFirst(), p, s.simulations);
  }

  /** In either store: conflictRiskScore is the highest risk of the lease, riskScore the higher of that and the contribution of
      its newest simulation, the simulation fields are that simulation's, and no reason is repeated. */
  lemma FieldsMean(b: Backend, env: Env, s: Snapshot, lease: Id)
    ensures var f := Fields(b, env, s, lease);
            var newest := Newest(b, env, s, lease);
            && IsHighest(LeaseRiskList(b, env, s, lease), f.conflictRiskScore)
            && f.conflictRiskScore <= f.riskScore
            && (newest.Some? ==> newest.value.riskContribution <= f.riskScore)
            && (f.riskScore == f.conflictRiskScore || f.riskScore == (if newest.Some? then newest.value.riskContribution else 0.0))
            && (newest.None? ==> 0.0 <= f.riskScore && f.simulationStatus.None? && f.lastSimulationAt.None?)
            && (newest.Some? ==> f.simulationStatus == Some(newest.value.status) && f.lastSimulationAt == Some(newest.value.createdAt))
            && ShowsNewest(b, s.simulations, lease, f)
            && NoDup(f.reasons)
  {
    var risk, newest := HighestRisk(b, env, s, lease), Newest(b, env, s, lease);
    ListIsHighest(b, env, s, lease);
    FieldsShowNewest(b, env, s, lease);
    var f := Fields(b, env, s, lease);
    UniqueOrderedIsSet(env.decide(f.riskScore, newest).reasons + (if risk.Some? then risk.value.reasons else []));
  }

  // ----- the source's own decision -----

  ghost predicate NewestIs(b: Backend, env: Env, s: Snapshot, lease: Id, status: SimulationStatus) {
    Newest(b, env, s, lease).Some? && Newest(b, env, s, lease).value.status == status
  }

  /** Some conflict risk of the lease scores x or more, or its newest simulation contributes that much. */
  ghost predicate Reaches(b: Backend, env: Env, s: Snapshot, lease: Id, x: real) {
    || (Newest(b, env, s, lease).Some? && Newest(b, env, s, lease).value.riskContribution >= x)
    || exists r :: r in LeaseRiskList(b, env, s, lease) && r.riskScore >= x
  }

  lemma ReachesExactly(b: Backend, env: Env, s: Snapshot, lease: Id, x: real)
    requires x > 0.0
    ensures Fields(b, env, s, lease).riskScore >= x <==> Reaches(b, env, s, lease, x)
  {
    ListIsHighest(b, env, s, lease);
    HighestReaches(LeaseRiskList(b, env, s, lease), Fields(b, env, s, lease).conflictRiskScore, x);
  }

  lemma HighestReaches(risks: seq<ConflictRisk>, top: real, x: real)
    requires IsHighest(risks, top) && x > 0.0
    ensures top >= x <==> exists r :: r in risks && r.riskScore >= x
  {
  }

  /** With the source's own decision, an entry is blocked exactly when the lease's newest simulation is a text conflict or
      something reaches one half; it is ready otherwise. */
  lemma BlockedByExactly(b: Backend, overlap: OverlapScore, locale: Id -> real, database: Id -> real, s: Snapshot, lease: Id)
    ensures var env := ConcreteEnv(overlap, locale, database);
            var f := Fields(b, env, s, lease);
            var blocked := NewestIs(b, env, s, lease, TextConflict) || Reaches(b, env, s, lease, 0.5);
            && (f.status == Blocked <==> blocked)
            && (f.status == Ready <==> !blocked)
            && (f.status == Blocked <==> f.blockingReasons != [])
  {
    var env := ConcreteEnv(overlap, locale, database);
    var f := Fields(b, env, s, lease);
    BlockedExactly(f.riskScore, Newest(b, env, s, lease));
    ReachesExactly(b, env, s, lease, 0.5);
  }

  /** Which recommendation an entry gets: the newest simulation decides unless it is clean or there is none; then what is
      reached decides. */
  lemma RecommendedExactly(b: Backend, overlap: OverlapScore, locale: Id -> real, database: Id -> real, s: Snapshot, lease: Id)
    ensures var env := ConcreteEnv(overlap, locale, database);
            var f, newest := Fields(b, env, s, lease), Newest(b, env, s, lease);
            var half, most := Reaches(b, env, s, lease, 0.5), Reaches(b, env, s, lease, 0.85);
            var clean := NewestIs(b, env, s, lease, Clean);
            && (f.recommendation == ConflictDetected <==> NewestIs(b, env, s, lease, TextConflict))
            && (f.recommendation == SimulationUnavailable <==> NewestIs(b, env, s, lease, Unavailable))
            && (f.recommendation == ManualReviewRequired <==> NewestIs(b, env, s, lease, Failed) || ((newest.None? || clean) && most))
            && (f.recommendation == RequiresRebase <==> (newest.None? || clean) && half && !most)
            && (f.recommendation == SafeToQueue <==> clean && !half)
            && (f.recommendation == ReadyForReview <==> newest.None? && !half)
  {
    var env := ConcreteEnv(overlap, locale, database);
    ReachesExactly(b, env, s, lease, 0.5);
    ReachesExactly(b, env, s, lease, 0.85);
    DecidedRecommendation(Fields(b, env, s, lease).riskScore, Newest(b, env, s, lease));
    assert Fields(b, env, s, lease).recommendation
        == MergeQueueDecision(Fields(b, env, s, lease).riskScore, Newest(b, env, s, lease)).recommendation;
  }

  lemma DecidedRecommendation(score: real, newest: Option<Simulation>)
    ensures var r := MergeQueueDecision(score, newest).recommendation;
            var calm := newest.None? || newest.value.status == Clean;
            && (r == ConflictDetected <==> newest.Some? && newest.value.status == TextConflict)
            && (r == SimulationUnavailable <==> newest.Some? && newest.value.status == Unavailable)
            && (r == ManualReviewRequired <==> (newest.Some? && newest.value.status == Failed) || (calm && score >= 0.85))
            && (r == RequiresRebase <==> calm && 0.5 <= score < 0.85)
            && (r == SafeToQueue <==> newest.Some? && newest.value.status == Clean && score < 0.5)
            && (r == ReadyForReview <==> newest.None? && score < 0.5)
  {
  }

  /** The reason the decision gives, by the newest simulation and what is reached. */
  ghost predicate IsReason(b: Backend, env: Env, s: Snapshot, lease: Id, reason: string) {
    if NewestIs(b, env, s, lease, TextConflict) then reason == "dry_run_text_conflict"
    else if NewestIs(b, env, s, lease, Unavailable) then reason == "dry_run_unavailable"
    else if NewestIs(b, env, s, lease, Failed) then reason == "dry_run_failed"
    else if Reaches(b, env, s, lease, 0.85) then reason == "human_review_required_for_critical_overlap"
    else if Reaches(b, env, s, lease, 0.5) then reason == "serialize_with_overlapping_branch"
    else reason == if Fields(b, env, s, lease).riskScore == 0.0 then "no_active_overlap" else "low_conflict_risk"
  }

  lemma {:induction false} UniqueOrderedKeepsFirst(values: seq<string>)
    requires values != []
    ensures UniqueOrdered(values) != [] && UniqueOrdered(values)[0] == values[0]
  {
    var last := |values| - 1;
    if last > 0 {
      UniqueOrderedKeepsFirst(values[..last]);
    } else {
      assert UniqueOrdered(values[..last]) == [];
    }
  }

  /** The reasons of an entry: first the decision's, then those of the lease's first risk, each once. */
  lemma ReasonsAre(b: Backend, overlap: OverlapScore, locale: Id -> real, database: Id -> real, s: Snapshot, lease: Id, reason: string)
    ensures var env := ConcreteEnv(overlap, locale, database);
            var f, risks := Fields(b, env, s, lease), LeaseRiskList(b, env, s, lease);
            && f.reasons != [] && IsReason(b, env, s, lease, f.reasons[0])
            && (reason in f.reasons <==> reason == f.reasons[0] || (risks != [] && reason in risks[0].reasons))
            && f.reasons == UniqueOrdered([f.reasons[0]] + if risks == [] then [] else risks[0].reasons)
  {
    var env := ConcreteEnv(overlap, locale, database);
    var f, risks := Fields(b, env, s, lease), LeaseRiskList(b, env, s, lease);
    var decided := env.decide(f.riskScore, Newest(b, env, s, lease)).reasons;
    DecisionReason(b, overlap, locale, database, s, lease);
    DecidedThenOwn(decided, if risks == [] then [] else risks[0].reasons, reason);
  }

  lemma DecisionReason(b: Backend, overlap: OverlapScore, locale: Id -> real, database: Id -> real, s: Snapshot, lease: Id)
    ensures var env := ConcreteEnv(overlap, locale, database);
            var decided := env.decide(Fields(b, env, s, lease).riskScore, Newest(b, env, s, lease)).reasons;
            |decided| == 1 && IsReason(b, env, s, lease, decided[0])
  {
    var env := ConcreteEnv(overlap, locale, database);
    ReachesExactly(b, env, s, lease, 0.5);
    ReachesExactly(b, env, s, lease, 0.85);
  }

  lemma DecidedThenOwn(decided: seq<string>, own: seq<string>, reason: string)
    requires |decided| == 1
    ensures var reasons := UniqueOrdered(decided + own);
            && reasons != [] && reasons[0] == decided[0]
            && (reason in reasons <==> reason == decided[0] || reason in own)
            && reasons == UniqueOrdered([decided[0]] + own)
  {
    assert decided == [decided[0]];
    UniqueOrderedKeepsFirst(decided + own);
    UniqueOrderedIsSet(decided + own);
  }

  /** The blocking reasons of an entry: none unless it is blocked, else the one of its case. */
  lemma BlockingReasonsAre(b: Backend, overlap: OverlapScore, locale: Id -> real, database: Id -> real, s: Snapshot, lease: Id)
    ensures var env := ConcreteEnv(overlap, locale, database);
            var blocking, half := Fields(b, env, s, lease).blockingReasons, Reaches(b, env, s, lease, 0.5);
            if NewestIs(b, env, s, lease, TextConflict) then blocking == ["conflict_detected"]
            else if !half then blocking == []
            else if NewestIs(b, env, s, lease, Unavailable) then blocking == ["simulation_unavailable"]
            else if NewestIs(b, env, s, lease, Failed) then blocking == ["simulation_failed"]
            else |blocking| == 1 && IsReason(b, env, s, lease, blocking[0])
  {
    var env := ConcreteEnv(overlap, locale, database);
    ReachesExactly(b, env, s, lease, 0.5);
    ReachesExactly(b, env, s, lease, 0.85);
  }

  // ----- a new entry -----

  /** Nothing given by the caller but a score no higher than the derived one. */
  predicate GivesNothing(input: QueueInput, derived: QueueFields) {
    && input.riskScore <= derived.riskScore
    && input.conflictRiskScore.None? && input.status.None? && input.reasons.None? && input.blockingReasons.None?
    && input.recommendation.None? && input.simulationStatus.None? && input.lastSimulationAt.None?
  }

  /** A new entry scores at least what the caller gives and what is derived; its reasons are those of both, the caller's first
      and each once; and when the caller gives nothing, it already carries what a refresh would write. */
  lemma NewEntryMeans(b: Backend, env: Env, s: Snapshot, input: QueueInput, id: Id, now: Millis, later: Millis)
    ensures var derived := Fields(b, env, s, input.branchLeaseId);
            var e := NewEntry(input, derived, id, now);
            && input.riskScore <= e.fields.riskScore && derived.riskScore <= e.fields.riskScore
            && (e.fields.riskScore == input.riskScore || e.fields.riskScore == derived.riskScore)
            && NoDup(e.fields.reasons)
            && (forall r :: r in e.fields.reasons <==> r in input.reasons.GetOr([]) || r in derived.reasons)
            && e.fields.reasons == UniqueOrdered((if input.reasons.Some? then input.reasons.value else []) + derived.reasons)
            && (GivesNothing(input, derived) ==> e.fields == derived)
  {
    var derived := Fields(b, env, s, input.branchLeaseId);
    FieldsMean(b, env, s, input.branchLeaseId);
    UniqueOrderedIsSet(input.reasons.GetOr([]) + derived.reasons);
    assert input.reasons.None? ==> [] + derived.reasons == derived.reasons;
  }

  /** What enqueueing adds, and nothing else: one entry at the end, with the ids and the pull request of the input, each
      derived field the caller gives as given and the others as derived, made now, neither merged nor cancelled. */
  lemma EnqueuedIs(b: Backend, env: Env, s: Snapshot, input: QueueInput, id: Id, now: Millis)
    ensures var t, derived := Enqueue(b, env, s, input, id, now), Fields(b, env, s, input.branchLeaseId);
            && t == s.(queue := t.queue) && |t.queue| == |s.queue| + 1 && t.queue[..|s.queue|] == s.queue
            && var e := t.queue[|s.queue|];
               && e.id == id && e.repoId == input.repoId && e.taskId == input.taskId && e.taskRunId == input.taskRunId
               && e.branchLeaseId == input.branchLeaseId && e.pullRequestId == input.pullRequestId
               && e.pullRequestUrl == input.pullRequestUrl && e.branchName == input.branchName && e.priority == input.priority
               && e.createdAt == now && e.updatedAt == now && e.mergedAt.None? && e.cancelledAt.None?
               && GivenOrDerived(input.conflictRiskScore, derived.conflictRiskScore, e.fields.conflictRiskScore)
               && GivenOrDerived(input.status, derived.status, e.fields.status)
               && GivenOrDerived(input.blockingReasons, derived.blockingReasons, e.fields.blockingReasons)
               && GivenOrDerived(input.recommendation, derived.recommendation, e.fields.recommendation)
               && (input.simulationStatus.Some? ==> e.fields.simulationStatus == input.simulationStatus)
               && (input.simulationStatus.None? ==> e.fields.simulationStatus == derived.simulationStatus)
               && (input.lastSimulationAt.Some? ==> e.fields.lastSimulationAt == input.lastSimulationAt)
               && (input.lastSimulationAt.None? ==> e.fields.lastSimulationAt == derived.lastSimulationAt)
  {
  }

  /** The field is what the caller gives, or else what is derived. */
  predicate GivenOrDerived<T(==)>(given: Option<T>, derived: T, field: T) {
    match given
    case Some(x) => field == x
    case None => field == derived
  }
}
