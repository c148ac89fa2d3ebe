/** createConflictRisk and mergeQueueDecision (packages/core/src/conflicts/scoring.ts), given how the files of two
    leases overlap, and the proof that they are what the stores assume. */
module ConflictScoring {
  import opened Sequences
  import opened Domain

  /** computePairRiskScore of two file lists. */
  datatype Overlap = Overlap(files: seq<string>, score: real, reasons: seq<string>)
  type OverlapScore = (seq<string>, seq<string>) -> Overlap

  /** The string order of `<=`: by the first differing character, a prefix first. */
  predicate StringLe(a: string, b: string) {
    if a == "" then true
    else if b == "" then false
    else if a[0] != b[0] then a[0] < b[0]
    else StringLe(a[1..], b[1..])
  }

  lemma {:induction false} StringLeTotal(a: string, b: string)
    ensures StringLe(a, b) || StringLe(b, a)
    ensures StringLe(a, b) && StringLe(b, a) ==> a == b
  {
    if a != "" && b != "" && a[0] == b[0] {
      StringLeTotal(a[1..], b[1..]);
      assert a == [a[0]] + a[1..] && b == [b[0]] + b[1..];
    }
  }

  /** What that order is: a prefix comes first, else the smaller character where the two first differ. */
  lemma {:induction false} StringLeIs(a: string, b: string)
    ensures StringLe(a, b)
       <==> (|a| <= |b| && a == b[..|a|])
            || exists k :: 0 <= k < |a| && k < |b| && a[..k] == b[..k] && a[k] < b[k]
  {
    if a != "" && b != "" && a[0] == b[0] {
      StringLeIs(a[1..], b[1..]);
      DifferBehind(a, b);
    } else if a != "" && b != "" {
      assert a[..0] == b[..0];
      assert forall k :: 0 < k < |a| && k < |b| ==> a[..k][0] != b[..k][0];
    }
  }

  lemma DifferBehind(a: string, b: string)
    requires a != "" && b != "" && a[0] == b[0]
    ensures (|a| <= |b| && a == b[..|a|]) <==> (|a[1..]| <= |b[1..]| && a[1..] == b[1..][..|a[1..]|])
    ensures (exists k :: 0 <= k < |a| && k < |b| && a[..k] == b[..k] && a[k] < b[k])
       <==> exists k :: 0 <= k < |a[1..]| && k < |b[1..]| && a[1..][..k] == b[1..][..k] && a[1..][k] < b[1..][k]
  {
    var c, d := a[1..], b[1..];
    assert a == [a[0]] + c && b == [b[0]] + d;
    if |a| <= |b| {
      assert b[..|a|] == [b[0]] + d[..|c|];
    }
    if k :| 0 <= k < |a| && k < |b| && a[..k] == b[..k] && a[k] < b[k] {
      assert c[..k - 1] == a[..k][1..] && d[..k - 1] == b[..k][1..];
      assert c[k - 1] < d[k - 1];
    }
    if k :| 0 <= k < |c| && k < |d| && c[..k] == d[..k] && c[k] < d[k] {
      assert a[..k + 1] == [a[0]] + c[..k] && b[..k + 1] == [b[0]] + d[..k];
      assert a[k + 1] < b[k + 1];
    }
  }

  function LevelOf(score: real): RiskLevel {
    if score == 0.0 then NoRisk
    else if score < 0.35 then Low
    else if score < 0.65 then Medium
    else if score < 0.85 then High
    else Critical
  }

  function RecommendationOf(score: real): RiskRecommendation {
    if score == 0.0 then Safe
    else if score < 0.35 then Monitor
    else if score < 0.65 then Serialize
    else if score < 0.85 then Block
    else HumanReview
  }

  function RecommendationForRisk(score: real, reasons: seq<string>): RiskRecommendation {
    if score == 0.0 || reasons == ["docs_file_overlap"] then Safe
    else if score <= 0.1 && "dry_run_merge_clean" in reasons then Safe
    else if "same_top_level_directory_activity" in reasons || reasons == ["test_file_overlap"] then Monitor
    else RecommendationOf(score)
  }

  function SimulationReason(status: SimulationStatus): string {
    match status
    case Clean => "dry_run_merge_clean"
    case TextConflict => "dry_run_text_conflict"
    case Failed => "dry_run_failed"
    case Unavailable => "dry_run_unavailable"
  }

  function NotNoOverlap(): string -> bool {
    (r: string) => r != "no_overlap"
  }

  function WithSimulation(o: Overlap, simulation: Option<Simulation>): Overlap {
    match simulation
    case None => o
    case Some(s) =>
      Overlap(o.files, Max(o.score, s.riskContribution), Filter(NotNoOverlap(), o.reasons) + [SimulationReason(s.status)])
  }

  function RiskId(left: Id, right: Id): Id {
    "risk_" + left + "_" + right
  }

  function CreateConflictRisk(overlap: OverlapScore, source: Lease, target: Lease, simulation: Option<Simulation>): ConflictRisk {
    var left := if StringLe(source.id, target.id) then source else target;
    var right := if StringLe(source.id, target.id) then target else source;
    var scored := overlap(left.files, right.files);
    var combined := WithSimulation(scored, simulation);
    ConflictRisk(
      RiskId(left.id, right.id), left.repoId, left.id, right.id, left.taskRunId, right.taskRunId,
      scored.files, combined.score, LevelOf(combined.score), combined.reasons,
      RecommendationForRisk(combined.score, combined.reasons),
      if simulation.Some? then Some(simulation.value.status) else None,
      if simulation.Some? then Some(simulation.value.riskContribution) else None,
      if simulation.Some? then Some(simulation.value.summary) else None)
  }

  function MergeQueueDecision(riskScore: real, simulation: Option<Simulation>): QueueDecision {
    if simulation.Some? && simulation.value.status == TextConflict then
      QueueDecision(Blocked, ["dry_run_text_conflict"], ["conflict_detected"], ConflictDetected)
    else if simulation.Some? && simulation.value.status == Unavailable then
      QueueDecision(if riskScore >= 0.5 then Blocked else Ready, ["dry_run_unavailable"],
                    if riskScore >= 0.5 then ["simulation_unavailable"] else [], SimulationUnavailable)
    else if simulation.Some? && simulation.value.status == Failed then
      QueueDecision(if riskScore >= 0.5 then Blocked else Ready, ["dry_run_failed"],
                    if riskScore >= 0.5 then ["simulation_failed"] else [], ManualReviewRequired)
    else if riskScore < 0.5 then
      QueueDecision(Ready, if riskScore == 0.0 then ["no_active_overlap"] else ["low_conflict_risk"], [],
                    if simulation.Some? && simulation.value.status == Clean then SafeToQueue else ReadyForReview)
    else if riskScore < 0.85 then
      QueueDecision(Blocked, ["serialize_with_overlapping_branch"], ["serialize_with_overlapping_branch"], RequiresRebase)
    else
      QueueDecision(Blocked, ["human_review_required_for_critical_overlap"],
                    ["human_review_required_for_critical_overlap"], ManualReviewRequired)
  }

  /** A queue entry is blocked exactly on a text conflict or a score of at least one half, and it is blocked
      exactly when it has blocking reasons. */
  lemma BlockedExactly(riskScore: real, simulation: Option<Simulation>)
    ensures var d := MergeQueueDecision(riskScore, simulation);
            && (d.status == Blocked <==>
                  (simulation.Some? && simulation.value.status == TextConflict) || riskScore >= 0.5)
            && (d.status == Blocked <==> d.blockingReasons != [])
            && (d.status == Ready || d.status == Blocked)
  {
  }

  lemma RiskIdNames(a: Id, b: Id, c: Id, d: Id)
    requires |a| == |c| && |b| == |d| && RiskId(a, b) == RiskId(c, d)
    ensures a == c && b == d
  {
    var x, y := RiskId(a, b), RiskId(c, d);
    assert x[5..5 + |a|] == a && y[5..5 + |c|] == c;
    assert x[6 + |a|..] == b && y[6 + |c|..] == d;
  }

  function ConcreteEnv(overlap: OverlapScore, locale: Id -> real, database: Id -> real): Env {
    Env((a: Lease, b: Lease, s: Option<Simulation>) => CreateConflictRisk(overlap, a, b, s),
        (x: real, s: Option<Simulation>) => MergeQueueDecision(x, s),
        locale, database)
  }

  // ----- what a risk and a decision say -----

  /** The risk of two leases: named by the smaller id first, carrying the score of their overlap or the contribution of the
      simulation, whichever is higher, with the simulation's own fields, and a level by thresholds. */
  lemma RiskMeans(overlap: OverlapScore, a: Lease, b: Lease, simulation: Option<Simulation>)
    ensures var r := CreateConflictRisk(overlap, a, b, simulation);
            var left, right := if StringLe(a.id, b.id) then a else b, if StringLe(a.id, b.id) then b else a;
            var o := overlap(left.files, right.files);
            && r.id == "risk_" + left.id + "_" + right.id && r.repoId == left.repoId
            && r.sourceLeaseId == left.id && r.targetLeaseId == right.id
            && r.sourceTaskRunId == left.taskRunId && r.targetTaskRunId == right.taskRunId
            && r.overlapFiles == o.files
            && o.score <= r.riskScore && (simulation.Some? ==> simulation.value.riskContribution <= r.riskScore)
            && (r.riskScore == o.score || (simulation.Some? && r.riskScore == simulation.value.riskContribution))
            && (simulation.None? <==> r.simulationStatus.None?) && (simulation.None? <==> r.simulationRiskContribution.None?)
            && (simulation.None? <==> r.simulationSummary.None?)
            && (simulation.Some? ==> && r.simulationStatus.value == simulation.value.status
                                     && r.simulationRiskContribution.value == simulation.value.riskContribution
                                     && r.simulationSummary.value == simulation.value.summary)
            && (r.riskLevel == NoRisk <==> r.riskScore == 0.0)
            && (r.riskLevel == Low <==> r.riskScore != 0.0 && r.riskScore < 0.35)
            && (r.riskLevel == Medium <==> 0.35 <= r.riskScore < 0.65)
            && (r.riskLevel == High <==> 0.65 <= r.riskScore < 0.85)
            && (r.riskLevel == Critical <==> 0.85 <= r.riskScore)
  {
  }

  /** What a simulation adds to the reasons of the overlap: its own, in the last place, in place of "no_overlap". */
  lemma ReasonsMean(overlap: OverlapScore, a: Lease, b: Lease, simulation: Option<Simulation>, reason: string)
    ensures var reasons := CreateConflictRisk(overlap, a, b, simulation).reasons;
            var own := (if StringLe(a.id, b.id) then overlap(a.files, b.files) else overlap(b.files, a.files)).reasons;
            match simulation
            case None => reasons == own
            case Some(x) =>
              && reasons != []
              && reasons[|reasons| - 1] == (if x.status == Clean then "dry_run_merge_clean"
                                            else if x.status == TextConflict then "dry_run_text_conflict"
                                            else if x.status == Failed then "dry_run_failed" else "dry_run_unavailable")
              && (reason in reasons[..|reasons| - 1] <==> reason in own && reason != "no_overlap")
  {
    var own := (if StringLe(a.id, b.id) then overlap(a.files, b.files) else overlap(b.files, a.files)).reasons;
    FilterMembers(NotNoOverlap(), own);
    if simulation.Some? {
      var kept, last := Filter(NotNoOverlap(), own), SimulationReason(simulation.value.status);
      assert (kept + [last])[..|kept|] == kept;
    }
  }

  /** The recommendation of a risk: safe for no score, documentation alone, or a clean dry run of at most a tenth; else watched
      for activity beside it, tests alone or a low score; else by the score. */
  lemma RiskRecommendationMeans(overlap: OverlapScore, a: Lease, b: Lease, simulation: Option<Simulation>)
    ensures var r := CreateConflictRisk(overlap, a, b, simulation);
            var harmless := r.riskScore == 0.0 || r.reasons == ["docs_file_overlap"]
                            || (r.riskScore <= 0.1 && "dry_run_merge_clean" in r.reasons);
            var watched := "same_top_level_directory_activity" in r.reasons || r.reasons == ["test_file_overlap"];
            && (r.recommendation == Safe <==> harmless)
            && (r.recommendation == Monitor <==> !harmless && (watched || r.riskScore < 0.35))
            && (r.recommendation == Serialize <==> !harmless && !watched && 0.35 <= r.riskScore < 0.65)
            && (r.recommendation == Block <==> !harmless && !watched && 0.65 <= r.riskScore < 0.85)
            && (r.recommendation == HumanReview <==> !harmless && !watched && 0.85 <= r.riskScore)
  {
  }

  // ----- a collation exists -----

  const BASE := 0x110001

  /** A string read as a number in a base above every character: no two strings give the same one. */
  function Code(s: string): nat {
    if s == "" then 0 else Code(s[1..]) * BASE + s[0] as nat + 1
  }

  lemma DigitsDiffer(q: nat, r: nat, d: nat, e: nat)
    requires q * BASE + d + 1 == r * BASE + e + 1 && d < BASE - 1 && e < BASE - 1
    ensures q == r && d == e
  {
    assert (q - r) * BASE == e - d;
  }

  lemma {:induction false} CodeInjective(s: string, t: string)
    requires Code(s) == Code(t)
    ensures s == t
  {
    if s != "" && t != "" {
      DigitsDiffer(Code(s[1..]), Code(t[1..]), s[0] as nat, t[0] as nat);
      CodeInjective(s[1..], t[1..]);
      assert s == [s[0]] + s[1..] && t == [t[0]] + t[1..];
    }
  }

  function Rank(): Id -> real {
    (id: Id) => Code(id) as real
  }

  /** So what the store theorems assume can be met, with the source's own scoring and two collations that agree. */
  lemma EnvironmentsExist(overlap: OverlapScore)
    ensures var env := ConcreteEnv(overlap, Rank(), Rank()); env.Valid() && env.NamesPairs() && env.CollationsAgree()
  {
    forall x: Id, y: Id | Rank()(x) == Rank()(y)
      ensures x == y
    {
      CodeInjective(x, y);
    }
    ScoringMeetsContract(overlap, Rank(), Rank());
  }

  /** The scoring functions of the source meet what the stores assume of them: the score does not depend on
      which lease comes first, it names both, different pairs of made ids get different risk ids, and a
      decision never finishes an entry. */
  lemma ScoringMeetsContract(overlap: OverlapScore, locale: Id -> real, database: Id -> real)
    requires forall x: Id, y: Id :: locale(x) == locale(y) ==> x == y
    requires forall x: Id, y: Id :: database(x) == database(y) ==> x == y
    ensures ConcreteEnv(overlap, locale, database).Valid()
    ensures ConcreteEnv(overlap, locale, database).NamesPairs()
  {
    var env := ConcreteEnv(overlap, locale, database);
    forall a: Lease, b: Lease, s: Option<Simulation> | a.id != b.id
      ensures env.score(a, b, s) == env.score(b, a, s)
    {
      StringLeTotal(a.id, b.id);
    }
    forall a: Lease, b: Lease, c: Lease, d: Lease, s: Option<Simulation>, t: Option<Simulation>
      | MadeLeaseId(a.id) && MadeLeaseId(b.id) && MadeLeaseId(c.id) && MadeLeaseId(d.id)
        && env.score(a, b, s).id == env.score(c, d, t).id
      ensures {a.id, b.id} == {c.id, d.id}
    {
      var r, q := env.score(a, b, s), env.score(c, d, t);
      RiskIdNames(r.sourceLeaseId, r.targetLeaseId, q.sourceLeaseId, q.targetLeaseId);
    }
    forall x: real, s: Option<Simulation>
      ensures env.decide(x, s).status == Ready || env.decide(x, s).status == Blocked
    {
      BlockedExactly(x, s);
    }
  }
}
