/** The risk policy engine: escalation rules, clamped weighted score, bands, downgrade. */
module RiskPolicy {
  import opened Domain

  datatype PolicyInput = PolicyInput(
    kev: bool,
    epssScore: real,
    epssPercentile: Option<real>,
    cvssScore: Option<real>,
    assetCriticality: string,
    internetExposure: string,
    matchConfidence: real,
    matchClass: MatchClass)

  function CriticalityWeight(criticality: string): real {
    if criticality == "critical" then 20.0
    else if criticality == "high" then 15.0
    else if criticality == "medium" then 10.0
    else 5.0
  }

  function ExposureWeight(exposure: string): real {
    if exposure == "external" then 10.0
    else if exposure == "unknown" then 5.0
    else 2.0
  }

  function Clamp(total: real): real {
    if total < 0.0 then 0.0 else if total > 100.0 then 100.0 else total
  }

  function Score(i: PolicyInput): real {
    Clamp(i.cvssScore.GetOr(0.0) * 5.0
          + (i.epssScore * 20.0 + i.epssPercentile.GetOr(0.0) * 5.0)
          + (CriticalityWeight(i.assetCriticality) + ExposureWeight(i.internetExposure))
          + (i.matchConfidence - 0.5) * 10.0)
  }

  predicate KevOnCriticalInternetAsset(i: PolicyInput) {
    && i.kev && i.assetCriticality == "critical" && i.internetExposure == "external"
    && CaseClass(i.matchClass) && i.matchConfidence >= 0.7
  }

  predicate KevConfirmedLikelyExploited(i: PolicyInput) {
    i.kev && i.matchClass == Confirmed && i.epssScore > 0.5
  }

  function CandidateBand(score: real): Priority {
    if score >= 70.0 then P2 else if score >= 40.0 then P3 else P4
  }

  function Band(score: real): Priority {
    if score >= 90.0 then P0
    else if score >= 70.0 then P1
    else if score >= 40.0 then P2
    else if score >= 20.0 then P3
    else P4
  }

  /** The priority the policy assigns, as a function of the input alone. */
  function Decide(i: PolicyInput): Priority {
    if KevOnCriticalInternetAsset(i) || KevConfirmedLikelyExploited(i) then P0
    else if i.matchClass == Candidate then CandidateBand(Score(i))
    else if i.matchConfidence < 0.5 && Band(Score(i)) == P0 then P1
    else if i.matchConfidence < 0.5 && Band(Score(i)) == P1 then P2
    else Band(Score(i))
  }

  /** The engine itself: it settles a band first and then rewrites it. */
  method Evaluate(i: PolicyInput) returns (priority: Priority, escalated: bool, score: real)
    ensures priority == Decide(i)
    ensures escalated <==> KevOnCriticalInternetAsset(i) || KevConfirmedLikelyExploited(i)
    ensures escalated ==> priority == P0 && score >= 95.0
    ensures !escalated ==> score == Score(i)
  {
    escalated := false;
    if KevOnCriticalInternetAsset(i) {
      return P0, true, 100.0;
    }
    if KevConfirmedLikelyExploited(i) {
      return P0, true, 95.0;
    }
    score := Score(i);
    if i.matchClass == Candidate {
      priority := CandidateBand(score);
      return;
    }
    priority := Band(score);
    if i.matchConfidence < 0.5 && (priority == P0 || priority == P1) {
      priority := if priority == P0 then P1 else P2;
    }
  }

  /** `b` is at least as severe as `a` in every factor, for one match class. */
  ghost predicate AtLeastAsSevere(a: PolicyInput, b: PolicyInput) {
    && a.matchClass == b.matchClass
    && (a.kev ==> b.kev)
    && a.epssScore <= b.epssScore
    && a.epssPercentile.GetOr(0.0) <= b.epssPercentile.GetOr(0.0)
    && a.cvssScore.GetOr(0.0) <= b.cvssScore.GetOr(0.0)
    && CriticalityWeight(a.assetCriticality) <= CriticalityWeight(b.assetCriticality)
    && ExposureWeight(a.internetExposure) <= ExposureWeight(b.internetExposure)
    && a.matchConfidence <= b.matchConfidence
  }

  /** Raising any factors together never makes the priority less urgent. */
  lemma Monotone(a: PolicyInput, b: PolicyInput)
    requires AtLeastAsSevere(a, b)
    ensures Rank(Decide(b)) <= Rank(Decide(a))
  {
    assert Score(a) <= Score(b);
    assert KevOnCriticalInternetAsset(a) ==> KevOnCriticalInternetAsset(b) by {
      assert a.assetCriticality == "critical" ==> b.assetCriticality == "critical";
    }
  }

  /** A candidate match is never P0 or P1, nor more urgent than the same facts under another class. */
  lemma CandidateNeverUrgent(i: PolicyInput, other: MatchClass)
    requires i.matchClass == Candidate
    ensures Rank(Decide(i)) >= 2
    ensures Rank(Decide(i.(matchClass := other))) <= Rank(Decide(i))
  {
    assert Score(i.(matchClass := other)) == Score(i);
  }

  /** The answers of the enrichment feeds for one vulnerability. */
  datatype Enrichment = Enrichment(kev: bool, epssScore: real, epssPercentile: Option<real>)

  predicate InUnitRange(x: real) { 0.0 <= x <= 1.0 }

  predicate Normal(e: Enrichment) {
    InUnitRange(e.epssScore) && (e.epssPercentile.Some? ==> InUnitRange(e.epssPercentile.value))
  }

  /** The orchestrator leaves CVSS, criticality and exposure at their defaults. */
  function OrchestratorInput(e: Enrichment, cls: MatchClass, confidence: real): PolicyInput {
    PolicyInput(e.kev, e.epssScore, e.epssPercentile, None, "medium", "internal", confidence, cls)
  }

  /** The priority stored on an exposure; case classes never sit in the bottom band. */
  function PriorityFor(e: Enrichment, cls: MatchClass, confidence: real): Priority {
    var p := Decide(OrchestratorInput(e, cls, confidence));
    if p == P4 && CaseClass(cls) then P3 else p
  }

  /** Which priorities an auto-created case can have, and exactly when each occurs. */
  lemma AutoCasePriority(e: Enrichment, cls: MatchClass, confidence: real)
    requires Normal(e) && InUnitRange(confidence) && CaseClass(cls)
    ensures Score(OrchestratorInput(e, cls, confidence)) <= 42.0
    ensures PriorityFor(e, cls, confidence) == P0 <==> e.kev && cls == Confirmed && e.epssScore > 0.5
    ensures PriorityFor(e, cls, confidence) == P2 <==>
              && !(e.kev && cls == Confirmed && e.epssScore > 0.5)
              && e.epssScore * 20.0 + e.epssPercentile.GetOr(0.0) * 5.0 + confidence * 10.0 >= 33.0
    ensures PriorityFor(e, cls, confidence) in {P0, P2, P3}
  {
    var i := OrchestratorInput(e, cls, confidence);
    assert i.epssScore * 20.0 <= 20.0 && i.epssPercentile.GetOr(0.0) * 5.0 <= 5.0;
  }

  // -- the tables in plain terms ------------------------------------------------------------------

  /** The weighted sum before it is clamped to 0..100. */
  function Sum(cvss: real, epss: real, percentile: real, criticality: string, exposure: string, confidence: real): real {
    5.0 * cvss + 20.0 * epss + 5.0 * percentile + 10.0 * confidence - 5.0
    + (match criticality case "critical" => 20.0 case "high" => 15.0 case "medium" => 10.0 case _ => 5.0)
    + (match exposure case "external" => 10.0 case "unknown" => 5.0 case _ => 2.0)
  }

  /** The whole policy: two escalation rules, then thresholds on the sum. Candidates have two thresholds
      and stop at P2; a confidence below one half costs P0 and P1 one tier. */
  lemma PolicyTable(i: PolicyInput)
    ensures var escalates := i.kev &&
              (|| (i.assetCriticality == "critical" && i.internetExposure == "external"
                   && (i.matchClass == Confirmed || i.matchClass == Deterministic) && i.matchConfidence >= 0.7)
               || (i.matchClass == Confirmed && i.epssScore > 0.5));
            var sum := Sum(i.cvssScore.GetOr(0.0), i.epssScore, i.epssPercentile.GetOr(0.0), i.assetCriticality,
                           i.internetExposure, i.matchConfidence);
            var sure, candidate := i.matchConfidence >= 0.5, i.matchClass == Candidate;
            && (Decide(i) == P0 <==> escalates || (!candidate && sure && sum >= 90.0))
            && (Rank(Decide(i)) <= 1 <==> escalates || (!candidate && if sure then sum >= 70.0 else sum >= 90.0))
            && (Rank(Decide(i)) <= 2 <==> escalates || (if candidate then sum >= 70.0 else sum >= 40.0))
            && (Rank(Decide(i)) <= 3 <==> escalates || (if candidate then sum >= 40.0 else sum >= 20.0))
            && 0.0 <= Score(i) <= 100.0 && (0.0 <= sum <= 100.0 ==> Score(i) == sum)
            && (sum > 100.0 ==> Score(i) == 100.0) && (sum < 0.0 ==> Score(i) == 0.0)
  {
    var sum := Sum(i.cvssScore.GetOr(0.0), i.epssScore, i.epssPercentile.GetOr(0.0), i.assetCriticality,
                   i.internetExposure, i.matchConfidence);
    assert Score(i) == Clamp(sum);
  }

  /** The priority stored on an exposure, for every class: P0 only for a confirmed match of a likely
      exploited KEV entry; otherwise one enrichment sum decides between P2, P3 and P4, candidates one
      tier lower, and case classes never below P3. */
  lemma ExposurePriority(e: Enrichment, cls: MatchClass, confidence: real)
    requires Normal(e) && InUnitRange(confidence)
    ensures var sum := e.epssScore * 20.0 + e.epssPercentile.GetOr(0.0) * 5.0 + confidence * 10.0;
            PriorityFor(e, cls, confidence) ==
            if cls == Confirmed && e.kev && e.epssScore > 0.5 then P0
            else if cls == Candidate then (if sum >= 33.0 then P3 else P4)
            else if sum >= 33.0 then P2
            else if sum >= 13.0 || cls == Confirmed || cls == Deterministic then P3
            else P4
  {
    var i := OrchestratorInput(e, cls, confidence);
    assert i.epssScore * 20.0 <= 20.0 && i.epssPercentile.GetOr(0.0) * 5.0 <= 5.0;
  }
}
