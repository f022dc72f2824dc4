/**
 * Remediation cases: the nine-state lifecycle, risk decisions, and the paired audit and outbox logs.
 * Rows are numbered in creation order; their numbers stand for the generated identifiers.
 * Every operation is one transaction: it yields the committed tables, or `None` when it raises.
 */
module Cases {
  import opened Domain
  import opened Text

  datatype Status =
    | New | Triage | Assigned | InProgress | AwaitingVerification
    | Closed | RiskAccepted | NotApplicable | Reopened

  function AllowedTransitions(from: Status): set<Status> {
    match from
    case New => {Triage}
    case Triage => {Assigned, NotApplicable, RiskAccepted}
    case Assigned => {InProgress, Triage}
    case InProgress => {AwaitingVerification, Triage}
    case AwaitingVerification => {Closed, InProgress}
    case RiskAccepted => {Triage}
    case NotApplicable => {Triage}
    case Closed => {Reopened}
    case Reopened => {Triage}
  }

  datatype Case = Case(
    organization: string,
    ownerTeam: string,
    escalated: bool,
    priority: Priority,
    policyVersion: string,
    exposures: seq<nat>,
    status: Status,
    version: nat)

  function NewCase(organization: string, ownerTeam: string, escalated: bool, priority: Priority,
                   policyVersion: string, exposures: seq<nat>): Case {
    Case(organization, ownerTeam, escalated, priority, policyVersion, exposures, New, 1)
  }

  datatype Kind = RiskAcceptance | Waiver | CompensatingControl | FalsePositive | NotAffectedClaim | Unsupported(name: string)
  datatype DecisionStatus = Pending | Approved | Rejected | Revoked | Expired
  datatype Approval = Approval(actor: string, role: string, human: bool)

  datatype Decision = Decision(
    caseId: nat,
    kind: Kind,
    status: DecisionStatus,
    reason: string,
    evidence: seq<string>,
    requestedBy: string,
    expiresAt: Option<int>,
    approval: Option<Approval>)

  /** The kinds whose approval accepts the risk, as opposed to dismissing the finding. */
  predicate AcceptanceKind(k: Kind) {
    k == RiskAcceptance || k == Waiver || k == CompensatingControl
  }

  function TargetOf(k: Kind): Status {
    if AcceptanceKind(k) then RiskAccepted else NotApplicable
  }

  datatype Action =
    | CaseCreated | OwnershipEscalated | CaseTransitioned
    | VerificationCompleted | VerificationNeedsApproval | VerificationFailed
    | DecisionRequested | DecisionAccepted(kind: Kind) | DecisionRejected | DecisionRevoked | DecisionExpired
    | ExposureReopened

  datatype Subject = OfCase(caseId: nat) | OfDecision(decisionId: nat)

  datatype Audit = Audit(
    actor: string,
    action: Action,
    subject: Subject,
    prior: Option<Status>,
    next: Option<Status>,
    correlation: string)

  datatype OutboxRow = OutboxRow(aggregate: Subject, eventType: string, correlation: string)

  /** The outbox event that accompanies an audit entry; the escalation note has none. */
  function EventTypeOf(a: Action): Option<string> {
    match a
    case CaseCreated => Some("vulnops.case.created.v1")
    case OwnershipEscalated => None
    case CaseTransitioned => Some("vulnops.case.transitioned.v1")
    case VerificationCompleted => Some("vulnops.verification.completed.v1")
    case VerificationNeedsApproval => Some("vulnops.verification.requires_approval.v1")
    case VerificationFailed => Some("vulnops.verification.failed.v1")
    case DecisionRequested => Some("vulnops.risk-decision.requested.v1")
    case DecisionAccepted(_) => Some("vulnops.risk-decision.accepted.v1")
    case DecisionRejected => Some("vulnops.risk-decision.rejected.v1")
    case DecisionRevoked => Some("vulnops.risk-decision.revoked.v1")
    case DecisionExpired => Some("vulnops.risk-decision.expired.v1")
    case ExposureReopened => Some("vulnops.exposure.reopened.v1")
  }

  datatype Db = Db(cases: seq<Case>, decisions: seq<Decision>, audit: seq<Audit>, outbox: seq<OutboxRow>)

  const EMPTY: Db := Db([], [], [], [])

  // -- building blocks ---------------------------------------------------------------------------

  function RowsFor(a: Audit): seq<OutboxRow> {
    match EventTypeOf(a.action)
    case None => []
    case Some(t) => [OutboxRow(a.subject, t, a.correlation)]
  }

  function Emit(db: Db, a: Audit): Db {
    db.(audit := db.audit + [a], outbox := db.outbox + RowsFor(a))
  }

  function Move(c: Case, target: Status): Case {
    c.(status := target, version := c.version + 1)
  }

  /** Move case `i` to `target` and log it. */
  function MoveAndEmit(db: Db, i: nat, target: Status, a: Audit): Db
    requires i < |db.cases|
  {
    Emit(db.(cases := db.cases[i := Move(db.cases[i], target)]), a)
  }

  function SetDecision(db: Db, d: nat, status: DecisionStatus): Db
    requires d < |db.decisions|
  {
    db.(decisions := db.decisions[d := db.decisions[d].(status := status)])
  }

  predicate Blank(s: string) {
    Strip(s) == ""
  }

  // -- verification coverage ----------------------------------------------------------------------

  datatype Coverage = Coverage(status: Option<string>, hasScope: bool, freshnessSeconds: Option<int>)

  /** Whether a verification closes the case. */
  predicate ClosesCase(how: string, coverage: Option<Coverage>) {
    && coverage.Some?
    && coverage.value.status in {Some("complete"), Some("success"), Some("ok")}
    && (how == "scanner" ==> coverage.value.hasScope)
    && (how == "wazuh_inventory" ==> coverage.value.freshnessSeconds.GetOr(0) <= 24 * 3600)
    && how != "manual_attestation" && how != "vex"
  }

  // -- operations ---------------------------------------------------------------------------------

  function CreateCase(db: Db, c: Case, correlation: string): Db {
    var id := |db.cases|;
    var created := Emit(db.(cases := db.cases + [c]), Audit("system", CaseCreated, OfCase(id), None, Some(New), correlation));
    if c.escalated then
      Emit(created, Audit("system", OwnershipEscalated, OfCase(id), None, None, correlation))
    else created
  }

  function Transition(db: Db, i: nat, target: Status, expected: Option<nat>, actor: string, correlation: string): Option<Db> {
    if i >= |db.cases| || target !in AllowedTransitions(db.cases[i].status) then None
    else if expected.Some? && expected.value != db.cases[i].version then None
    else Some(MoveAndEmit(db, i, target,
                Audit(actor, CaseTransitioned, OfCase(i), Some(db.cases[i].status), Some(target), correlation)))
  }

  function Verify(db: Db, i: nat, how: string, coverage: Option<Coverage>, actor: string, correlation: string): Option<Db> {
    if i >= |db.cases| || db.cases[i].status != AwaitingVerification then None
    else if ClosesCase(how, coverage) then
      Some(MoveAndEmit(db, i, Closed, Audit(actor, VerificationCompleted, OfCase(i), None, None, correlation)))
    else
      var action := if how == "manual_attestation" then VerificationNeedsApproval else VerificationFailed;
      Some(Emit(db, Audit(actor, action, OfCase(i), None, None, correlation)))
  }

  predicate ValidEvidence(evidence: seq<string>) {
    evidence != [] && forall e | e in evidence :: !Blank(e)
  }

  predicate InFuture(expiresAt: Option<int>, now: int) {
    expiresAt.Some? && expiresAt.value > now
  }

  function RequestDecision(db: Db, i: nat, kind: Kind, reason: string, evidence: seq<string>, expiresAt: Option<int>,
                           requestedBy: string, actor: string, now: int, correlation: string): Option<Db> {
    if || actor != requestedBy || kind.Unsupported? || Blank(reason) || !ValidEvidence(evidence)
       || !InFuture(expiresAt, now) || i >= |db.cases| then None
    else
      var d := Decision(i, kind, Pending, reason, evidence, requestedBy, expiresAt, None);
      Some(Emit(db.(decisions := db.decisions + [d]),
             Audit(actor, DecisionRequested, OfDecision(|db.decisions|), None, None, correlation)))
  }

  datatype Approver = Approver(
    actor: string,
    human: bool,
    roles: seq<string>,
    capabilities: seq<string>)

  function Normalized(words: seq<string>): set<string> {
    set w | w in words :: Lower(Strip(w))
  }

  /** The first approver role the actor carries. */
  function ApprovalRole(roles: seq<string>): Option<string> {
    var have := Normalized(roles);
    if "risk_approver" in have then Some("risk_approver")
    else if "security_lead" in have then Some("security_lead")
    else if "policy_admin" in have then Some("policy_admin")
    else if "admin" in have then Some("admin")
    else None
  }

  /** What is checked on the loaded decision before any row is touched. */
  predicate MayDecide(decision: Decision, who: Approver, approve: bool, reason: string, now: int) {
    && decision.status == Pending
    && who.human && "risk:approve" in Normalized(who.capabilities) && ApprovalRole(who.roles).Some?
    && who.actor != decision.requestedBy
    && !Blank(reason)
    && (approve ==>
          && !decision.kind.Unsupported? && !Blank(decision.reason)
          && ValidEvidence(decision.evidence) && InFuture(decision.expiresAt, now))
  }

  /** The conditional update, the case move and the log entries, given the case status read earlier. */
  function CommitDecision(db: Db, d: nat, who: Approver, approve: bool, prior: Status, correlation: string): Option<Db>
    requires d < |db.decisions| && ApprovalRole(who.roles).Some?
  {
    var decision := db.decisions[d];
    var i := decision.caseId;
    if decision.status != Pending || i >= |db.cases| then None
    else if approve && TargetOf(decision.kind) !in AllowedTransitions(prior) then None
    else
      var decided := decision.(
        status := if approve then Approved else Rejected,
        approval := Some(Approval(who.actor, ApprovalRole(who.roles).value, who.human)));
      var db' := db.(decisions := db.decisions[d := decided]);
      if approve then
        var target := TargetOf(decision.kind);
        Some(MoveAndEmit(db', i, target,
               Audit(who.actor, DecisionAccepted(decision.kind), OfDecision(d), Some(prior), Some(target), correlation)))
      else
        Some(Emit(db', Audit(who.actor, DecisionRejected, OfDecision(d), None, None, correlation)))
  }

  function Decide(db: Db, d: nat, who: Approver, approve: bool, reason: string, now: int, correlation: string): Option<Db> {
    if d >= |db.decisions| || !MayDecide(db.decisions[d], who, approve, reason, now)
       || db.decisions[d].caseId >= |db.cases| then None
    else CommitDecision(db, d, who, approve, db.cases[db.decisions[d].caseId].status, correlation)
  }

  /** Revocation forces triage from any state. */
  function Revoke(db: Db, d: nat, actor: string, correlation: string): Option<Db> {
    if d >= |db.decisions| || db.decisions[d].caseId >= |db.cases| then None
    else
      var i := db.decisions[d].caseId;
      Some(MoveAndEmit(SetDecision(db, d, Revoked), i, Triage,
             Audit(actor, DecisionRevoked, OfCase(i), Some(db.cases[i].status), Some(Triage), correlation)))
  }

  function Reopen(db: Db, i: nat, correlation: string): Option<Db> {
    if i >= |db.cases| || db.cases[i].status != Closed then None
    else Some(MoveAndEmit(db, i, Reopened,
                Audit("system", ExposureReopened, OfCase(i), Some(Closed), Some(Reopened), correlation)))
  }

  // -- the expiry sweep ---------------------------------------------------------------------------

  predicate Due(decision: Decision, now: int) {
    decision.status == Approved && decision.expiresAt.Some? && decision.expiresAt.value <= now
  }

  function ExpireOne(db: Db, d: nat): Db
    requires d < |db.decisions| && db.decisions[d].caseId < |db.cases|
  {
    var i := db.decisions[d].caseId;
    var db' := SetDecision(db, d, Expired);
    if db.cases[i].status == RiskAccepted then
      MoveAndEmit(db', i, Triage, Audit("system", DecisionExpired, OfCase(i), Some(RiskAccepted), Some(Triage), ""))
    else db'
  }

  predicate Linked(db: Db) {
    forall d :: 0 <= d < |db.decisions| ==> db.decisions[d].caseId < |db.cases|
  }

  predicate Listed(db: Db, order: seq<nat>) {
    forall k :: 0 <= k < |order| ==> order[k] < |db.decisions|
  }

  /** Expire the listed decisions one after the other. */
  function ExpireAll(db: Db, order: seq<nat>): (r: Db)
    requires Linked(db) && Listed(db, order)
    ensures |r.decisions| == |db.decisions| && |r.cases| == |db.cases|
    ensures forall d :: 0 <= d < |db.decisions| ==> r.decisions[d].caseId == db.decisions[d].caseId
  {
    if order == [] then db else ExpireOne(ExpireAll(db, order[..|order| - 1]), order[|order| - 1])
  }

  /** The sweep without any order: every due decision expires, every accepted case of one returns to triage. */
  function SweptDecisions(db: Db, now: int): seq<Decision> {
    seq(|db.decisions|, d requires 0 <= d < |db.decisions| =>
      if Due(db.decisions[d], now) then db.decisions[d].(status := Expired) else db.decisions[d])
  }

  predicate HasDue(db: Db, i: nat, now: int) {
    exists d | 0 <= d < |db.decisions| :: Due(db.decisions[d], now) && db.decisions[d].caseId == i
  }

  function SweptCases(db: Db, now: int): seq<Case> {
    seq(|db.cases|, i requires 0 <= i < |db.cases| =>
      if db.cases[i].status == RiskAccepted && HasDue(db, i, now) then Move(db.cases[i], Triage) else db.cases[i])
  }

  /** `order` lists exactly the due decisions, each once. */
  ghost predicate DueOrder(db: Db, now: int, order: seq<nat>) {
    && Listed(db, order)
    && (forall d: nat :: d in order <==> d < |db.decisions| && Due(db.decisions[d], now))
    && (forall j, k :: 0 <= j < k < |order| ==> order[j] != order[k])
  }

  /** One of the listed decisions belongs to case `i`. */
  ghost predicate Touches(db: Db, order: seq<nat>, i: nat)
    requires Listed(db, order)
  {
    exists k :: 0 <= k < |order| && db.decisions[order[k]].caseId == i
  }

  lemma {:induction false} ExpireAllDecisions(db: Db, order: seq<nat>)
    requires Linked(db) && Listed(db, order)
    ensures forall d :: 0 <= d < |db.decisions| ==>
              ExpireAll(db, order).decisions[d] ==
              if d in order then db.decisions[d].(status := Expired) else db.decisions[d]
  {
    if order != [] {
      var init, last := order[..|order| - 1], order[|order| - 1];
      assert order == init + [last];
      ExpireAllDecisions(db, init);
    }
  }

  lemma {:induction false} ExpireAllCases(db: Db, order: seq<nat>, i: nat)
    requires Linked(db) && Listed(db, order) && i < |db.cases|
    ensures ExpireAll(db, order).cases[i] ==
            if db.cases[i].status == RiskAccepted && Touches(db, order, i) then Move(db.cases[i], Triage) else db.cases[i]
  {
    if order != [] {
      var init, last := order[..|order| - 1], order[|order| - 1];
      assert order == init + [last];
      ExpireAllCases(db, init, i);
      var mid := ExpireAll(db, init);
      assert mid.decisions[last].caseId == db.decisions[last].caseId;
      if db.decisions[last].caseId == i {
        assert db.decisions[order[|order| - 1]].caseId == i;
      } else {
        assert Touches(db, order, i) <==> Touches(db, init, i) by {
          assert forall k :: 0 <= k < |init| ==> order[k] == init[k];
        }
      }
    }
  }

  lemma TouchedIsDue(db: Db, now: int, order: seq<nat>, i: nat)
    requires Linked(db) && DueOrder(db, now, order)
    ensures Touches(db, order, i) <==> HasDue(db, i, now)
  {
    if Touches(db, order, i) {
      var k :| 0 <= k < |order| && db.decisions[order[k]].caseId == i;
      assert order[k] in order;
    }
    if HasDue(db, i, now) {
      var d: nat :| d < |db.decisions| && Due(db.decisions[d], now) && db.decisions[d].caseId == i;
      assert d in order;
    }
  }

  /** The order of the rows is irrelevant to every decision and every case. */
  lemma SweepOrderIrrelevant(db: Db, now: int, order: seq<nat>)
    requires Linked(db) && DueOrder(db, now, order)
    ensures ExpireAll(db, order).decisions == SweptDecisions(db, now)
    ensures ExpireAll(db, order).cases == SweptCases(db, now)
  {
    ExpireAllDecisions(db, order);
    forall i | 0 <= i < |db.cases|
      ensures ExpireAll(db, order).cases[i] == SweptCases(db, now)[i]
    {
      ExpireAllCases(db, order, i);
      TouchedIsDue(db, now, order, i);
    }
  }

  /** Sweeping again at the same time finds nothing due. */
  lemma SweepIdempotent(db: Db, now: int, order: seq<nat>, again: seq<nat>)
    requires Linked(db) && DueOrder(db, now, order) && DueOrder(ExpireAll(db, order), now, again)
    ensures again == [] && ExpireAll(ExpireAll(db, order), again) == ExpireAll(db, order)
  {
    assert again != [] ==> again[0] in again;
    ExpireAllDecisions(db, order);
    forall d: nat ensures d !in again {
      if d < |db.decisions| {
        assert !Due(ExpireAll(db, order).decisions[d], now);
      }
    }
  }

  lemma ExpiryRemembered(db: Db, a: int, b: int, i: nat)
    requires a <= b && HasDue(db, i, a)
    ensures HasDue(db, i, b)
  {
    var d :| 0 <= d < |db.decisions| && Due(db.decisions[d], a) && db.decisions[d].caseId == i;
    assert Due(db.decisions[d], b);
  }

  lemma NothingForgotten(db: Db, mid: Db, a: int, b: int, i: nat)
    requires mid.decisions == SweptDecisions(db, a) && !HasDue(db, i, a)
    ensures HasDue(mid, i, b) <==> HasDue(db, i, b)
  {
    assert forall d :: 0 <= d < |db.decisions| && db.decisions[d].caseId == i ==> mid.decisions[d] == db.decisions[d];
    assert forall d :: 0 <= d < |db.decisions| ==> mid.decisions[d].caseId == db.decisions[d].caseId;
  }

  /** Sweeping at `a` and then at a later `b` leaves what one sweep at `b` leaves. */
  lemma SweepsCompose(db: Db, a: int, b: int, first: seq<nat>, second: seq<nat>, once: seq<nat>)
    requires a <= b && Linked(db)
    requires DueOrder(db, a, first) && DueOrder(ExpireAll(db, first), b, second) && DueOrder(db, b, once)
    ensures ExpireAll(ExpireAll(db, first), second).decisions == ExpireAll(db, once).decisions
    ensures ExpireAll(ExpireAll(db, first), second).cases == ExpireAll(db, once).cases
  {
    var mid := ExpireAll(db, first);
    SweepOrderIrrelevant(db, a, first);
    SweepOrderIrrelevant(mid, b, second);
    SweepOrderIrrelevant(db, b, once);
    forall i | 0 <= i < |db.cases|
      ensures SweptCases(mid, b)[i] == SweptCases(db, b)[i]
    {
      if HasDue(db, i, a) {
        ExpiryRemembered(db, a, b, i);
      } else {
        NothingForgotten(db, mid, a, b, i);
      }
    }
    assert forall d :: 0 <= d < |db.decisions| ==> SweptDecisions(mid, b)[d] == SweptDecisions(db, b)[d];
  }
}
