/** What every sequence of case-service calls keeps. */
module CaseRuns {
  import opened Domain
  import opened Cases

  datatype Call =
    | DoCreate(c: Case)
    | DoTransition(id: nat, target: Status, expected: Option<nat>, actor: string)
    | DoVerify(id: nat, how: string, coverage: Option<Coverage>, actor: string)
    | DoRequest(id: nat, kind: Kind, reason: string, evidence: seq<string>, expiresAt: Option<int>,
                requestedBy: string, actor: string, now: int)
    | DoDecide(id: nat, who: Approver, approve: bool, reason: string, now: int)
    | DoRevoke(id: nat, actor: string)
    | DoReopen(id: nat)
    | DoSweep(now: int, order: seq<nat>)

  datatype Traced = Traced(call: Call, correlation: string)

  /** A case is created fresh; a sweep visits exactly the due rows, in some order. */
  ghost predicate Admissible(db: Db, call: Call) {
    match call
    case DoCreate(c) => c.status == New && c.version == 1
    case DoSweep(now, order) => Linked(db) && DueOrder(db, now, order)
    case _ => true
  }

  ghost function Attempt(db: Db, t: Traced): Option<Db>
    requires Admissible(db, t.call)
  {
    match t.call
    case DoCreate(c) => Some(CreateCase(db, c, t.correlation))
    case DoTransition(i, target, expected, actor) => Transition(db, i, target, expected, actor, t.correlation)
    case DoVerify(i, how, coverage, actor) => Verify(db, i, how, coverage, actor, t.correlation)
    case DoRequest(i, kind, reason, evidence, expiresAt, requestedBy, actor, now) =>
      RequestDecision(db, i, kind, reason, evidence, expiresAt, requestedBy, actor, now, t.correlation)
    case DoDecide(d, who, approve, reason, now) => Decide(db, d, who, approve, reason, now, t.correlation)
    case DoRevoke(d, actor) => Revoke(db, d, actor, t.correlation)
    case DoReopen(i) => Reopen(db, i, t.correlation)
    case DoSweep(now, order) => Some(ExpireAll(db, order))
  }

  ghost function Apply(db: Db, t: Traced): Db
    requires Admissible(db, t.call)
  {
    Attempt(db, t).GetOr(db)
  }

  /** `states` is a run: one committed state after each call, failed calls included. */
  ghost predicate Run(states: seq<Db>, calls: seq<Traced>) {
    && |states| == |calls| + 1
    && states[0] == EMPTY
    && forall k :: 0 <= k < |calls| ==>
         Admissible(states[k], calls[k].call) && states[k + 1] == Apply(states[k], calls[k])
  }

  // -- the audit log refines the state ------------------------------------------------------------

  function CaseOf(decisions: seq<Decision>, s: Subject): Option<nat> {
    match s
    case OfCase(i) => Some(i)
    case OfDecision(d) => if d < |decisions| then Some(decisions[d].caseId) else None
  }

  /** The status an entry records for its case; entries of every other action record none. */
  function StatusRecorded(a: Audit): Option<Status> {
    match a.action
    case CaseCreated => Some(New)
    case CaseTransitioned => a.next
    case VerificationCompleted => Some(Closed)
    case DecisionAccepted(kind) => Some(TargetOf(kind))
    case DecisionRevoked => Some(Triage)
    case DecisionExpired => Some(Triage)
    case ExposureReopened => Some(Reopened)
    case _ => None
  }

  predicate Records(decisions: seq<Decision>, a: Audit, i: nat) {
    CaseOf(decisions, a.subject) == Some(i) && StatusRecorded(a).Some?
  }

  /** The status of case `i` according to the log alone. */
  function Replay(audit: seq<Audit>, decisions: seq<Decision>, i: nat): Option<Status> {
    if audit == [] then None
    else
      var init, last := audit[..|audit| - 1], audit[|audit| - 1];
      if Records(decisions, last, i) then StatusRecorded(last) else Replay(init, decisions, i)
  }

  /** The number of entries that set the status of case `i`. */
  function Entries(audit: seq<Audit>, decisions: seq<Decision>, i: nat): nat {
    if audit == [] then 0
    else
      var init, last := audit[..|audit| - 1], audit[|audit| - 1];
      Entries(init, decisions, i) + if Records(decisions, last, i) then 1 else 0
  }

  /** The outbox the audit log calls for. */
  function Publish(audit: seq<Audit>): seq<OutboxRow> {
    if audit == [] then [] else Publish(audit[..|audit| - 1]) + RowsFor(audit[|audit| - 1])
  }

  ghost predicate ValidSubject(db: Db, s: Subject) {
    match s
    case OfCase(i) => i < |db.cases|
    case OfDecision(d) => d < |db.decisions|
  }

  /** Status, version and outbox can all be recomputed from the audit log. */
  ghost predicate Faithful(db: Db) {
    && Linked(db)
    && (forall k :: 0 <= k < |db.audit| ==> ValidSubject(db, db.audit[k].subject))
    && (forall i :: 0 <= i < |db.cases| ==>
          && Replay(db.audit, db.decisions, i) == Some(db.cases[i].status)
          && Entries(db.audit, db.decisions, i) == db.cases[i].version)
    && db.outbox == Publish(db.audit)
  }

  lemma AppendEntry(audit: seq<Audit>, decisions: seq<Decision>, a: Audit, i: nat)
    ensures Replay(audit + [a], decisions, i) == if Records(decisions, a, i) then StatusRecorded(a) else Replay(audit, decisions, i)
    ensures Entries(audit + [a], decisions, i) == Entries(audit, decisions, i) + if Records(decisions, a, i) then 1 else 0
    ensures Publish(audit + [a]) == Publish(audit) + RowsFor(a)
  {
    assert (audit + [a])[..|audit|] == audit;
  }

  /** New decisions, and changes that keep a decision's case, leave the reading of the log alone. */
  lemma {:induction false} ReplayStable(audit: seq<Audit>, earlier: seq<Decision>, later: seq<Decision>, i: nat)
    requires |earlier| <= |later| && forall d :: 0 <= d < |earlier| ==> earlier[d].caseId == later[d].caseId
    requires forall k :: 0 <= k < |audit| && audit[k].subject.OfDecision? ==> audit[k].subject.decisionId < |earlier|
    ensures Replay(audit, earlier, i) == Replay(audit, later, i) && Entries(audit, earlier, i) == Entries(audit, later, i)
  {
    if audit != [] {
      ReplayStable(audit[..|audit| - 1], earlier, later, i);
    }
  }

  lemma {:induction false} NoEntriesYet(db: Db, audit: seq<Audit>, i: nat)
    requires Linked(db) && i >= |db.cases| && forall k :: 0 <= k < |audit| ==> ValidSubject(db, audit[k].subject)
    ensures Entries(audit, db.decisions, i) == 0
  {
    if audit != [] {
      NoEntriesYet(db, audit[..|audit| - 1], i);
    }
  }

  lemma SetDecisionsKeeps(db: Db, decisions: seq<Decision>)
    requires Faithful(db) && |db.decisions| <= |decisions|
    requires forall d :: 0 <= d < |decisions| ==>
               decisions[d].caseId < |db.cases| && (d < |db.decisions| ==> decisions[d].caseId == db.decisions[d].caseId)
    ensures Faithful(db.(decisions := decisions))
  {
    forall i | 0 <= i < |db.cases|
      ensures Replay(db.audit, decisions, i) == Some(db.cases[i].status)
      ensures Entries(db.audit, decisions, i) == db.cases[i].version
    {
      ReplayStable(db.audit, db.decisions, decisions, i);
    }
  }

  lemma EmitKeeps(db: Db, a: Audit)
    requires Faithful(db) && ValidSubject(db, a.subject) && StatusRecorded(a).None?
    ensures Faithful(Emit(db, a))
  {
    forall i: nat { AppendEntry(db.audit, db.decisions, a, i); }
  }

  lemma MoveKeeps(db: Db, i: nat, target: Status, a: Audit)
    requires Faithful(db) && i < |db.cases| && ValidSubject(db, a.subject)
    requires CaseOf(db.decisions, a.subject) == Some(i) && StatusRecorded(a) == Some(target)
    ensures Faithful(MoveAndEmit(db, i, target, a))
  {
    forall j: nat { AppendEntry(db.audit, db.decisions, a, j); }
  }

  lemma CreateKeeps(db: Db, c: Case, correlation: string)
    requires Faithful(db) && c.status == New && c.version == 1
    ensures Faithful(CreateCase(db, c, correlation))
  {
    var id := |db.cases|;
    var a := Audit("system", CaseCreated, OfCase(id), None, Some(New), correlation);
    forall j: nat { AppendEntry(db.audit, db.decisions, a, j); }
    NoEntriesYet(db, db.audit, id);
    var created := Emit(db.(cases := db.cases + [c]), a);
    assert Faithful(created);
    EmitKeeps(created, Audit("system", OwnershipEscalated, OfCase(id), None, None, correlation));
  }

  lemma DecideKeeps(db: Db, d: nat, who: Approver, approve: bool, prior: Status, correlation: string)
    requires Faithful(db) && d < |db.decisions| && ApprovalRole(who.roles).Some?
    ensures var r := CommitDecision(db, d, who, approve, prior, correlation);
            r.Some? ==> Faithful(r.value)
  {
    var r := CommitDecision(db, d, who, approve, prior, correlation);
    if r.Some? {
      var decision := db.decisions[d];
      var decided := decision.(
        status := if approve then Approved else Rejected,
        approval := Some(Approval(who.actor, ApprovalRole(who.roles).value, who.human)));
      var db' := db.(decisions := db.decisions[d := decided]);
      SetDecisionsKeeps(db, db'.decisions);
      if approve {
        var target := TargetOf(decision.kind);
        MoveKeeps(db', decision.caseId, target,
          Audit(who.actor, DecisionAccepted(decision.kind), OfDecision(d), Some(prior), Some(target), correlation));
      } else {
        EmitKeeps(db', Audit(who.actor, DecisionRejected, OfDecision(d), None, None, correlation));
      }
    }
  }

  lemma ExpireOneKeeps(db: Db, d: nat)
    requires Faithful(db) && d < |db.decisions|
    ensures Faithful(ExpireOne(db, d))
  {
    var i := db.decisions[d].caseId;
    var db' := SetDecision(db, d, Expired);
    SetDecisionsKeeps(db, db'.decisions);
    if db.cases[i].status == RiskAccepted {
      MoveKeeps(db', i, Triage, Audit("system", DecisionExpired, OfCase(i), Some(RiskAccepted), Some(Triage), ""));
    }
  }

  lemma {:induction false} ExpireAllKeeps(db: Db, order: seq<nat>)
    requires Faithful(db) && Listed(db, order)
    ensures Faithful(ExpireAll(db, order))
  {
    if order != [] {
      ExpireAllKeeps(db, order[..|order| - 1]);
      ExpireOneKeeps(ExpireAll(db, order[..|order| - 1]), order[|order| - 1]);
    }
  }

  lemma RevokeKeeps(db: Db, d: nat, actor: string, correlation: string)
    requires Faithful(db)
    ensures Faithful(Revoke(db, d, actor, correlation).GetOr(db))
  {
    if Revoke(db, d, actor, correlation).Some? {
      var i := db.decisions[d].caseId;
      SetDecisionsKeeps(db, SetDecision(db, d, Revoked).decisions);
      MoveKeeps(SetDecision(db, d, Revoked), i, Triage,
        Audit(actor, DecisionRevoked, OfCase(i), Some(db.cases[i].status), Some(Triage), correlation));
    }
  }

  lemma VerifyKeeps(db: Db, i: nat, how: string, coverage: Option<Coverage>, actor: string, correlation: string)
    requires Faithful(db)
    ensures Faithful(Verify(db, i, how, coverage, actor, correlation).GetOr(db))
  {
    if i < |db.cases| {
      MoveKeeps(db, i, Closed, Audit(actor, VerificationCompleted, OfCase(i), None, None, correlation));
      EmitKeeps(db, Audit(actor, VerificationNeedsApproval, OfCase(i), None, None, correlation));
      EmitKeeps(db, Audit(actor, VerificationFailed, OfCase(i), None, None, correlation));
    }
  }

  lemma ApplyKeeps(db: Db, t: Traced)
    requires Faithful(db) && Admissible(db, t.call)
    ensures Faithful(Apply(db, t))
  {
    match t.call
    case DoCreate(c) => CreateKeeps(db, c, t.correlation);
    case DoTransition(i, target, expected, actor) =>
      if i < |db.cases| {
        MoveKeeps(db, i, target,
          Audit(actor, CaseTransitioned, OfCase(i), Some(db.cases[i].status), Some(target), t.correlation));
      }
    case DoVerify(i, how, coverage, actor) => VerifyKeeps(db, i, how, coverage, actor, t.correlation);
    case DoRequest(i, kind, reason, evidence, expiresAt, requestedBy, actor, now) =>
      if Attempt(db, t).Some? {
        var d := Decision(i, kind, Pending, reason, evidence, requestedBy, expiresAt, None);
        SetDecisionsKeeps(db, db.decisions + [d]);
        EmitKeeps(db.(decisions := db.decisions + [d]),
          Audit(actor, DecisionRequested, OfDecision(|db.decisions|), None, None, t.correlation));
      }
    case DoDecide(d, who, approve, reason, now) =>
      if Attempt(db, t).Some? {
        DecideKeeps(db, d, who, approve, db.cases[db.decisions[d].caseId].status, t.correlation);
      }
    case DoRevoke(d, actor) => RevokeKeeps(db, d, actor, t.correlation);
    case DoReopen(i) =>
      if i < |db.cases| {
        MoveKeeps(db, i, Reopened, Audit("system", ExposureReopened, OfCase(i), Some(Closed), Some(Reopened), t.correlation));
      }
    case DoSweep(now, order) => ExpireAllKeeps(db, order);
  }

  /** In every committed state of every run the log determines statuses, versions and the outbox. */
  lemma {:induction false} AuditRefinesState(states: seq<Db>, calls: seq<Traced>, k: nat)
    requires Run(states, calls) && k < |states|
    ensures Faithful(states[k])
  {
    if k > 0 {
      AuditRefinesState(states, calls, k - 1);
      ApplyKeeps(states[k - 1], calls[k - 1]);
    }
  }

  // -- the lifecycle ------------------------------------------------------------------------------

  /** One step of the lifecycle, or none, and the next version exactly when there was one. */
  predicate StepOrStay(before: Case, after: Case, revoked: bool) {
    || after == before
    || (&& after == before.(status := after.status, version := before.version + 1)
        && (after.status in AllowedTransitions(before.status) || (revoked && after.status == Triage)))
  }

  lemma VerifyFollows(db: Db, i: nat, how: string, coverage: Option<Coverage>, actor: string, correlation: string)
    requires Verify(db, i, how, coverage, actor, correlation).Some?
    ensures var db' := Verify(db, i, how, coverage, actor, correlation).value;
            && |db'.cases| == |db.cases|
            && forall j :: 0 <= j < |db.cases| ==> StepOrStay(db.cases[j], db'.cases[j], false)
  {}

  lemma DecideFollows(db: Db, d: nat, who: Approver, approve: bool, reason: string, now: int, correlation: string)
    requires Linked(db) && Decide(db, d, who, approve, reason, now, correlation).Some?
    ensures var db' := Decide(db, d, who, approve, reason, now, correlation).value;
            && |db'.cases| == |db.cases|
            && forall j :: 0 <= j < |db.cases| ==> StepOrStay(db.cases[j], db'.cases[j], false)
  {}

  lemma SweepFollows(db: Db, order: seq<nat>, i: nat)
    requires Linked(db) && Listed(db, order) && i < |db.cases|
    ensures StepOrStay(db.cases[i], ExpireAll(db, order).cases[i], false)
  {
    ExpireAllCases(db, order, i);
  }

  /**
   * Every call moves a case along an edge of the lifecycle or leaves it alone, except a revocation,
   * which forces triage; a case that changed has exactly the next version, and none is removed.
   */
  lemma CallsFollowLifecycle(db: Db, t: Traced, i: nat)
    requires Linked(db) && Admissible(db, t.call) && i < |db.cases|
    ensures i < |Apply(db, t).cases| && StepOrStay(db.cases[i], Apply(db, t).cases[i], t.call.DoRevoke?)
  {
    if t.call.DoSweep? {
      SweepFollows(db, t.call.order, i);
    } else if Attempt(db, t).Some? {
      match t.call
      case DoVerify(j, how, coverage, actor) => VerifyFollows(db, j, how, coverage, actor, t.correlation);
      case DoDecide(d, who, approve, reason, now) => DecideFollows(db, d, who, approve, reason, now, t.correlation);
      case _ =>
    }
  }

  // -- decisions ----------------------------------------------------------------------------------

  /** Where a decision may go: once it has been settled it never becomes pending again. */
  function NextDecisionStatuses(s: DecisionStatus): set<DecisionStatus> {
    match s
    case Pending => {Pending, Approved, Rejected, Revoked}
    case Approved => {Approved, Expired, Revoked}
    case Rejected => {Rejected, Revoked}
    case Expired => {Expired, Revoked}
    case Revoked => {Revoked}
  }

  /** Settling changes the status, and the approval only while the decision is pending. */
  predicate DecisionStep(before: Decision, after: Decision) {
    && after == before.(status := after.status, approval := after.approval)
    && after.status in NextDecisionStatuses(before.status)
    && (after.approval == before.approval || before.status == Pending)
  }

  predicate Expires(before: Decision, after: Decision) {
    after == before || (before.status == Approved && after == before.(status := Expired))
  }

  lemma SweptForward(db: Db, now: int, order: seq<nat>, d: nat)
    requires Linked(db) && DueOrder(db, now, order) && d < |db.decisions|
    ensures Expires(db.decisions[d], ExpireAll(db, order).decisions[d])
  {
    SweepOrderIrrelevant(db, now, order);
  }

  const APPROVER_ROLES: set<string> := {"risk_approver", "security_lead", "policy_admin", "admin"}

  /** Whoever settled the decision is on record, is human, held an approver role and did not request it. */
  predicate FourEyes(d: Decision) {
    && (d.status in {Approved, Rejected, Expired} ==> d.approval.Some?)
    && (d.approval.Some? ==>
          && d.approval.value.human
          && d.approval.value.actor != d.requestedBy && d.approval.value.role in APPROVER_ROLES)
    && (d.status in {Approved, Expired} ==>
          && !d.kind.Unsupported? && !Blank(d.reason) && ValidEvidence(d.evidence) && d.expiresAt.Some?)
  }

  /** What deciding does to the one decision, and to no other. */
  lemma DecideSettles(db: Db, d: nat, who: Approver, approve: bool, reason: string, now: int, correlation: string)
    requires Linked(db) && Decide(db, d, who, approve, reason, now, correlation).Some?
    ensures d < |db.decisions| && db.decisions[d].status == Pending
    ensures var after := Decide(db, d, who, approve, reason, now, correlation).value.decisions;
            && |after| == |db.decisions|
            && DecisionStep(db.decisions[d], after[d]) && FourEyes(after[d])
            && forall e :: 0 <= e < |after| && e != d ==> after[e] == db.decisions[e]
  {}

  /** A call other than an approval or a sweep revokes one decision, appends one, or touches none. */
  lemma OtherCallsKeepDecisions(db: Db, t: Traced, d: nat)
    requires Admissible(db, t.call) && !t.call.DoDecide? && !t.call.DoSweep? && d < |Apply(db, t).decisions|
    ensures |db.decisions| <= |Apply(db, t).decisions|
    ensures var after := Apply(db, t).decisions[d];
            if d < |db.decisions| then after == db.decisions[d] || after == db.decisions[d].(status := Revoked)
            else after.status == Pending && after.approval.None?
  {}

  /** What was asked for is never rewritten, and statuses only move forward. */
  lemma DecisionsFollowLifecycle(db: Db, t: Traced, d: nat)
    requires Linked(db) && Admissible(db, t.call) && d < |db.decisions|
    ensures d < |Apply(db, t).decisions| && DecisionStep(db.decisions[d], Apply(db, t).decisions[d])
  {
    if t.call.DoSweep? {
      SweptForward(db, t.call.now, t.call.order, d);
    } else if t.call.DoDecide? {
      ApprovalSettles(db, t);
    } else {
      DecisionsRemain(db, t);
      OtherCallsKeepDecisions(db, t, d);
    }
  }

  lemma DecisionsRemain(db: Db, t: Traced)
    requires Admissible(db, t.call) && !t.call.DoDecide? && !t.call.DoSweep?
    ensures |db.decisions| <= |Apply(db, t).decisions|
  {}

  ghost predicate Settles(before: seq<Decision>, after: seq<Decision>) {
    && |after| == |before|
    && forall d :: 0 <= d < |after| ==>
         DecisionStep(before[d], after[d]) && (after[d] == before[d] || FourEyes(after[d]))
  }

  lemma OneSettles(before: seq<Decision>, after: seq<Decision>, d: nat)
    requires d < |before| == |after| && DecisionStep(before[d], after[d]) && FourEyes(after[d])
    requires forall e :: 0 <= e < |after| && e != d ==> after[e] == before[e]
    ensures Settles(before, after)
  {}

  lemma ApprovalSettles(db: Db, t: Traced)
    requires Linked(db) && t.call.DoDecide?
    ensures Settles(db.decisions, Apply(db, t).decisions)
  {
    if Attempt(db, t).Some? {
      DecideSettles(db, t.call.id, t.call.who, t.call.approve, t.call.reason, t.call.now, t.correlation);
      OneSettles(db.decisions, Apply(db, t).decisions, t.call.id);
    }
  }

  lemma ApplyFourEyes(db: Db, t: Traced, d: nat)
    requires Linked(db) && Admissible(db, t.call) && d < |Apply(db, t).decisions|
    requires d < |db.decisions| ==> FourEyes(db.decisions[d])
    ensures FourEyes(Apply(db, t).decisions[d])
  {
    if t.call.DoSweep? {
      SweptForward(db, t.call.now, t.call.order, d);
    } else if t.call.DoDecide? {
      ApprovalSettles(db, t);
    } else {
      OtherCallsKeepDecisions(db, t, d);
    }
  }

  /** In every run no decision was ever settled by its requester, by a service or without an approver
      role, and every approved one has a reason, evidence, a supported kind and an expiry. */
  lemma {:induction false} FourEyesAlways(states: seq<Db>, calls: seq<Traced>, k: nat, d: nat)
    requires Run(states, calls) && k < |states| && d < |states[k].decisions|
    ensures FourEyes(states[k].decisions[d])
  {
    if k > 0 {
      AuditRefinesState(states, calls, k - 1);
      if d < |states[k - 1].decisions| {
        FourEyesAlways(states, calls, k - 1, d);
      }
      ApplyFourEyes(states[k - 1], calls[k - 1], d);
    }
  }

  // -- expiry safety ------------------------------------------------------------------------------

  /** Risk is accepted by approval only: no bare transition targets the accepted state. */
  ghost predicate OnlyApprovalAccepts(calls: seq<Traced>) {
    forall k :: 0 <= k < |calls| && calls[k].call.DoTransition? ==> calls[k].call.target != RiskAccepted
  }

  predicate Backs(decision: Decision, i: nat) {
    && decision.caseId == i && decision.status == Approved
    && AcceptanceKind(decision.kind) && decision.expiresAt.Some?
  }

  /** Every risk-accepted case is backed by an approved acceptance with an expiry. */
  ghost predicate Backed(db: Db) {
    forall i :: 0 <= i < |db.cases| && db.cases[i].status == RiskAccepted ==>
      exists d :: 0 <= d < |db.decisions| && Backs(db.decisions[d], i)
  }

  /** A change that keeps every backing decision and accepts no new case. */
  lemma BackedCarriesOver(db: Db, db': Db)
    requires Backed(db) && |db.decisions| <= |db'.decisions|
    requires forall d :: 0 <= d < |db.decisions| && db.decisions[d].status == Approved ==> db'.decisions[d] == db.decisions[d]
    requires forall i :: 0 <= i < |db'.cases| && db'.cases[i].status == RiskAccepted ==>
               i < |db.cases| && db.cases[i].status == RiskAccepted
    ensures Backed(db')
  {
    forall i | 0 <= i < |db'.cases| && db'.cases[i].status == RiskAccepted
      ensures exists d :: 0 <= d < |db'.decisions| && Backs(db'.decisions[d], i)
    {
      var d :| 0 <= d < |db.decisions| && Backs(db.decisions[d], i);
      assert Backs(db'.decisions[d], i);
    }
  }

  lemma ApprovalBacks(db: Db, d: nat, who: Approver, approve: bool, reason: string, now: int, correlation: string)
    requires Linked(db) && Backed(db)
    ensures Backed(Decide(db, d, who, approve, reason, now, correlation).GetOr(db))
  {
    var r := Decide(db, d, who, approve, reason, now, correlation);
    if r.Some? {
      var i := db.decisions[d].caseId;
      forall j | 0 <= j < |r.value.cases| && r.value.cases[j].status == RiskAccepted
        ensures exists e :: 0 <= e < |r.value.decisions| && Backs(r.value.decisions[e], j)
      {
        if j == i && approve {
          assert Backs(r.value.decisions[d], j);
        } else {
          var e :| 0 <= e < |db.decisions| && Backs(db.decisions[e], j);
          assert Backs(r.value.decisions[e], j);
        }
      }
    }
  }

  lemma RevocationUnbacksNothing(db: Db, d: nat, actor: string, correlation: string)
    requires Linked(db) && Backed(db)
    ensures Backed(Revoke(db, d, actor, correlation).GetOr(db))
  {
    var r := Revoke(db, d, actor, correlation);
    if r.Some? {
      forall j | 0 <= j < |r.value.cases| && r.value.cases[j].status == RiskAccepted
        ensures exists e :: 0 <= e < |r.value.decisions| && Backs(r.value.decisions[e], j)
      {
        var e :| 0 <= e < |db.decisions| && Backs(db.decisions[e], j);
        assert Backs(r.value.decisions[e], j);
      }
    }
  }

  /** After a sweep every risk-accepted case has an acceptance that expires later. */
  lemma SweepLeavesUnexpired(db: Db, now: int, order: seq<nat>, i: nat)
    requires Linked(db) && Backed(db) && DueOrder(db, now, order)
    requires i < |db.cases| && ExpireAll(db, order).cases[i].status == RiskAccepted
    ensures exists d :: 0 <= d < |db.decisions| && Backs(ExpireAll(db, order).decisions[d], i)
                        && ExpireAll(db, order).decisions[d].expiresAt.value > now
  {
    SweepOrderIrrelevant(db, now, order);
    var d :| 0 <= d < |db.decisions| && Backs(db.decisions[d], i);
    assert !Due(db.decisions[d], now);
    assert Backs(ExpireAll(db, order).decisions[d], i);
  }

  lemma ApplyBacked(db: Db, t: Traced)
    requires Linked(db) && Backed(db) && Admissible(db, t.call)
    requires t.call.DoTransition? ==> t.call.target != RiskAccepted
    ensures Backed(Apply(db, t))
  {
    match t.call
    case DoDecide(d, who, approve, reason, now) => ApprovalBacks(db, d, who, approve, reason, now, t.correlation);
    case DoRevoke(d, actor) => RevocationUnbacksNothing(db, d, actor, t.correlation);
    case DoSweep(now, order) =>
      forall i | 0 <= i < |db.cases| && ExpireAll(db, order).cases[i].status == RiskAccepted
        ensures exists d :: 0 <= d < |db.decisions| && Backs(ExpireAll(db, order).decisions[d], i)
      {
        SweepLeavesUnexpired(db, now, order, i);
      }
    case _ => BackedCarriesOver(db, Apply(db, t));
  }

  lemma {:induction false} RunBacked(states: seq<Db>, calls: seq<Traced>, k: nat)
    requires Run(states, calls) && OnlyApprovalAccepts(calls) && k < |states|
    ensures Backed(states[k])
  {
    if k > 0 {
      RunBacked(states, calls, k - 1);
      AuditRefinesState(states, calls, k - 1);
      ApplyBacked(states[k - 1], calls[k - 1]);
    }
  }

  /** Expiry safety over runs: accepted cases are always backed, and after a sweep by an unexpired decision. */
  lemma ExpirySafety(states: seq<Db>, calls: seq<Traced>, k: nat, i: nat)
    requires Run(states, calls) && OnlyApprovalAccepts(calls) && k < |calls|
    requires i < |states[k + 1].cases| && states[k + 1].cases[i].status == RiskAccepted
    ensures var s := states[k + 1];
            exists d :: 0 <= d < |s.decisions| && Backs(s.decisions[d], i)
                        && (calls[k].call.DoSweep? ==> s.decisions[d].expiresAt.value > calls[k].call.now)
  {
    RunBacked(states, calls, k + 1);
    if calls[k].call.DoSweep? {
      RunBacked(states, calls, k);
      AuditRefinesState(states, calls, k);
      SweepLeavesUnexpired(states[k], calls[k].call.now, calls[k].call.order, i);
    }
  }

  /** The call is a bare transition that accepts the risk of a case nobody's approval backs. */
  ghost predicate UnbackedAcceptance(db: Db, t: Traced) {
    && t.call.DoTransition? && t.call.target == RiskAccepted
    && Transition(db, t.call.id, t.call.target, t.call.expected, t.call.actor, t.correlation).Some?
    && forall d :: 0 <= d < |db.decisions| ==> !Backs(db.decisions[d], t.call.id)
  }

  lemma BackedStepExactly(db: Db, t: Traced)
    requires Linked(db) && Backed(db) && Admissible(db, t.call)
    ensures Backed(Apply(db, t)) <==> !UnbackedAcceptance(db, t)
  {
    if t.call.DoTransition? && t.call.target == RiskAccepted {
      var after := Apply(db, t);
      if UnbackedAcceptance(db, t) {
        assert after.cases[t.call.id].status == RiskAccepted;
      } else if Attempt(db, t).Some? {
        forall i | 0 <= i < |after.cases| && after.cases[i].status == RiskAccepted
          ensures exists d :: 0 <= d < |after.decisions| && Backs(after.decisions[d], i)
        {
          assert after.decisions == db.decisions;
          if i != t.call.id {
            assert db.cases[i].status == RiskAccepted;
          }
        }
      }
    } else {
      ApplyBacked(db, t);
    }
  }

  /** Exactly when accepted cases stay backed through a whole run: no call is an unbacked acceptance. */
  lemma BackedExactly(states: seq<Db>, calls: seq<Traced>)
    requires Run(states, calls)
    ensures (forall k :: 0 <= k < |states| ==> Backed(states[k]))
            <==> forall k :: 0 <= k < |calls| ==> !UnbackedAcceptance(states[k], calls[k])
  {
    if forall k :: 0 <= k < |states| ==> Backed(states[k]) {
      forall k | 0 <= k < |calls| ensures !UnbackedAcceptance(states[k], calls[k]) {
        AuditRefinesState(states, calls, k);
        assert Backed(states[k + 1]);
        BackedStepExactly(states[k], calls[k]);
      }
    }
    if forall k :: 0 <= k < |calls| ==> !UnbackedAcceptance(states[k], calls[k]) {
      forall k | 0 <= k < |states| ensures Backed(states[k]) {
        StaysBacked(states, calls, k);
      }
    }
  }

  lemma {:induction false} StaysBacked(states: seq<Db>, calls: seq<Traced>, k: nat)
    requires Run(states, calls) && k < |states|
    requires forall j :: 0 <= j < k ==> !UnbackedAcceptance(states[j], calls[j])
    ensures Backed(states[k])
  {
    if k > 0 {
      StaysBacked(states, calls, k - 1);
      AuditRefinesState(states, calls, k - 1);
      BackedStepExactly(states[k - 1], calls[k - 1]);
    }
  }

  /** Without that restriction a bare transition accepts a risk nobody approved. */
  lemma BareTransitionAccepts() returns (states: seq<Db>, calls: seq<Traced>)
    ensures Run(states, calls) && !Backed(states[|calls|])
  {
    var c := NewCase("org", "team", false, P2, "v", []);
    calls := [
      Traced(DoCreate(c), "a"),
      Traced(DoTransition(0, Triage, None, "u"), "b"),
      Traced(DoTransition(0, RiskAccepted, None, "u"), "c")];
    var s1 := Apply(EMPTY, calls[0]);
    var s2 := Apply(s1, calls[1]);
    states := [EMPTY, s1, s2, Apply(s2, calls[2])];
    assert states[3].cases[0].status == RiskAccepted && states[3].decisions == [];
  }
}
