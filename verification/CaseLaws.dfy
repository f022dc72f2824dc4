/** What the case operations decide, in terms a caller can check beforehand. */
module CaseLaws {
  import opened Domain
  import opened Text
  import opened Cases
  import opened CaseRuns

  // -- verification -------------------------------------------------------------------------------

  /** The verification proves the remediation: complete coverage, by a method that may close a case. */
  predicate Proves(how: string, coverage: Option<Coverage>) {
    match coverage
    case None => false
    case Some(c) =>
      && (c.status == Some("complete") || c.status == Some("success") || c.status == Some("ok"))
      && how != "manual_attestation" && how != "vex"
      && !(how == "scanner" && !c.hasScope)
      && !(how == "wazuh_inventory" && c.freshnessSeconds.Some? && c.freshnessSeconds.value > 86400)
  }

  /** Exactly when a verification succeeds, when it closes the case, and what it logs otherwise. */
  lemma VerifyExactly(db: Db, i: nat, how: string, coverage: Option<Coverage>, actor: string, correlation: string)
    ensures var r := Verify(db, i, how, coverage, actor, correlation);
            && (r.Some? <==> i < |db.cases| && db.cases[i].status == AwaitingVerification)
            && (r.Some? ==>
                  && |r.value.cases| == |db.cases| && r.value.decisions == db.decisions
                  && (r.value.cases[i].status == Closed <==> Proves(how, coverage))
                  && (!Proves(how, coverage) ==> r.value.cases == db.cases)
                  && (forall j :: 0 <= j < |db.cases| && j != i ==> r.value.cases[j] == db.cases[j])
                  && |r.value.audit| == |db.audit| + 1
                  && r.value.audit[|db.audit|].action ==
                       (if Proves(how, coverage) then VerificationCompleted
                        else if how == "manual_attestation" then VerificationNeedsApproval
                        else VerificationFailed))
  {}

  /** The call, made in `db`, closes case `i`: a verification that proves the remediation, or a bare
      transition; the case awaits verification. */
  predicate Closes(db: Db, t: Traced, i: nat) {
    && i < |db.cases| && db.cases[i].status == AwaitingVerification
    && match t.call
       case DoVerify(j, how, coverage, _) => j == i && Proves(how, coverage)
       case DoTransition(j, target, _, _) => j == i && target == Closed
       case _ => false
  }

  lemma OnlyClosersClose(db: Db, t: Traced, i: nat)
    requires Linked(db) && Admissible(db, t.call)
    requires i < |Apply(db, t).cases| && Apply(db, t).cases[i].status == Closed
    ensures i < |db.cases|
    ensures db.cases[i].status == Closed || Closes(db, t, i)
  {
    if i < |db.cases| {
      match t.call
      case DoVerify(j, how, coverage, actor) => VerifyExactly(db, j, how, coverage, actor, t.correlation);
      case DoDecide(d, who, approve, reason, now) =>
        if Attempt(db, t).Some? { DecideFollows(db, d, who, approve, reason, now, t.correlation); }
      case DoSweep(now, order) => ExpireAllCases(db, order, i);
      case _ =>
    }
  }

  lemma ClosedBefore(states: seq<Db>, calls: seq<Traced>, k: nat, i: nat)
    requires Run(states, calls) && 0 < k < |states| && i < |states[k].cases| && states[k].cases[i].status == Closed
    ensures i < |states[k - 1].cases|
    ensures states[k - 1].cases[i].status == Closed || Closes(states[k - 1], calls[k - 1], i)
  {
    AuditRefinesState(states, calls, k - 1);
    OnlyClosersClose(states[k - 1], calls[k - 1], i);
  }

  /** A case found closed in a run was closed by a verification that proved the remediation or by a bare
      transition, from awaiting verification, and has been closed ever since. */
  lemma {:induction false} ClosedWasClosedBy(states: seq<Db>, calls: seq<Traced>, k: nat, i: nat) returns (j: nat)
    requires Run(states, calls) && k < |states| && i < |states[k].cases| && states[k].cases[i].status == Closed
    ensures j < k && Closes(states[j], calls[j], i)
    ensures forall m :: j < m <= k ==> i < |states[m].cases| && states[m].cases[i].status == Closed
  {
    assert k > 0;
    ClosedBefore(states, calls, k, i);
    if Closes(states[k - 1], calls[k - 1], i) {
      j := k - 1;
    } else {
      j := ClosedWasClosedBy(states, calls, k - 1, i);
    }
  }

  // -- the lifecycle ------------------------------------------------------------------------------

  /** The lifecycle seen from its targets. */
  lemma LifecycleInverse(from: Status)
    ensures Triage in AllowedTransitions(from) <==>
              from in {New, Assigned, InProgress, RiskAccepted, NotApplicable, Reopened}
    ensures Assigned in AllowedTransitions(from) <==> from == Triage
    ensures NotApplicable in AllowedTransitions(from) <==> from == Triage
    ensures RiskAccepted in AllowedTransitions(from) <==> from == Triage
    ensures InProgress in AllowedTransitions(from) <==> from in {Assigned, AwaitingVerification}
    ensures AwaitingVerification in AllowedTransitions(from) <==> from == InProgress
    ensures Closed in AllowedTransitions(from) <==> from == AwaitingVerification
    ensures Reopened in AllowedTransitions(from) <==> from == Closed
    ensures New !in AllowedTransitions(from)
  {}

  /** Exactly when a transition succeeds, and that it then moves this case only. */
  lemma TransitionExactly(db: Db, i: nat, target: Status, expected: Option<nat>, actor: string, correlation: string)
    ensures var r := Transition(db, i, target, expected, actor, correlation);
            && (r.Some? <==>
                  && i < |db.cases| && target in AllowedTransitions(db.cases[i].status)
                  && (expected.Some? ==> expected.value == db.cases[i].version))
            && (r.Some? ==>
                  && r.value.cases == db.cases[i := db.cases[i].(status := target, version := db.cases[i].version + 1)]
                  && r.value.decisions == db.decisions)
  {}

  // -- risk decisions -----------------------------------------------------------------------------

  /** Words as the service compares them. */
  predicate Carries(words: seq<string>, word: string) {
    exists w | w in words :: Lower(Strip(w)) == word
  }

  /** Which approver role counts: the first of the four that the actor carries. */
  lemma RoleExactly(roles: seq<string>)
    ensures ApprovalRole(roles) ==
            if Carries(roles, "risk_approver") then Some("risk_approver")
            else if Carries(roles, "security_lead") then Some("security_lead")
            else if Carries(roles, "policy_admin") then Some("policy_admin")
            else if Carries(roles, "admin") then Some("admin")
            else None
  {}

  predicate Substantiated(evidence: seq<string>) {
    |evidence| > 0 && forall k | 0 <= k < |evidence| :: Strip(evidence[k]) != ""
  }

  lemma EvidenceExactly(evidence: seq<string>)
    ensures ValidEvidence(evidence) <==> Substantiated(evidence)
  {
    assert forall k :: 0 <= k < |evidence| ==> evidence[k] in evidence;
  }

  /** Exactly when a decision may be requested; it then waits for approval and no case moves. */
  lemma RequestExactly(db: Db, i: nat, kind: Kind, reason: string, evidence: seq<string>, expiresAt: Option<int>,
                       requestedBy: string, actor: string, now: int, correlation: string)
    ensures var r := RequestDecision(db, i, kind, reason, evidence, expiresAt, requestedBy, actor, now, correlation);
            && (r.Some? <==>
                  && i < |db.cases| && actor == requestedBy && !kind.Unsupported? && Strip(reason) != ""
                  && Substantiated(evidence) && expiresAt.Some? && now < expiresAt.value)
            && (r.Some? ==>
                  && r.value.cases == db.cases && |r.value.decisions| == |db.decisions| + 1
                  && r.value.decisions[..|db.decisions|] == db.decisions
                  && r.value.decisions[|db.decisions|].status == Pending
                  && r.value.decisions[|db.decisions|].caseId == i)
  {
    EvidenceExactly(evidence);
  }

  /** Who may settle a decision, and on what request. */
  predicate Eligible(decision: Decision, who: Approver, reason: string) {
    && decision.status == Pending && who.human && who.actor != decision.requestedBy && Strip(reason) != ""
    && Carries(who.capabilities, "risk:approve")
    && (|| Carries(who.roles, "risk_approver") || Carries(who.roles, "security_lead")
        || Carries(who.roles, "policy_admin") || Carries(who.roles, "admin"))
  }

  /** The request still deserves approval: it is complete and has not lapsed. */
  predicate Approvable(decision: Decision, now: int) {
    && !decision.kind.Unsupported? && Strip(decision.reason) != "" && Substantiated(decision.evidence)
    && decision.expiresAt.Some? && now < decision.expiresAt.value
  }

  /** Exactly when a decision is settled. An approval needs the case in triage, whatever the kind. */
  lemma DecideExactly(db: Db, d: nat, who: Approver, approve: bool, reason: string, now: int, correlation: string)
    ensures Decide(db, d, who, approve, reason, now, correlation).Some? <==>
              && d < |db.decisions| && db.decisions[d].caseId < |db.cases|
              && Eligible(db.decisions[d], who, reason)
              && (approve ==>
                    Approvable(db.decisions[d], now) && db.cases[db.decisions[d].caseId].status == Triage)
  {
    RoleExactly(who.roles);
    if d < |db.decisions| && db.decisions[d].caseId < |db.cases| {
      EvidenceExactly(db.decisions[d].evidence);
      LifecycleInverse(db.cases[db.decisions[d].caseId].status);
    }
  }

  /** What settling does: an approval of an acceptance, waiver or compensating control accepts the risk,
      one of a false positive or not-affected claim dismisses the case, a rejection moves nothing. */
  lemma DecideMoves(db: Db, d: nat, who: Approver, approve: bool, reason: string, now: int, correlation: string)
    requires Decide(db, d, who, approve, reason, now, correlation).Some?
    ensures d < |db.decisions| && db.decisions[d].caseId < |db.cases|
    ensures var after, i := Decide(db, d, who, approve, reason, now, correlation).value, db.decisions[d].caseId;
            if !approve then after.cases == db.cases
            else
              && |after.cases| == |db.cases|
              && after.cases[i].version == db.cases[i].version + 1
              && after.cases[i].status ==
                   (if db.decisions[d].kind in {RiskAcceptance, Waiver, CompensatingControl} then RiskAccepted else NotApplicable)
              && forall j :: 0 <= j < |db.cases| && j != i ==> after.cases[j] == db.cases[j]
  {}

  /** What a revocation does, in any status of decision and case. */
  lemma RevokeExactly(db: Db, d: nat, actor: string, correlation: string)
    requires Linked(db)
    ensures Revoke(db, d, actor, correlation).Some? <==> d < |db.decisions|
    ensures d < |db.decisions| ==>
              var after, i := Revoke(db, d, actor, correlation).value, db.decisions[d].caseId;
              && after.decisions == db.decisions[d := db.decisions[d].(status := Revoked)]
              && after.cases == db.cases[i := db.cases[i].(status := Triage, version := db.cases[i].version + 1)]
  {}

  /** What a sweep does to one decision: it expires exactly at, not before, its time. */
  lemma SweepExactly(db: Db, now: int, order: seq<nat>, d: nat)
    requires Linked(db) && DueOrder(db, now, order) && d < |db.decisions|
    ensures ExpireAll(db, order).decisions[d].status ==
            (if db.decisions[d].status == Approved && db.decisions[d].expiresAt.Some? && db.decisions[d].expiresAt.value <= now
             then Expired else db.decisions[d].status)
  {
    SweepOrderIrrelevant(db, now, order);
  }

  /** What a sweep does to one case: an accepted one with a lapsed decision returns to triage, once. */
  lemma SweepCaseExactly(db: Db, now: int, order: seq<nat>, i: nat)
    requires Linked(db) && DueOrder(db, now, order) && i < |db.cases|
    ensures var lapsed := exists d :: 0 <= d < |db.decisions| && db.decisions[d].caseId == i
                            && db.decisions[d].status == Approved
                            && db.decisions[d].expiresAt.Some? && db.decisions[d].expiresAt.value <= now;
            ExpireAll(db, order).cases[i] ==
            if db.cases[i].status == RiskAccepted && lapsed
            then db.cases[i].(status := Triage, version := db.cases[i].version + 1) else db.cases[i]
  {
    SweepOrderIrrelevant(db, now, order);
    assert forall d :: 0 <= d < |db.decisions| ==> (Due(db.decisions[d], now) <==>
      db.decisions[d].status == Approved && db.decisions[d].expiresAt.Some? && db.decisions[d].expiresAt.value <= now);
  }

  /** A sweep at the time of an approval leaves the approved decision and its case alone, provided no
      other decision of that case is due. */
  lemma FreshApprovalSurvives(db: Db, d: nat, who: Approver, reason: string, now: int, correlation: string, order: seq<nat>)
    requires Linked(db) && Decide(db, d, who, true, reason, now, correlation).Some?
    requires var after := Decide(db, d, who, true, reason, now, correlation).value;
             && Linked(after) && DueOrder(after, now, order)
             && forall e :: 0 <= e < |db.decisions| && e != d && db.decisions[e].caseId == db.decisions[d].caseId ==>
                  !(db.decisions[e].status == Approved && db.decisions[e].expiresAt.Some? && db.decisions[e].expiresAt.value <= now)
    ensures var after := Decide(db, d, who, true, reason, now, correlation).value;
            && ExpireAll(after, order).decisions[d] == after.decisions[d]
            && ExpireAll(after, order).cases[db.decisions[d].caseId] == after.cases[db.decisions[d].caseId]
  {
    var after := Decide(db, d, who, true, reason, now, correlation).value;
    DecideExactly(db, d, who, true, reason, now, correlation);
    DecideSettles(db, d, who, true, reason, now, correlation);
    SweepOrderIrrelevant(after, now, order);
    assert !HasDue(after, db.decisions[d].caseId, now);
  }

  /** Every entry that records a status calls for exactly one outbox row about the same subject. */
  lemma StatusEntriesPublish(a: Audit)
    requires StatusRecorded(a).Some?
    ensures |RowsFor(a)| == 1 && RowsFor(a)[0].aggregate == a.subject && RowsFor(a)[0].correlation == a.correlation
  {}

  /** Entries of different actions publish different event types; the kind of a decision is no part of it. */
  lemma EventTypesDiffer(a: Action, b: Action)
    requires EventTypeOf(a).Some? && EventTypeOf(a) == EventTypeOf(b)
    ensures a == b || (a.DecisionAccepted? && b.DecisionAccepted?)
  {}

  /** A new case is appended as it is; the service itself logs its creation, and its escalation exactly
      when it escalates, which alone has no outbox row. */
  lemma CreateExactly(db: Db, c: Case, correlation: string)
    ensures var r, id := CreateCase(db, c, correlation), |db.cases|;
            && r.cases == db.cases + [c] && r.decisions == db.decisions
            && |r.outbox| == |db.outbox| + 1
            && r.audit == db.audit + [Audit("system", CaseCreated, OfCase(id), None, Some(New), correlation)]
                 + if c.escalated then [Audit("system", OwnershipEscalated, OfCase(id), None, None, correlation)] else []
  {}

  /** Exactly when new evidence reopens a case, and what it writes. */
  lemma ReopenExactly(db: Db, i: nat, correlation: string)
    ensures var r := Reopen(db, i, correlation);
            && (r.Some? <==> i < |db.cases| && db.cases[i].status == Closed)
            && (r.Some? ==>
                  && r.value.cases == db.cases[i := db.cases[i].(status := Reopened, version := db.cases[i].version + 1)]
                  && r.value.decisions == db.decisions
                  && r.value.audit == db.audit +
                       [Audit("system", ExposureReopened, OfCase(i), Some(Closed), Some(Reopened), correlation)])
  {}

  /** What one expiry writes: the service logs the case's return to triage, and nothing for a case that
      had already left the accepted status. */
  lemma ExpiryLogs(db: Db, d: nat)
    requires d < |db.decisions| && db.decisions[d].caseId < |db.cases|
    ensures var i, r := db.decisions[d].caseId, ExpireOne(db, d);
            r.audit == db.audit +
              if db.cases[i].status == RiskAccepted
              then [Audit("system", DecisionExpired, OfCase(i), Some(RiskAccepted), Some(Triage), "")] else []
  {}
}
