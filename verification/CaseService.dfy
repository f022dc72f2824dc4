/** The case service over its tables: each method is one transaction on the fields. */
module CaseServiceModule {
  import opened Domain
  import opened Text
  import opened Cases
  import Ownership

  class CaseService {
    var cases: seq<Case>
    var decisions: seq<Decision>
    var audit: seq<Audit>
    var outbox: seq<OutboxRow>
    const inventory: Ownership.Inventory
    const defaultOwnerTeam: string

    /** The committed tables. */
    function Tables(): Db
      reads this
    {
      Db(cases, decisions, audit, outbox)
    }

    constructor (inventory: Ownership.Inventory, defaultOwnerTeam: string)
      ensures Tables() == EMPTY && this.inventory == inventory && this.defaultOwnerTeam == defaultOwnerTeam
    {
      this.inventory, this.defaultOwnerTeam := inventory, defaultOwnerTeam;
      cases, decisions, audit, outbox := [], [], [], [];
    }

    method Log(a: Audit)
      modifies this`audit, this`outbox
      ensures Tables() == Emit(old(Tables()), a)
    {
      audit := audit + [a];
      var t := EventTypeOf(a.action);
      if t.Some? {
        outbox := outbox + [OutboxRow(a.subject, t.value, a.correlation)];
      }
    }

    method CreateCase(organization: string, requestedOwner: string, priority: Priority, policyVersion: string,
                      exposures: seq<nat>, assetId: string, correlation: string)
      returns (id: nat, r: Result<Ownership.CaseOwnership>)
      modifies this`cases, this`audit, this`outbox
      ensures Ownership.Outcome(inventory, organization, requestedOwner, priority,
                Ownership.LinkedAssets(inventory, organization, exposures, assetId),
                Ownership.DefaultTeam(defaultOwnerTeam), r)
      ensures r.Err? ==> Tables() == old(Tables())
      ensures r.Ok? ==>
                && id == |old(cases)|
                && Tables() == Cases.CreateCase(old(Tables()),
                     NewCase(organization, r.value.owner.team, r.value.escalated, priority, policyVersion, exposures),
                     correlation)
    {
      id := |cases|;
      r := Ownership.ResolveCaseOwnership(
        inventory, organization, requestedOwner, priority, exposures, assetId, defaultOwnerTeam);
      if r.Err? { return; }
      cases := cases + [Case(organization, r.value.owner.team, r.value.escalated, priority, policyVersion, exposures, New, 1)];
      Log(Audit("system", CaseCreated, OfCase(id), None, Some(New), correlation));
      if r.value.escalated {
        Log(Audit("system", OwnershipEscalated, OfCase(id), None, None, correlation));
      }
    }

    method Transition(i: nat, target: Status, expected: Option<nat>, actor: string, correlation: string) returns (ok: bool)
      modifies this`cases, this`audit, this`outbox
      ensures ok <==> Cases.Transition(old(Tables()), i, target, expected, actor, correlation).Some?
      ensures Tables() == Cases.Transition(old(Tables()), i, target, expected, actor, correlation).GetOr(old(Tables()))
    {
      if i >= |cases| { return false; }
      var prior := cases[i].status;
      if target !in AllowedTransitions(prior) { return false; }
      if expected.Some? {
        if cases[i].version != expected.value { return false; }
        cases := cases[i := cases[i].(status := target, version := expected.value + 1)];
      } else {
        cases := cases[i := cases[i].(status := target, version := cases[i].version + 1)];
      }
      Log(Audit(actor, CaseTransitioned, OfCase(i), Some(prior), Some(target), correlation));
      ok := true;
    }

    method Verify(i: nat, how: string, coverage: Option<Coverage>, actor: string, correlation: string) returns (ok: bool)
      modifies this`cases, this`audit, this`outbox
      ensures ok <==> Cases.Verify(old(Tables()), i, how, coverage, actor, correlation).Some?
      ensures Tables() == Cases.Verify(old(Tables()), i, how, coverage, actor, correlation).GetOr(old(Tables()))
    {
      if i >= |cases| || cases[i].status != AwaitingVerification { return false; }
      var action := VerificationFailed;
      if ClosesCase(how, coverage) {
        cases := cases[i := cases[i].(status := Closed, version := cases[i].version + 1)];
        action := VerificationCompleted;
      } else if how == "manual_attestation" {
        action := VerificationNeedsApproval;
      }
      Log(Audit(actor, action, OfCase(i), None, None, correlation));
      ok := true;
    }

    method CreateRiskDecision(i: nat, kind: Kind, reason: string, evidence: seq<string>, expiresAt: Option<int>,
                              requestedBy: string, actor: string, now: int, correlation: string) returns (ok: bool)
      modifies this`decisions, this`audit, this`outbox
      ensures var r := RequestDecision(old(Tables()), i, kind, reason, evidence, expiresAt, requestedBy, actor, now, correlation);
              (ok <==> r.Some?) && Tables() == r.GetOr(old(Tables()))
    {
      if actor != requestedBy || kind.Unsupported? || Blank(reason) || !ValidEvidence(evidence) { return false; }
      if !InFuture(expiresAt, now) || i >= |cases| { return false; }
      decisions := decisions + [Decision(i, kind, Pending, reason, evidence, requestedBy, expiresAt, None)];
      Log(Audit(actor, DecisionRequested, OfDecision(|decisions| - 1), None, None, correlation));
      ok := true;
    }

    method ApproveRiskDecision(d: nat, who: Approver, approve: bool, reason: string, now: int, correlation: string)
      returns (ok: bool)
      modifies this`cases, this`decisions, this`audit, this`outbox
      ensures ok <==> Decide(old(Tables()), d, who, approve, reason, now, correlation).Some?
      ensures Tables() == Decide(old(Tables()), d, who, approve, reason, now, correlation).GetOr(old(Tables()))
    {
      if d >= |decisions| || !MayDecide(decisions[d], who, approve, reason, now) { return false; }
      var role := ApprovalRole(who.roles).value;
      var i := decisions[d].caseId;
      if i >= |cases| { return false; }
      var prior, kind := cases[i].status, decisions[d].kind;
      var saved := decisions;
      decisions := decisions[d := decisions[d].(
        status := if approve then Approved else Rejected, approval := Some(Approval(who.actor, role, who.human)))];
      if approve {
        if TargetOf(kind) !in AllowedTransitions(prior) {
          decisions := saved;  // rollback of the claimed row
          return false;
        }
        cases := cases[i := cases[i].(status := TargetOf(kind), version := cases[i].version + 1)];
        Log(Audit(who.actor, DecisionAccepted(kind), OfDecision(d), Some(prior), Some(TargetOf(kind)), correlation));
      } else {
        Log(Audit(who.actor, DecisionRejected, OfDecision(d), None, None, correlation));
      }
      ok := true;
    }

    method RevokeDecision(d: nat, actor: string, correlation: string) returns (ok: bool)
      modifies this`cases, this`decisions, this`audit, this`outbox
      ensures ok <==> Revoke(old(Tables()), d, actor, correlation).Some?
      ensures Tables() == Revoke(old(Tables()), d, actor, correlation).GetOr(old(Tables()))
    {
      if d >= |decisions| || decisions[d].caseId >= |cases| { return false; }
      var i := decisions[d].caseId;
      var prior := cases[i].status;
      decisions := decisions[d := decisions[d].(status := Revoked)];
      cases := cases[i := cases[i].(status := Triage, version := cases[i].version + 1)];
      Log(Audit(actor, DecisionRevoked, OfCase(i), Some(prior), Some(Triage), correlation));
      ok := true;
    }

    /** Of the rows the database answers with, those whose expiry has passed. */
    method CollectDue(now: int, rows: seq<nat>) returns (due: seq<nat>)
      requires forall k :: 0 <= k < |rows| ==> rows[k] < |decisions| && decisions[rows[k]].expiresAt.Some?
      requires forall j, k :: 0 <= j < k < |rows| ==> rows[j] != rows[k]
      ensures forall d: nat :: d in due <==> d in rows && decisions[d].expiresAt.value <= now
      ensures forall j, k :: 0 <= j < k < |due| ==> due[j] != due[k]
    {
      due := [];
      for n := 0 to |rows|
        invariant forall d: nat :: d in due <==> d in rows[..n] && decisions[d].expiresAt.value <= now
        invariant forall j, k :: 0 <= j < k < |due| ==> due[j] != due[k]
      {
        assert rows[n] !in rows[..n];
        assert rows[..n + 1] == rows[..n] + [rows[n]];
        if decisions[rows[n]].expiresAt.value <= now {
          due := due + [rows[n]];
        }
      }
      assert rows[..|rows|] == rows;
    }

    method ExpireDue(due: seq<nat>) returns (count: nat)
      requires Linked(Tables()) && Listed(Tables(), due)
      modifies this`cases, this`decisions, this`audit, this`outbox
      ensures Tables() == ExpireAll(old(Tables()), due) && count == |due|
    {
      ghost var before := Tables();
      count := 0;
      for k := 0 to |due|
        invariant count == k
        invariant Tables() == ExpireAll(before, due[..k])
      {
        assert due[..k + 1][..k] == due[..k];
        var d := due[k];
        var i := decisions[d].caseId;
        decisions := decisions[d := decisions[d].(status := Expired)];
        if cases[i].status == RiskAccepted {
          cases := cases[i := cases[i].(status := Triage, version := cases[i].version + 1)];
          Log(Audit("system", DecisionExpired, OfCase(i), Some(RiskAccepted), Some(Triage), ""));
        }
        count := count + 1;
      }
      assert due[..|due|] == due;
    }

    /** `rows` is the answer of the database: every approved decision with an expiry, in any order. */
    method ProcessExpirations(now: int, rows: seq<nat>) returns (count: nat)
      requires Linked(Tables())
      requires forall d: nat :: d in rows <==> d < |decisions| && decisions[d].status == Approved && decisions[d].expiresAt.Some?
      requires forall j, k :: 0 <= j < k < |rows| ==> rows[j] != rows[k]
      modifies this`cases, this`decisions, this`audit, this`outbox
      ensures decisions == SweptDecisions(old(Tables()), now)
      ensures cases == SweptCases(old(Tables()), now)
      ensures exists order :: DueOrder(old(Tables()), now, order) && Tables() == ExpireAll(old(Tables()), order) && count == |order|
    {
      assert forall k :: 0 <= k < |rows| ==> rows[k] in rows;
      var due := CollectDue(now, rows);
      assert forall k :: 0 <= k < |due| ==> due[k] in due;
      assert DueOrder(Tables(), now, due);
      SweepOrderIrrelevant(Tables(), now, due);
      count := ExpireDue(due);
    }

    method ReopenOnEvidence(i: nat, correlation: string) returns (ok: bool)
      modifies this`cases, this`audit, this`outbox
      ensures ok <==> Reopen(old(Tables()), i, correlation).Some?
      ensures Tables() == Reopen(old(Tables()), i, correlation).GetOr(old(Tables()))
    {
      if i >= |cases| || cases[i].status != Closed { return false; }
      cases := cases[i := cases[i].(status := Reopened, version := cases[i].version + 1)];
      Log(Audit("system", ExposureReopened, OfCase(i), Some(Closed), Some(Reopened), correlation));
      ok := true;
    }
  }
}
