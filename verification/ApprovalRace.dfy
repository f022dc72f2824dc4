/**
 * Contenders deciding one risk decision. Each loads and validates the decision and the case in one
 * step and issues the conditional update in a later one; the steps of all contenders interleave.
 */
module ApprovalRace {
  import opened Domain
  import opened Cases

  /** What a validated contender holds: its request, and the case's status and version as loaded. */
  datatype Ready = Ready(request: Event, prior: Status, loadedVersion: nat)
  datatype Race = Race(db: Db, ready: map<nat, Ready>)

  datatype Event =
    | Validate(contender: nat, who: Approver, approve: bool, reason: string, now: int, correlation: string)
    | Commit(contender: nat)

  /** Validation reads only; a contender it rejects never reaches its update. */
  function ValidateStep(r: Race, d: nat, e: Event): Race
    requires e.Validate? && d < |r.db.decisions|
  {
    var i := r.db.decisions[d].caseId;
    if MayDecide(r.db.decisions[d], e.who, e.approve, e.reason, e.now) && i < |r.db.cases| then
      r.(ready := r.ready[e.contender :=
        Ready(e, r.db.cases[i].status, r.db.cases[i].version)])
    else r
  }

  /** What a commit writes; an approval's version is the one loaded at validation plus one. */
  function Written(db: Db, d: nat, c: Ready): Option<Db>
    requires d < |db.decisions| && c.request.Validate? && ApprovalRole(c.request.who.roles).Some?
  {
    var e, i := c.request, db.decisions[d].caseId;
    match CommitDecision(db, d, e.who, e.approve, c.prior, e.correlation)
    case None => None
    case Some(db') =>
      Some(if e.approve then db'.(cases := db'.cases[i := db'.cases[i].(version := c.loadedVersion + 1)]) else db')
  }

  function CommitStep(r: Race, d: nat, contender: nat): Race
    requires d < |r.db.decisions|
    requires forall c :: c in r.ready ==> r.ready[c].request.Validate? && ApprovalRole(r.ready[c].request.who.roles).Some?
  {
    if contender !in r.ready then r
    else Race(Written(r.db, d, r.ready[contender]).GetOr(r.db), r.ready - {contender})
  }

  predicate Rightful(decision: Decision, e: Event) {
    e.Validate? && MayDecide(decision, e.who, e.approve, e.reason, e.now)
  }

  /** While the decision is pending, every contender in waiting may still decide it, on current reads. */
  ghost predicate Fit(r: Race, d: nat) {
    && d < |r.db.decisions|
    && r.db.decisions[d].caseId < |r.db.cases|
    && forall c :: c in r.ready ==>
         && r.ready[c].request.Validate? && r.ready[c].request.contender == c
         && ApprovalRole(r.ready[c].request.who.roles).Some?
         && (r.db.decisions[d].status == Pending ==>
               && Rightful(r.db.decisions[d], r.ready[c].request)
               && r.ready[c].prior == r.db.cases[r.db.decisions[d].caseId].status
               && r.ready[c].loadedVersion == r.db.cases[r.db.decisions[d].caseId].version)
  }

  function Step(r: Race, d: nat, e: Event): Race
    requires Fit(r, d)
  {
    match e
    case Validate(_, _, _, _, _, _) => ValidateStep(r, d, e)
    case Commit(contender) => CommitStep(r, d, contender)
  }

  lemma StepFit(r: Race, d: nat, e: Event)
    requires Fit(r, d)
    ensures Fit(Step(r, d, e), d)
  {}

  ghost function RunAll(db: Db, d: nat, events: seq<Event>): (r: Race)
    requires Fit(Race(db, map[]), d)
    ensures Fit(r, d)
  {
    if events == [] then Race(db, map[])
    else
      var r := RunAll(db, d, events[..|events| - 1]);
      StepFit(r, d, events[|events| - 1]);
      Step(r, d, events[|events| - 1])
  }

  /** What the request does when it is the only one: the service's atomic call. */
  function Alone(db: Db, d: nat, e: Event): Option<Db>
    requires e.Validate?
  {
    Decide(db, d, e.who, e.approve, e.reason, e.now, e.correlation)
  }

  // -- single steps -------------------------------------------------------------------------------

  /** While the decision is pending, a commit is what the atomic call would do. */
  lemma CommitIsAtomic(r: Race, d: nat, contender: nat)
    requires Fit(r, d) && r.db.decisions[d].status == Pending && contender in r.ready
    ensures CommitStep(r, d, contender).db == Alone(r.db, d, r.ready[contender].request).GetOr(r.db)
  {
    WrittenAlone(r.db, d, r.ready[contender]);
  }

  lemma WrittenAlone(db: Db, d: nat, c: Ready)
    requires d < |db.decisions| && db.decisions[d].caseId < |db.cases| && Rightful(db.decisions[d], c.request)
    requires c.prior == db.cases[db.decisions[d].caseId].status
    requires c.loadedVersion == db.cases[db.decisions[d].caseId].version
    ensures Written(db, d, c) == Alone(db, d, c.request)
  {
    var e, i := c.request, db.decisions[d].caseId;
    var r := CommitDecision(db, d, e.who, e.approve, c.prior, e.correlation);
    assert Alone(db, d, e) == r;
    if r.Some? && e.approve {
      assert r.value.cases[i].version == c.loadedVersion + 1;
      assert r.value.cases == r.value.cases[i := r.value.cases[i].(version := c.loadedVersion + 1)];
    }
  }

  lemma SettledStays(r: Race, d: nat, e: Event)
    requires Fit(r, d) && r.db.decisions[d].status != Pending
    ensures Step(r, d, e).db == r.db
  {}

  lemma SettledByAlone(db: Db, d: nat, e: Event)
    requires e.Validate? && Alone(db, d, e).Some?
    ensures d < |db.decisions| && db.decisions[d].caseId < |db.cases| && db.decisions[d].status == Pending
    ensures d < |Alone(db, d, e).value.decisions| && Alone(db, d, e).value.decisions[d].status != Pending
    ensures Alone(db, d, e).value != db
  {}

  // -- whole races --------------------------------------------------------------------------------

  lemma ReadyCameFrom(r: Race, d: nat, e: Event, c: nat)
    requires Fit(r, d) && c in Step(r, d, e).ready
    ensures || Step(r, d, e).ready[c].request == e
            || (c in r.ready && Step(r, d, e).ready[c] == r.ready[c])
  {}

  /** Every contender in waiting got there by one of the events. */
  lemma {:induction false} ReadyValidated(db: Db, d: nat, events: seq<Event>, c: nat)
    requires Fit(Race(db, map[]), d) && c in RunAll(db, d, events).ready
    ensures RunAll(db, d, events).ready[c].request in events
  {
    var init, last := events[..|events| - 1], events[|events| - 1];
    assert events == init + [last];
    ReadyCameFrom(RunAll(db, d, init), d, last, c);
    if c in RunAll(db, d, init).ready {
      ReadyValidated(db, d, init, c);
    }
  }

  /** The tables are `db` up to event `k` and `after` from then on. */
  ghost predicate Switches(db: Db, d: nat, events: seq<Event>, k: nat, after: Db)
    requires Fit(Race(db, map[]), d)
  {
    forall m :: 0 <= m <= |events| ==> RunAll(db, d, events[..m]).db == if m <= k then db else after
  }

  ghost predicate Untouched(db: Db, d: nat, events: seq<Event>)
    requires Fit(Race(db, map[]), d)
  {
    Switches(db, d, events, |events|, db)
  }

  lemma SwitchExtends(db: Db, d: nat, events: seq<Event>, k: nat, after: Db)
    requires Fit(Race(db, map[]), d) && events != []
    requires Switches(db, d, events[..|events| - 1], k, after)
    requires RunAll(db, d, events).db == if |events| <= k then db else after
    ensures Switches(db, d, events, k, after)
  {
    var init := events[..|events| - 1];
    forall m | 0 <= m <= |events| ensures RunAll(db, d, events[..m]).db == if m <= k then db else after {
      assert if m < |events| then events[..m] == init[..m] else events[..m] == events;
    }
  }

  /** The contender that validated with event `j` decided with event `k`: up to then the tables are
      the initial ones, from then on what its atomic call alone makes of them. */
  ghost predicate Wins(db: Db, d: nat, events: seq<Event>, j: nat, k: nat)
    requires Fit(Race(db, map[]), d)
  {
    && j < k < |events|
    && Rightful(db.decisions[d], events[j])
    && events[k] == Commit(events[j].contender)
    && Alone(db, d, events[j]).Some?
    && Switches(db, d, events, k, Alone(db, d, events[j]).value)
  }

  /** Only a commit changes the tables, and into what its contender's atomic call makes of them. */
  lemma OnlyCommitsChange(r: Race, d: nat, e: Event)
    requires Fit(r, d) && r.db.decisions[d].status == Pending && Step(r, d, e).db != r.db
    ensures e.Commit? && e.contender in r.ready
    ensures Alone(r.db, d, r.ready[e.contender].request) == Some(Step(r, d, e).db)
  {
    CommitIsAtomic(r, d, e.contender);
  }

  lemma FirstWin(db: Db, d: nat, events: seq<Event>) returns (j: nat)
    requires Fit(Race(db, map[]), d) && db.decisions[d].status == Pending
    requires events != [] && Untouched(db, d, events[..|events| - 1]) && RunAll(db, d, events).db != db
    ensures Wins(db, d, events, j, |events| - 1)
  {
    var n := |events| - 1;
    var r := RunAll(db, d, events[..n]);
    assert events[..n][..n] == events[..n];
    OnlyCommitsChange(r, d, events[n]);
    ReadyValidated(db, d, events[..n], events[n].contender);
    j :| 0 <= j < n && events[j] == r.ready[events[n].contender].request;
    SwitchExtends(db, d, events, n, RunAll(db, d, events).db);
  }

  lemma StillWins(db: Db, d: nat, events: seq<Event>, j: nat, k: nat)
    requires Fit(Race(db, map[]), d)
    requires events != [] && Wins(db, d, events[..|events| - 1], j, k)
    ensures Wins(db, d, events, j, k)
  {
    var n := |events| - 1;
    var after := Alone(db, d, events[j]).value;
    assert events[..n][..n] == events[..n];
    SettledByAlone(db, d, events[j]);
    StaysSettled(db, d, events, after);
    SwitchExtends(db, d, events, k, after);
  }

  lemma StaysSettled(db: Db, d: nat, events: seq<Event>, after: Db)
    requires Fit(Race(db, map[]), d) && events != []
    requires RunAll(db, d, events[..|events| - 1]).db == after
    requires d < |after.decisions| && after.decisions[d].status != Pending
    ensures RunAll(db, d, events).db == after
  {
    SettledStays(RunAll(db, d, events[..|events| - 1]), d, events[|events| - 1]);
  }

  /**
   * Linearization: whatever the interleaving, either the tables never change, or one contender that
   * validated and was entitled to decide changes them once, at its own commit, into exactly what its
   * atomic call would have made of the initial tables.
   */
  lemma {:induction false} AtMostOneDecision(db: Db, d: nat, events: seq<Event>)
    requires Fit(Race(db, map[]), d) && db.decisions[d].status == Pending
    ensures Untouched(db, d, events) || exists j: nat, k: nat :: Wins(db, d, events, j, k)
  {
    if events != [] {
      var init := events[..|events| - 1];
      AtMostOneDecision(db, d, init);
      if Untouched(db, d, init) {
        if RunAll(db, d, events).db != db {
          var j := FirstWin(db, d, events);
        } else {
          SwitchExtends(db, d, events, |events|, db);
        }
      } else {
        var j: nat, k: nat :| Wins(db, d, init, j, k);
        StillWins(db, d, events, j, k);
      }
    }
  }

  /** One decision entry with its outbox row names the contender and its role; the decision carries
      its name, role and kind of principal, and no other case is touched. */
  ghost predicate Recorded(before: Db, after: Db, d: nat, e: Event)
    requires d < |before.decisions| && e.Validate?
  {
    && |after.audit| == |before.audit| + 1 && after.audit[..|before.audit|] == before.audit
    && |after.decisions| == |before.decisions| && |after.cases| == |before.cases|
    && ApprovalRole(e.who.roles).Some?
    && var a := after.audit[|before.audit|];
       && a.actor == e.who.actor && a.subject == OfDecision(d)
       && a.action == (if e.approve then DecisionAccepted(before.decisions[d].kind) else DecisionRejected)
       && after.outbox == before.outbox + [OutboxRow(OfDecision(d), EventTypeOf(a.action).value, e.correlation)]
       && after.decisions[d].status == (if e.approve then Approved else Rejected)
       && after.decisions[d].approval == Some(Approval(e.who.actor, ApprovalRole(e.who.roles).value, true))
       && forall j :: 0 <= j < |before.cases| && (j != before.decisions[d].caseId || !e.approve) ==>
            after.cases[j] == before.cases[j]
  }

  lemma AloneRecords(db: Db, d: nat, e: Event)
    requires e.Validate? && Alone(db, d, e).Some?
    ensures d < |db.decisions| && Recorded(db, Alone(db, d, e).value, d, e)
    ensures Rightful(db.decisions[d], e) && ApprovalRole(e.who.roles).Some?
  {}

  /** The contender whose atomic call the race amounted to. */
  lemma Winner(db: Db, d: nat, events: seq<Event>) returns (j: nat)
    requires Fit(Race(db, map[]), d) && db.decisions[d].status == Pending
    requires RunAll(db, d, events).db != db
    ensures j < |events| && Rightful(db.decisions[d], events[j])
    ensures Alone(db, d, events[j]) == Some(RunAll(db, d, events).db)
  {
    AtMostOneDecision(db, d, events);
    assert events[..|events|] == events;
    var w: nat, k: nat :| Wins(db, d, events, w, k);
    j := w;
  }

  /** In every race that changes the tables the one record left names a validated contender: a human
      with an approver role who is not the requester. */
  lemma WinnerRecorded(db: Db, d: nat, events: seq<Event>) returns (j: nat)
    requires Fit(Race(db, map[]), d) && db.decisions[d].status == Pending
    requires RunAll(db, d, events).db != db
    ensures j < |events| && Rightful(db.decisions[d], events[j])
    ensures events[j].who.human && events[j].who.actor != db.decisions[d].requestedBy
    ensures Recorded(db, RunAll(db, d, events).db, d, events[j])
  {
    j := Winner(db, d, events);
    AloneRecords(db, d, events[j]);
  }

  /** Once anything has changed, no later step of any contender changes decision, case or logs. */
  lemma LosersChangeNothing(db: Db, d: nat, events: seq<Event>, k: nat, m: nat)
    requires Fit(Race(db, map[]), d) && db.decisions[d].status == Pending
    requires k <= m <= |events| && RunAll(db, d, events[..k]).db != db
    ensures RunAll(db, d, events[..m]).db == RunAll(db, d, events[..k]).db
  {
    AtMostOneDecision(db, d, events);
  }

  /** When the approval's edge is illegal every approving contender's claim is rolled back: the case
      never moves, and the tables change only if somebody rejects. */
  lemma IllegalEdgeRollsBack(db: Db, d: nat, events: seq<Event>)
    requires Fit(Race(db, map[]), d) && db.decisions[d].status == Pending
    requires TargetOf(db.decisions[d].kind) !in AllowedTransitions(db.cases[db.decisions[d].caseId].status)
    ensures RunAll(db, d, events).db.cases == db.cases
    ensures (forall e :: e in events && e.Validate? ==> e.approve) ==> RunAll(db, d, events).db == db
  {
    if RunAll(db, d, events).db != db {
      var j := Winner(db, d, events);
      OnlyRejects(db, d, events[j]);
      assert events[j] in events;
    }
  }

  lemma OnlyRejects(db: Db, d: nat, e: Event)
    requires e.Validate? && Alone(db, d, e).Some?
    requires TargetOf(db.decisions[d].kind) !in AllowedTransitions(db.cases[db.decisions[d].caseId].status)
    ensures !e.approve && Alone(db, d, e).value.cases == db.cases
  {}

  /** The commit of a contender in waiting that rejects, or approves along a legal edge. */
  ghost predicate Decisive(db: Db, d: nat, events: seq<Event>, k: nat)
    requires Fit(Race(db, map[]), d) && k < |events|
  {
    && events[k].Commit? && events[k].contender in RunAll(db, d, events[..k]).ready
    && var e := RunAll(db, d, events[..k]).ready[events[k].contender].request;
       e.approve ==> TargetOf(db.decisions[d].kind) in AllowedTransitions(db.cases[db.decisions[d].caseId].status)
  }

  /** Exactly when somebody wins: some contender in waiting issues a commit that can go through. */
  lemma SomeoneWinsExactly(db: Db, d: nat, events: seq<Event>)
    requires Fit(Race(db, map[]), d) && db.decisions[d].status == Pending
    ensures RunAll(db, d, events).db != db <==> exists k :: 0 <= k < |events| && Decisive(db, d, events, k)
  {
    assert events[..|events|] == events;
    AtMostOneDecision(db, d, events);
    if RunAll(db, d, events).db != db {
      var j: nat, k: nat :| Wins(db, d, events, j, k);
      ChangeIsDecisive(db, d, events, k);
    }
    if k :| 0 <= k < |events| && Decisive(db, d, events, k) {
      DecisiveChanges(db, d, events, k);
      LosersChangeNothing(db, d, events, k + 1, |events|);
    }
  }

  lemma NextState(db: Db, d: nat, events: seq<Event>, k: nat)
    requires Fit(Race(db, map[]), d) && k < |events|
    ensures RunAll(db, d, events[..k + 1]) == Step(RunAll(db, d, events[..k]), d, events[k])
  {
    assert events[..k + 1][..k] == events[..k];
  }

  lemma ChangeIsDecisive(db: Db, d: nat, events: seq<Event>, k: nat)
    requires Fit(Race(db, map[]), d) && db.decisions[d].status == Pending && k < |events|
    requires RunAll(db, d, events[..k]).db == db && RunAll(db, d, events[..k + 1]).db != db
    ensures Decisive(db, d, events, k)
  {
    NextState(db, d, events, k);
    var r := RunAll(db, d, events[..k]);
    assert events[k].Commit? && events[k].contender in r.ready;
    CommitIsAtomic(r, d, events[k].contender);
  }

  lemma DecisiveChanges(db: Db, d: nat, events: seq<Event>, k: nat)
    requires Fit(Race(db, map[]), d) && db.decisions[d].status == Pending && k < |events|
    requires Decisive(db, d, events, k)
    ensures RunAll(db, d, events[..k + 1]).db != db
  {
    NextState(db, d, events, k);
    var r := RunAll(db, d, events[..k]);
    if r.db == db {
      CommitIsAtomic(r, d, events[k].contender);
      SettledByAlone(db, d, r.ready[events[k].contender].request);
    } else {
      AtMostOneDecision(db, d, events);
      var j: nat, m: nat :| Wins(db, d, events, j, m);
    }
  }

  /** A contender waits exactly when it was entitled to decide at the moment it validated. */
  lemma ValidationAdmits(r: Race, d: nat, e: Event)
    requires Fit(r, d) && e.Validate? && e.contender !in r.ready
    ensures e.contender in Step(r, d, e).ready <==> Rightful(r.db.decisions[d], e)
    ensures Step(r, d, e).db == r.db
  {}

  /** A contender that races nobody does what the atomic call does, refusals included. */
  lemma SoloRace(db: Db, d: nat, e: Event)
    requires Fit(Race(db, map[]), d) && db.decisions[d].status == Pending && e.Validate?
    ensures RunAll(db, d, [e, Commit(e.contender)]).db == Alone(db, d, e).GetOr(db)
  {
    var start := Race(db, map[]);
    var waiting := Step(start, d, e);
    assert [e, Commit(e.contender)][..1] == [e] && [e][..0] == [];
    assert RunAll(db, d, [e]) == waiting;
    assert RunAll(db, d, [e, Commit(e.contender)]) == Step(waiting, d, Commit(e.contender));
    ValidationAdmits(start, d, e);
    if Rightful(db.decisions[d], e) {
      CommitIsAtomic(waiting, d, e.contender);
    }
  }
}
