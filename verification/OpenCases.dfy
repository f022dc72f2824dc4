/**
 * One open case per exposure. The worker's commits interleave with case status moves, analyst reviews
 * and cases opened by people; a crash may lose the link row between a case and its exposure.
 */
module OpenCases {
  import opened Domain
  import opened Cases
  import opened Exposures

  datatype Tables = Tables(core: Core, links: set<(nat, nat)>)

  datatype Step =
    | UpsertCommit(task: Task)
    /** The worker looks for an open case and commits a new one when there is none. */
    | CaseCommit(task: Task)
    /** The commit that follows; after a crash it never happens. */
    | LinkCommit(caseId: nat, exposure: nat)
    | StatusMove(caseId: nat, target: Status)
    | ManualCase(c: Case)
    | Review(exposure: nat, confirmed: bool)

  predicate HasOpenLink(t: Tables, x: nat) {
    exists l | l in t.links :: l.1 == x && l.0 < |t.core.cases| && t.core.cases[l.0].status != Closed
  }

  /** An analyst settles a candidate exposure. */
  function Reviewed(c: Core, x: nat, confirmed: bool): Core {
    if x >= |c.exposures| || c.exposures[x].state !in {"candidate", "under_review"} then c
    else
      var e := c.exposures[x];
      c.(exposures := c.exposures[x :=
        if confirmed then e.(state := "active", matchClass := Confirmed)
        else e.(state := "not_affected", matchClass := NotAffected)])
  }

  function Apply(s: Settings, t: Tables, step: Step): Tables {
    match step
    case UpsertCommit(task) => t.(core := Upsert(t.core, task))
    case CaseCommit(task) =>
      if HasOpenLink(t, IndexOf(t.core.exposures, task.key)) then t else t.(core := OpenCase(s, t.core, task))
    case LinkCommit(i, x) => t.(links := t.links + {(i, x)})
    case StatusMove(i, target) =>
      if i < |t.core.cases| then
        t.(core := t.core.(cases := t.core.cases[i := Move(t.core.cases[i], target)]))
      else t
    case ManualCase(c) => t.(core := t.core.(cases := t.core.cases + [c]))
    case Review(x, confirmed) => t.(core := Reviewed(t.core, x, confirmed))
  }

  /** What the code can do in a state. Revocation forces triage from any status; people may list any
      exposures on a new case; a link row is written for a case that lists the exposure. */
  predicate Possible(t: Tables, step: Step) {
    match step
    case LinkCommit(i, x) => i < |t.core.cases| && x in t.core.cases[i].exposures
    case StatusMove(i, target) =>
      i < |t.core.cases| && (target in AllowedTransitions(t.core.cases[i].status) || target == Triage)
    case ManualCase(c) => c.status == New && c.version == 1
    case _ => true
  }

  /** The tables after the steps of a run, from empty ones. */
  function After(s: Settings, steps: seq<Step>): Tables {
    if steps == [] then Tables(Core([], [], []), {})
    else Apply(s, After(s, steps[..|steps| - 1]), steps[|steps| - 1])
  }

  ghost predicate Run(s: Settings, steps: seq<Step>) {
    forall k :: 0 <= k < |steps| ==> Possible(After(s, steps[..k]), steps[k])
  }

  lemma NextState(s: Settings, steps: seq<Step>, k: nat)
    requires k < |steps|
    ensures After(s, steps[..k + 1]) == Apply(s, After(s, steps[..k]), steps[k])
  {
    assert steps[..k + 1][..k] == steps[..k];
  }

  // -- the guarantee and what breaks it -----------------------------------------------------------

  predicate Lists(c: Case, x: nat) {
    c.status != Closed && x in c.exposures
  }

  ghost predicate AtMostOneOpen(cases: seq<Case>) {
    forall x: nat, i, j :: 0 <= i < j < |cases| && Lists(cases[i], x) ==> !Lists(cases[j], x)
  }

  /** An open case, of whatever organization, lists the exposure. */
  predicate Busy(cases: seq<Case>, x: nat) {
    exists j | 0 <= j < |cases| :: Lists(cases[j], x)
  }

  predicate AnyBusy(cases: seq<Case>, exposures: seq<nat>) {
    exists x | x in exposures :: Busy(cases, x)
  }

  /** A closed case leaves its status, a person opens a case, or the worker does, for an exposure that
      an open case lists already. The worker looks at its own organization's cases only. */
  predicate Duplicates(s: Settings, t: Tables, step: Step) {
    match step
    case StatusMove(i, target) =>
      && i < |t.core.cases| && t.core.cases[i].status == Closed && target != Closed
      && AnyBusy(t.core.cases, t.core.cases[i].exposures)
    case ManualCase(c) => AnyBusy(t.core.cases, c.exposures)
    case CaseCommit(task) =>
      var x := IndexOf(t.core.exposures, task.key);
      !HasOpenLink(t, x) && OpensCase(s, t.core, task) && Busy(t.core.cases, x)
    case _ => false
  }

  lemma AppendExactly(cases: seq<Case>, c: Case)
    requires AtMostOneOpen(cases) && c.status != Closed
    ensures AtMostOneOpen(cases + [c]) <==> !AnyBusy(cases, c.exposures)
  {
    var all, n := cases + [c], |cases|;
    if AtMostOneOpen(all) {
      forall x, j | x in c.exposures && 0 <= j < n ensures !Lists(cases[j], x) {
        assert all[j] == cases[j] && all[n] == c;
      }
    } else {
      var x: nat, i, j :| 0 <= i < j < |all| && Lists(all[i], x) && Lists(all[j], x);
      assert all[i] == cases[i];
      assert j == n;
      assert Busy(cases, x);
    }
  }

  lemma MoveExactly(cases: seq<Case>, i: nat, target: Status)
    requires AtMostOneOpen(cases) && i < |cases|
    ensures AtMostOneOpen(cases[i := Move(cases[i], target)])
            <==> !(cases[i].status == Closed && target != Closed && AnyBusy(cases, cases[i].exposures))
  {
    var moved := cases[i := Move(cases[i], target)];
    if cases[i].status == Closed && target != Closed {
      if AtMostOneOpen(moved) {
        forall x, j | x in cases[i].exposures && 0 <= j < |cases| ensures !Lists(cases[j], x) {
          assert Lists(moved[i], x);
          assert j != i ==> moved[j] == cases[j];
        }
      } else {
        var x: nat, j, k :| 0 <= j < k < |moved| && Lists(moved[j], x) && Lists(moved[k], x);
        var other := if j == i then k else j;
        assert moved[other] == cases[other];
        assert j == i || k == i;
        assert Busy(cases, x);
      }
    } else {
      assert forall j, x: nat :: 0 <= j < |cases| && Lists(moved[j], x) ==> Lists(cases[j], x);
    }
  }

  lemma CommitExactly(s: Settings, t: Tables, task: Task)
    requires AtMostOneOpen(t.core.cases)
    ensures AtMostOneOpen(Apply(s, t, CaseCommit(task)).core.cases) <==> !Duplicates(s, t, CaseCommit(task))
  {
    var x := IndexOf(t.core.exposures, task.key);
    if !HasOpenLink(t, x) && OpensCase(s, t.core, task) {
      AppendExactly(t.core.cases, CaseFor(s, t.core.exposures[x], x));
    }
  }

  lemma StepExactly(s: Settings, t: Tables, step: Step)
    requires AtMostOneOpen(t.core.cases) && Possible(t, step)
    ensures AtMostOneOpen(Apply(s, t, step).core.cases) <==> !Duplicates(s, t, step)
  {
    match step
    case CaseCommit(task) => CommitExactly(s, t, task);
    case ManualCase(c) => AppendExactly(t.core.cases, c);
    case StatusMove(i, target) => MoveExactly(t.core.cases, i, target);
    case _ =>
  }

  lemma NextUnique(s: Settings, steps: seq<Step>, k: nat)
    requires Run(s, steps) && k < |steps| && AtMostOneOpen(After(s, steps[..k]).core.cases)
    ensures AtMostOneOpen(After(s, steps[..k + 1]).core.cases) <==> !Duplicates(s, After(s, steps[..k]), steps[k])
  {
    NextState(s, steps, k);
    StepExactly(s, After(s, steps[..k]), steps[k]);
  }

  lemma {:induction false} StaysUnique(s: Settings, steps: seq<Step>, k: nat)
    requires Run(s, steps) && k <= |steps|
    requires forall j :: 0 <= j < k ==> !Duplicates(s, After(s, steps[..j]), steps[j])
    ensures AtMostOneOpen(After(s, steps[..k]).core.cases)
  {
    if k > 0 {
      StaysUnique(s, steps, k - 1);
      NextUnique(s, steps, k - 1);
    }
  }

  /**
   * Exactly when at most one open case lists any exposure throughout a run of everything the code can
   * do, however often the worker crashed and whichever link rows were lost: no step duplicates.
   */
  lemma OneOpenCaseExactly(s: Settings, steps: seq<Step>)
    requires Run(s, steps)
    ensures (forall k :: 0 <= k <= |steps| ==> AtMostOneOpen(After(s, steps[..k]).core.cases))
            <==> forall k :: 0 <= k < |steps| ==> !Duplicates(s, After(s, steps[..k]), steps[k])
  {
    if forall k :: 0 <= k <= |steps| ==> AtMostOneOpen(After(s, steps[..k]).core.cases) {
      forall k | 0 <= k < |steps| ensures !Duplicates(s, After(s, steps[..k]), steps[k]) {
        assert AtMostOneOpen(After(s, steps[..k + 1]).core.cases);
        NextUnique(s, steps, k);
      }
    }
    if forall k :: 0 <= k < |steps| ==> !Duplicates(s, After(s, steps[..k]), steps[k]) {
      forall k | 0 <= k <= |steps| ensures AtMostOneOpen(After(s, steps[..k]).core.cases) {
        StaysUnique(s, steps, k);
      }
    }
  }

  // -- the worker's part --------------------------------------------------------------------------

  /** Every exposure the case lists exists and belongs to the case's organization. */
  predicate ListsOwn(c: Case, exposures: seq<Exposure>) {
    forall x | x in c.exposures :: x < |exposures| && exposures[x].key.organization == c.organization
  }

  predicate AllListOwn(c: Core) {
    forall i | 0 <= i < |c.cases| :: ListsOwn(c.cases[i], c.exposures)
  }

  /** People list existing exposures of their own organization only. */
  ghost predicate OwnOnly(s: Settings, steps: seq<Step>) {
    forall k :: 0 <= k < |steps| && steps[k].ManualCase? ==>
      ListsOwn(steps[k].c, After(s, steps[..k]).core.exposures)
  }

  lemma OwnStep(s: Settings, t: Tables, step: Step, t': Tables)
    requires AllListOwn(t.core) && t' == Apply(s, t, step)
    requires step.ManualCase? ==> ListsOwn(step.c, t.core.exposures)
    ensures AllListOwn(t'.core)
  {
    var c' := t'.core;
    assert |t.core.exposures| <= |c'.exposures|;
    assert forall x :: 0 <= x < |t.core.exposures| ==> c'.exposures[x].key == t.core.exposures[x].key;
    forall i | 0 <= i < |c'.cases| ensures ListsOwn(c'.cases[i], c'.exposures) {
      if i < |t.core.cases| {
        assert ListsOwn(t.core.cases[i], t.core.exposures);
        assert c'.cases[i].exposures == t.core.cases[i].exposures && c'.cases[i].organization == t.core.cases[i].organization;
      }
    }
  }

  lemma OwnNext(s: Settings, steps: seq<Step>, k: nat)
    requires OwnOnly(s, steps) && k < |steps| && AllListOwn(After(s, steps[..k]).core)
    ensures AllListOwn(After(s, steps[..k + 1]).core)
  {
    NextState(s, steps, k);
    OwnStep(s, After(s, steps[..k]), steps[k], After(s, steps[..k + 1]));
  }

  lemma {:induction false} OwnAlways(s: Settings, steps: seq<Step>, k: nat)
    requires OwnOnly(s, steps) && k <= |steps|
    ensures AllListOwn(After(s, steps[..k]).core)
  {
    if k > 0 {
      OwnAlways(s, steps, k - 1);
      OwnNext(s, steps, k - 1);
    }
  }

  lemma OwnCommit(s: Settings, t: Tables, task: Task)
    requires AllListOwn(t.core)
    ensures !Duplicates(s, t, CaseCommit(task))
  {
    var x := IndexOf(t.core.exposures, task.key);
    assert x < |t.core.exposures| && Busy(t.core.cases, x) ==>
      HasOpenCase(t.core.cases, t.core.exposures[x].key.organization, x);
  }

  /** The worker itself never opens a second case, crashes and lost link rows included, as long as
      people list existing exposures of their own organization. */
  lemma WorkerNeverDuplicates(s: Settings, steps: seq<Step>, k: nat)
    requires Run(s, steps) && OwnOnly(s, steps) && k < |steps| && steps[k].CaseCommit?
    ensures !Duplicates(s, After(s, steps[..k]), steps[k])
  {
    OwnAlways(s, steps, k);
    OwnCommit(s, After(s, steps[..k]), steps[k].task);
  }

  /** When cases that list exposures are opened by the worker only and no closed case leaves its status,
      at most one open case lists any exposure in every state. */
  lemma OneOpenCasePerExposure(s: Settings, steps: seq<Step>, k: nat)
    requires Run(s, steps) && k <= |steps|
    requires forall j :: 0 <= j < |steps| && steps[j].ManualCase? ==> steps[j].c.exposures == []
    requires forall j :: 0 <= j < |steps| && steps[j].StatusMove? ==>
               After(s, steps[..j]).core.cases[steps[j].caseId].status != Closed
    ensures AtMostOneOpen(After(s, steps[..k]).core.cases)
  {
    forall j | 0 <= j < |steps| ensures !Duplicates(s, After(s, steps[..j]), steps[j]) {
      if steps[j].CaseCommit? {
        WorkerNeverDuplicates(s, steps, j);
      }
    }
    StaysUnique(s, steps, k);
  }

  /** Exactly when the worker opens a case: it is due, and neither a link row nor an exposure list of an
      open case of the organization leads to the exposure. */
  lemma CommitOpensExactly(s: Settings, t: Tables, task: Task, x: nat)
    requires x == IndexOf(t.core.exposures, task.key) < |t.core.exposures|
    ensures var after, cls := Apply(s, t, CaseCommit(task)).core.cases, t.core.exposures[x].matchClass;
            var opens :=
              && s.autoCreate && task.wantsCase && (cls == Confirmed || cls == Deterministic)
              && (forall j :: (j, x) in t.links && j < |t.core.cases| ==> t.core.cases[j].status == Closed)
              && (forall j :: 0 <= j < |t.core.cases| && x in t.core.cases[j].exposures ==>
                    t.core.cases[j].status == Closed || t.core.cases[j].organization != task.key.organization);
            && (opens ==> |after| == |t.core.cases| + 1 && after[..|t.core.cases|] == t.core.cases)
            && (!opens ==> after == t.core.cases)
  {
    assert HasOpenLink(t, x) <==> exists j :: (j, x) in t.links && j < |t.core.cases| && t.core.cases[j].status != Closed;
  }

  // -- runs that break the guarantee --------------------------------------------------------------

  /** The steps are a run that ends in `t`. */
  ghost predicate Reaches(s: Settings, steps: seq<Step>, t: Tables) {
    Run(s, steps) && After(s, steps) == t
  }

  lemma Extend(s: Settings, steps: seq<Step>, t: Tables, step: Step)
    requires Reaches(s, steps, t) && Possible(t, step)
    ensures Reaches(s, steps + [step], Apply(s, t, step))
  {
    var longer := steps + [step];
    assert longer[..|steps|] == steps;
    assert forall k :: 0 <= k < |steps| ==> longer[..k] == steps[..k];
  }

  ghost predicate NothingManual(steps: seq<Step>) {
    forall k :: 0 <= k < |steps| ==> !steps[k].ManualCase?
  }

  function Loaded(t: Task, cases: seq<Case>): Tables {
    Tables(Core([NewExposure(t)], [Evidence(0, t.reference)], cases), {})
  }

  predicate Eager(s: Settings, t: Task) {
    s.autoCreate && t.wantsCase && CaseClass(t.matchClass)
  }

  /** The worker commits a case for the only exposure when no case of its organization is open. */
  lemma CommitLoaded(s: Settings, steps: seq<Step>, t: Task, cases: seq<Case>)
    requires Eager(s, t) && Reaches(s, steps, Loaded(t, cases))
    requires forall i :: 0 <= i < |cases| ==> cases[i].status == Closed || cases[i].organization != t.key.organization
    ensures Reaches(s, steps + [CaseCommit(t)], Loaded(t, cases + [CaseFor(s, NewExposure(t), 0)]))
  {
    Extend(s, steps, Loaded(t, cases), CaseCommit(t));
    assert IndexOf([NewExposure(t)], t.key) == 0;
    assert !HasOpenCase(cases, t.key.organization, 0);
  }

  lemma FirstUpsert(t: Task)
    ensures Upsert(Core([], [], []), t) == Loaded(t, []).core
  {}

  lemma Observed(s: Settings, t: Task)
    ensures Reaches(s, [UpsertCommit(t)], Loaded(t, []))
  {
    FirstUpsert(t);
    Extend(s, [], Tables(Core([], [], []), {}), UpsertCommit(t));
    assert [] + [UpsertCommit(t)] == [UpsertCommit(t)];
  }

  lemma ManualLoaded(s: Settings, steps: seq<Step>, t: Task, cases: seq<Case>, c: Case)
    requires Reaches(s, steps, Loaded(t, cases)) && c.status == New && c.version == 1
    ensures Reaches(s, steps + [ManualCase(c)], Loaded(t, cases + [c]))
  {
    Extend(s, steps, Loaded(t, cases), ManualCase(c));
  }

  predicate Legal(from: Status, path: seq<Status>)
    decreases |path|
  {
    path == [] || (path[0] in AllowedTransitions(from) && Legal(path[0], path[1..]))
  }

  function MovedAlong(c: Case, path: seq<Status>): Case {
    if path == [] then c else c.(status := path[|path| - 1], version := c.version + |path|)
  }

  function Fronted(t: Task, first: Case, rest: seq<Case>): Tables {
    Loaded(t, [first] + rest)
  }

  lemma MoveFronted(s: Settings, t: Task, c: Case, rest: seq<Case>, target: Status)
    ensures Apply(s, Fronted(t, c, rest), StatusMove(0, target)) == Fronted(t, Move(c, target), rest)
  {
    assert ([c] + rest)[0 := Move(c, target)] == [Move(c, target)] + rest;
  }

  lemma MovedOnce(s: Settings, steps: seq<Step>, t: Task, c: Case, rest: seq<Case>, target: Status)
    requires Reaches(s, steps, Fronted(t, c, rest)) && target in AllowedTransitions(c.status)
    ensures Reaches(s, steps + [StatusMove(0, target)], Fronted(t, Move(c, target), rest))
  {
    MoveFronted(s, t, c, rest, target);
    Extend(s, steps, Fronted(t, c, rest), StatusMove(0, target));
  }

  lemma FirstMove(c: Case, path: seq<Status>)
    requires path != []
    ensures MovedAlong(Move(c, path[0]), path[1..]) == MovedAlong(c, path)
  {}

  /** The first case moves along the lifecycle. */
  lemma {:induction false} Moved(s: Settings, steps: seq<Step>, t: Task, c: Case, rest: seq<Case>, path: seq<Status>)
    returns (longer: seq<Step>)
    requires Reaches(s, steps, Fronted(t, c, rest)) && Legal(c.status, path)
    ensures Reaches(s, longer, Fronted(t, MovedAlong(c, path), rest))
    ensures NothingManual(steps) ==> NothingManual(longer)
    decreases |path|
  {
    longer := steps;
    if path != [] {
      FirstMove(c, path);
      MovedOnce(s, steps, t, c, rest, path[0]);
      longer := Moved(s, steps + [StatusMove(0, path[0])], t, Move(c, path[0]), rest, path[1..]);
    }
  }

  const TO_CLOSED: seq<Status> := [Triage, Assigned, InProgress, AwaitingVerification, Closed]

  lemma ClosingIsLegal()
    ensures Legal(New, TO_CLOSED)
  {
    assert TO_CLOSED[1..] == [Assigned, InProgress, AwaitingVerification, Closed];
    assert TO_CLOSED[1..][1..] == [InProgress, AwaitingVerification, Closed];
    assert TO_CLOSED[1..][1..][1..] == [AwaitingVerification, Closed];
    assert Legal(InProgress, [AwaitingVerification, Closed]);
  }

  lemma TwoOpen(cases: seq<Case>)
    requires |cases| == 2 && Lists(cases[0], 0) && Lists(cases[1], 0)
    ensures !AtMostOneOpen(cases)
  {}

  /** The worker opens its case, which people then close along the lifecycle. */
  lemma OpenedAndClosed(s: Settings, t: Task) returns (steps: seq<Step>, closed: Case)
    requires Eager(s, t)
    ensures Reaches(s, steps, Fronted(t, closed, [])) && NothingManual(steps)
    ensures closed.status == Closed && 0 in closed.exposures
  {
    var c := CaseFor(s, NewExposure(t), 0);
    closed := MovedAlong(c, TO_CLOSED);
    Observed(s, t);
    CommitLoaded(s, [UpsertCommit(t)], t, []);
    assert [] + [c] == [c] + [];
    ClosingIsLegal();
    steps := Moved(s, [UpsertCommit(t)] + [CaseCommit(t)], t, c, [], TO_CLOSED);
  }

  lemma Replaced(s: Settings, t: Task) returns (steps: seq<Step>, closed: Case, c: Case)
    requires Eager(s, t)
    ensures Reaches(s, steps, Fronted(t, closed, [c])) && NothingManual(steps)
    ensures closed.status == Closed && 0 in closed.exposures && Lists(c, 0)
  {
    var before, first := OpenedAndClosed(s, t);
    closed, c := first, CaseFor(s, NewExposure(t), 0);
    CommitLoaded(s, before, t, [closed] + []);
    steps := before + [CaseCommit(t)];
    assert ([closed] + []) + [c] == [closed] + [c];
  }

  /** A case closed along the lifecycle, replaced by a new one and then reopened leaves two open cases. */
  lemma ReopenedCaseDuplicates(s: Settings, t: Task) returns (steps: seq<Step>)
    requires Eager(s, t)
    ensures Run(s, steps) && NothingManual(steps) && !AtMostOneOpen(After(s, steps).core.cases)
  {
    var before, closed, c := Replaced(s, t);
    MovedOnce(s, before, t, closed, [c], Reopened);
    steps := before + [StatusMove(0, Reopened)];
    TwoOpen([Move(closed, Reopened)] + [c]);
  }

  /** So does a person opening a case for an exposure that has one. */
  lemma ManualCaseDuplicates(s: Settings, t: Task) returns (steps: seq<Step>)
    requires Eager(s, t)
    ensures Run(s, steps) && !AtMostOneOpen(After(s, steps).core.cases)
  {
    var c := CaseFor(s, NewExposure(t), 0);
    Observed(s, t);
    steps := [UpsertCommit(t)];
    CommitLoaded(s, steps, t, []);
    steps := steps + [CaseCommit(t)];
    ManualLoaded(s, steps, t, [] + [c], c);
    steps := steps + [ManualCase(c)];
    TwoOpen(([] + [c]) + [c]);
  }

  /** And the worker, when another organization's open case lists its exposure. */
  lemma ForeignCaseDuplicates(s: Settings, t: Task, c: Case) returns (steps: seq<Step>)
    requires Eager(s, t)
    requires c.status == New && c.version == 1 && 0 in c.exposures && c.organization != t.key.organization
    ensures Run(s, steps) && !AtMostOneOpen(After(s, steps).core.cases)
  {
    Observed(s, t);
    steps := [UpsertCommit(t)];
    ManualLoaded(s, steps, t, [], c);
    steps := steps + [ManualCase(c)];
    CommitLoaded(s, steps, t, [] + [c]);
    steps := steps + [CaseCommit(t)];
    TwoOpen(([] + [c]) + [CaseFor(s, NewExposure(t), 0)]);
  }

  // -- reviews ------------------------------------------------------------------------------------

  /** A review settles a candidate or an exposure under review, and touches nothing else. */
  lemma ReviewExactly(c: Core, x: nat, confirmed: bool)
    requires x < |c.exposures|
    ensures var r := Reviewed(c, x, confirmed);
            && r.cases == c.cases && r.evidence == c.evidence && |r.exposures| == |c.exposures|
            && (forall y :: 0 <= y < |c.exposures| && y != x ==> r.exposures[y] == c.exposures[y])
            && (if c.exposures[x].state == "candidate" || c.exposures[x].state == "under_review" then
                  r.exposures[x] == c.exposures[x].(
                    state := if confirmed then "active" else "not_affected",
                    matchClass := if confirmed then Confirmed else NotAffected)
                else r.exposures[x] == c.exposures[x])
  {}

  /** A confirmed review lets the worker's next look at the exposure open a case, unless one is open. */
  lemma ReviewOpensCase(s: Settings, t: Tables, x: nat, task: Task)
    requires x < |t.core.exposures| && t.core.exposures[x].state == "candidate" && x == IndexOf(t.core.exposures, task.key)
    requires s.autoCreate && task.wantsCase && !HasOpenLink(t, x)
    requires !HasOpenCase(t.core.cases, t.core.exposures[x].key.organization, x)
    ensures var r := Apply(s, Apply(s, t, Review(x, true)), CaseCommit(task));
            && |r.core.cases| == |t.core.cases| + 1 && r.core.cases[..|t.core.cases|] == t.core.cases
            && r.core.cases[|t.core.cases|].exposures == [x]
  {
    var reviewed := Apply(s, t, Review(x, true));
    IndexIsFirst(t.core.exposures, task.key);
    IndexIsOnly(reviewed.core.exposures, task.key, x);
  }

  /** The next observation overwrites a review: it leaves what it would have left without one. */
  lemma ObservationForgetsReview(c: Core, x: nat, confirmed: bool, task: Task)
    requires x == IndexOf(c.exposures, task.key) < |c.exposures|
    ensures Upsert(Reviewed(c, x, confirmed), task) == Upsert(c, task)
  {
    IndexIsFirst(c.exposures, task.key);
    IndexIsOnly(Reviewed(c, x, confirmed).exposures, task.key, x);
  }
}
