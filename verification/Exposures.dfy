/**
 * The tables a handler writes, one task at a time: upsert the exposure with its match evidence
 * (one commit), then open a case when none is open (another commit). A crash leaves the tables
 * between two commits; running the same tasks again must end where an uninterrupted run ends.
 */
module Exposures {
  import opened Domain
  import opened Cases
  import Ownership

  /** What identifies an exposure; the component occurrence is absent outside SBOM processing. */
  datatype Key = Key(organization: string, vulnerability: string, detectionContext: string, occurrence: Option<string>)

  datatype Exposure = Exposure(
    key: Key,
    assetId: Option<string>,
    limitations: seq<string>,
    matchClass: MatchClass,
    confidence: real,
    state: string,
    matchedRules: seq<string>,
    priority: Priority,
    policyVersion: string)

  /** `reference` is the outbox event the evidence came from. */
  datatype Evidence = Evidence(exposure: nat, reference: nat)

  /** One row of a handler's work: what the matcher and the policy said, and whether a case may be opened. */
  datatype Task = Task(
    key: Key,
    assetId: Option<string>,
    limitations: seq<string>,
    matchClass: MatchClass,
    confidence: real,
    matchedRules: seq<string>,
    priority: Priority,
    policyVersion: string,
    reference: nat,
    wantsCase: bool,
    ticket: Option<string>)

  /** Exposures and cases are numbered in insertion order; the numbers stand for generated identifiers. */
  datatype Core = Core(exposures: seq<Exposure>, evidence: seq<Evidence>, cases: seq<Case>)

  /** `ownerOf` resolves the owner of a case about one asset of an organization. */
  datatype Settings = Settings(autoCreate: bool, ownerOf: (string, Option<string>) -> Ownership.ResolvedOwner)

  function StateOf(c: MatchClass): string {
    if c == NotAffected then "not_affected" else if CaseClass(c) then "active" else "candidate"
  }

  /** The first exposure with the key, or the number of exposures when there is none. */
  function IndexOf(exposures: seq<Exposure>, k: Key): (x: nat)
    ensures x <= |exposures|
    ensures x < |exposures| ==> exposures[x].key == k
  {
    if exposures == [] || exposures[0].key == k then 0 else 1 + IndexOf(exposures[1..], k)
  }

  lemma {:induction false} IndexIsFirst(exposures: seq<Exposure>, k: Key)
    ensures forall y :: 0 <= y < IndexOf(exposures, k) ==> exposures[y].key != k
  {
    if exposures != [] && exposures[0].key != k {
      IndexIsFirst(exposures[1..], k);
      assert forall y :: 1 <= y < |exposures| ==> exposures[y] == exposures[1..][y - 1];
    }
  }

  /** The index is the only position with these two properties. */
  lemma IndexIsOnly(exposures: seq<Exposure>, k: Key, x: nat)
    requires x <= |exposures| && (x < |exposures| ==> exposures[x].key == k)
    requires forall y :: 0 <= y < x ==> exposures[y].key != k
    ensures IndexOf(exposures, k) == x
  {
    IndexIsFirst(exposures, k);
  }

  /** The asset, the first limitations and the key are kept from the first observation. */
  function RefreshExposure(e: Exposure, t: Task): Exposure {
    e.(matchClass := t.matchClass,
       confidence := t.confidence,
       state := StateOf(t.matchClass),
       matchedRules := if t.matchedRules != [] then t.matchedRules else e.matchedRules,
       priority := t.priority,
       policyVersion := t.policyVersion)
  }

  function NewExposure(t: Task): Exposure {
    Exposure(t.key, t.assetId, t.limitations, t.matchClass, t.confidence, StateOf(t.matchClass),
             t.matchedRules, t.priority, t.policyVersion)
  }

  /** First commit of a task. */
  function Upsert(c: Core, t: Task): Core {
    var x := IndexOf(c.exposures, t.key);
    var note := Evidence(x, t.reference);
    c.(exposures := if x < |c.exposures| then c.exposures[x := RefreshExposure(c.exposures[x], t)]
                    else c.exposures + [NewExposure(t)],
       evidence := if note in c.evidence then c.evidence else c.evidence + [note])
  }

  /** A non-closed case of the organization lists the exposure. */
  predicate HasOpenCase(cases: seq<Case>, organization: string, x: nat) {
    exists i | 0 <= i < |cases| :: cases[i].status != Closed && cases[i].organization == organization && x in cases[i].exposures
  }

  function CaseFor(s: Settings, e: Exposure, x: nat): Case {
    var owner := s.ownerOf(e.key.organization, e.assetId);
    NewCase(e.key.organization, owner.team, e.priority in {P0, P1} && owner.source == Ownership.ByDefault,
            e.priority, e.policyVersion, [x])
  }

  predicate OpensCase(s: Settings, c: Core, t: Task) {
    var x := IndexOf(c.exposures, t.key);
    && t.wantsCase && s.autoCreate && x < |c.exposures|
    && CaseClass(c.exposures[x].matchClass)
    && !HasOpenCase(c.cases, c.exposures[x].key.organization, x)
  }

  /** Second commit of a task. */
  function OpenCase(s: Settings, c: Core, t: Task): Core {
    var x := IndexOf(c.exposures, t.key);
    if OpensCase(s, c, t) then c.(cases := c.cases + [CaseFor(s, c.exposures[x], x)]) else c
  }

  function Work(s: Settings, c: Core, t: Task): Core {
    OpenCase(s, Upsert(c, t), t)
  }

  /** The first `n` tasks, one after the other. */
  function RunTo(s: Settings, c: Core, ts: seq<Task>, n: nat): Core
    requires n <= |ts|
  {
    if n == 0 then c else Work(s, RunTo(s, c, ts, n - 1), ts[n - 1])
  }

  function RunTasks(s: Settings, c: Core, ts: seq<Task>): Core {
    RunTo(s, c, ts, |ts|)
  }

  /** The tables after `done` whole tasks, plus the first commit of the next one when `half`. */
  function Partial(s: Settings, c: Core, ts: seq<Task>, done: nat, half: bool): Core
    requires done <= |ts| && (half ==> done < |ts|)
  {
    var here := RunTo(s, c, ts, done);
    if half then Upsert(here, ts[done]) else here
  }

  // -- uniqueness ---------------------------------------------------------------------------------

  /** At most one exposure per key, and at most one evidence row per exposure and event. */
  ghost predicate Unique(c: Core) {
    && (forall x, y :: 0 <= x < y < |c.exposures| ==> c.exposures[x].key != c.exposures[y].key)
    && (forall i, j :: 0 <= i < j < |c.evidence| ==> c.evidence[i] != c.evidence[j])
  }

  lemma WorkUnique(s: Settings, c: Core, t: Task)
    requires Unique(c)
    ensures Unique(Upsert(c, t)) && Unique(Work(s, c, t))
  {
    var x := IndexOf(c.exposures, t.key);
    IndexIsFirst(c.exposures, t.key);
    assert Evidence(x, t.reference) !in c.evidence ==>
      forall i :: 0 <= i < |c.evidence| ==> c.evidence[i] != Evidence(x, t.reference);
  }

  lemma {:induction false} RunUnique(s: Settings, c: Core, ts: seq<Task>, n: nat)
    requires Unique(c) && n <= |ts|
    ensures Unique(RunTo(s, c, ts, n))
  {
    if n > 0 {
      RunUnique(s, c, ts, n - 1);
      WorkUnique(s, RunTo(s, c, ts, n - 1), ts[n - 1]);
    }
  }

  // -- what a task achieves -----------------------------------------------------------------------

  /**
   * After an upsert exactly one row carries the task's key; it says what the matcher and the policy
   * said last, keeps where it was first seen, and every other row is as before.
   */
  lemma UpsertMeaning(c: Core, t: Task)
    requires Unique(c)
    ensures var x, r := IndexOf(c.exposures, t.key), Upsert(c, t);
            && x < |r.exposures| && |c.exposures| <= |r.exposures| <= |c.exposures| + 1
            && (forall y :: 0 <= y < |r.exposures| ==> (r.exposures[y].key == t.key <==> y == x))
            && (forall y :: 0 <= y < |c.exposures| && y != x ==> r.exposures[y] == c.exposures[y])
            && r.exposures[x].matchClass == t.matchClass && r.exposures[x].confidence == t.confidence
            && r.exposures[x].priority == t.priority && r.exposures[x].policyVersion == t.policyVersion
            && (r.exposures[x].state == "active" <==> t.matchClass == Confirmed || t.matchClass == Deterministic)
            && (r.exposures[x].state == "not_affected" <==> t.matchClass == NotAffected)
            && (r.exposures[x].state == "candidate" <==> t.matchClass == Candidate || t.matchClass == Corroborated)
            && (t.matchedRules != [] ==> r.exposures[x].matchedRules == t.matchedRules)
            && r.exposures[x].assetId == (if x < |c.exposures| then c.exposures[x].assetId else t.assetId)
            && r.exposures[x].limitations == (if x < |c.exposures| then c.exposures[x].limitations else t.limitations)
            && (x < |c.exposures| && t.matchedRules == [] ==> r.exposures[x].matchedRules == c.exposures[x].matchedRules)
            && (forall n :: n in r.evidence <==> n in c.evidence || n == Evidence(x, t.reference))
            && r.cases == c.cases
  {
    IndexIsFirst(c.exposures, t.key);
  }

  /**
   * After a case-class task that may open a case, its exposure has an open case of its organization:
   * the one it had before, or one new case, listing only it, at the task's priority.
   */
  lemma CaseMeaning(s: Settings, c: Core, t: Task)
    ensures var x, r := IndexOf(c.exposures, t.key), Work(s, c, t);
            var due := t.wantsCase && s.autoCreate && (t.matchClass == Confirmed || t.matchClass == Deterministic);
            && r.exposures == Upsert(c, t).exposures
            && (due ==> HasOpenCase(r.cases, t.key.organization, x))
            && (!due || HasOpenCase(c.cases, t.key.organization, x) ==> r.cases == c.cases)
            && (due && !HasOpenCase(c.cases, t.key.organization, x) ==>
                  && |r.cases| == |c.cases| + 1 && r.cases[..|c.cases|] == c.cases
                  && r.cases[|c.cases|].status == New && r.cases[|c.cases|].version == 1
                  && r.cases[|c.cases|].exposures == [x] && r.cases[|c.cases|].priority == t.priority
                  && r.cases[|c.cases|].organization == t.key.organization
                  && r.cases[|c.cases|].policyVersion == t.policyVersion)
  {
    var x, c' := IndexOf(c.exposures, t.key), Upsert(c, t);
    IndexIsFirst(c.exposures, t.key);
    IndexIsOnly(c'.exposures, t.key, x);
    assert c'.exposures[x].key == t.key && c'.exposures[x].matchClass == t.matchClass;
    if t.wantsCase && s.autoCreate && CaseClass(t.matchClass) {
      HasCaseAfterwards(s, c', t, x);
    }
  }

  // -- crash and retry ----------------------------------------------------------------------------

  /** The fields an upsert never rewrites. */
  predicate SameOrigin(a: Exposure, b: Exposure) {
    a.key == b.key && a.assetId == b.assetId && a.limitations == b.limitations
  }

  /** `p` is `c` after some more commits. */
  ghost predicate Later(c: Core, p: Core) {
    && |c.exposures| <= |p.exposures|
    && (forall x :: 0 <= x < |c.exposures| ==> SameOrigin(c.exposures[x], p.exposures[x]))
    && c.evidence <= p.evidence
    && c.cases <= p.cases
  }

  lemma WorkLater(s: Settings, c: Core, t: Task)
    ensures Later(c, Upsert(c, t)) && Later(Upsert(c, t), Work(s, c, t)) && Later(c, Work(s, c, t))
  {}

  lemma LaterTransitive(a: Core, b: Core, c: Core)
    requires Later(a, b) && Later(b, c)
    ensures Later(a, c)
  {}

  /** The tables between the tasks of a run. */
  ghost predicate IsTrace(s: Settings, ts: seq<Task>, states: seq<Core>) {
    |states| == |ts| + 1 && forall k :: 0 <= k < |ts| ==> states[k + 1] == Work(s, states[k], ts[k])
  }

  ghost function Trace(s: Settings, c: Core, ts: seq<Task>): (states: seq<Core>)
    ensures IsTrace(s, ts, states)
    ensures forall n :: 0 <= n <= |ts| ==> states[n] == RunTo(s, c, ts, n)
  {
    seq(|ts| + 1, n requires 0 <= n <= |ts| => RunTo(s, c, ts, n))
  }

  lemma {:induction false} LaterChain(states: seq<Core>, j: nat, i: nat)
    requires j <= i < |states| && forall k :: 0 <= k < |states| - 1 ==> Later(states[k], states[k + 1])
    ensures Later(states[j], states[i])
    decreases i
  {
    if j < i {
      LaterChain(states, j, i - 1);
      LaterTransitive(states[j], states[i - 1], states[i]);
    }
  }

  lemma PrefixLater(s: Settings, c: Core, ts: seq<Task>, j: nat, i: nat)
    requires j <= i <= |ts|
    ensures Later(RunTo(s, c, ts, j), RunTo(s, c, ts, i))
  {
    var states := Trace(s, c, ts);
    forall k | 0 <= k < |ts| ensures Later(states[k], states[k + 1]) {
      WorkLater(s, states[k], ts[k]);
    }
    LaterChain(states, j, i);
  }

  /** Every rewritten field of `x` is the one of `end`, or of `now` where the row already exists there. */
  ghost predicate MixtureOf(x: Exposure, end: Exposure, known: bool, now: Exposure) {
    && SameOrigin(x, end)
    && Either(x.matchClass, end.matchClass, known, now.matchClass)
    && Either(x.confidence, end.confidence, known, now.confidence)
    && Either(x.state, end.state, known, now.state)
    && Either(x.matchedRules, end.matchedRules, known, now.matchedRules)
    && Either(x.priority, end.priority, known, now.priority)
    && Either(x.policyVersion, end.policyVersion, known, now.policyVersion)
  }

  /** The retry, at the task where the first attempt was in `now`; the first attempt died in `end`. */
  ghost predicate Retrying(retry: Core, now: Core, end: Core) {
    && Later(now, end)
    && retry.evidence == end.evidence && retry.cases == end.cases
    && |retry.exposures| == |end.exposures|
    && forall x :: 0 <= x < |end.exposures| ==>
         MixtureOf(retry.exposures[x], end.exposures[x], x < |now.exposures|,
                   if x < |now.exposures| then now.exposures[x] else end.exposures[x])
  }

  lemma IndexAgrees(a: seq<Exposure>, b: seq<Exposure>, k: Key)
    requires |a| <= |b| && forall x :: 0 <= x < |a| ==> a[x].key == b[x].key
    requires IndexOf(a, k) < |a|
    ensures IndexOf(b, k) == IndexOf(a, k)
  {
    IndexIsFirst(a, k);
    IndexIsOnly(b, k, IndexOf(a, k));
  }

  lemma UpsertMixes(x: Exposure, end: Exposure, now: Exposure, t: Task)
    requires MixtureOf(x, end, true, now)
    ensures MixtureOf(RefreshExposure(x, t), end, true, RefreshExposure(now, t))
  {}

  lemma CreationMixes(x: Exposure, end: Exposure, t: Task)
    requires MixtureOf(x, end, false, end)
    ensures MixtureOf(RefreshExposure(x, t), end, true, NewExposure(t))
  {}

  /** The retry finds the row that the first attempt found or created. */
  lemma RetryFinds(retry: Core, now: Core, end: Core, t: Task)
    requires Retrying(retry, now, end) && Later(Upsert(now, t), end)
    ensures IndexOf(now.exposures, t.key) == IndexOf(Upsert(now, t).exposures, t.key) == IndexOf(retry.exposures, t.key)
    ensures IndexOf(now.exposures, t.key) < |retry.exposures|
  {
    var x := IndexOf(now.exposures, t.key);
    var now' := Upsert(now, t).exposures;
    IndexIsFirst(now.exposures, t.key);
    IndexIsOnly(now', t.key, x);
    IndexAgrees(now', retry.exposures, t.key);
  }

  lemma RetryUpsert(retry: Core, now: Core, end: Core, t: Task)
    requires Retrying(retry, now, end) && Later(Upsert(now, t), end)
    ensures Retrying(Upsert(retry, t), Upsert(now, t), end)
  {
    var x := IndexOf(now.exposures, t.key);
    RetryFinds(retry, now, end, t);
    assert Evidence(x, t.reference) in Upsert(now, t).evidence;
    if x < |now.exposures| {
      UpsertMixes(retry.exposures[x], end.exposures[x], now.exposures[x], t);
    } else {
      CreationMixes(retry.exposures[x], end.exposures[x], t);
    }
  }

  lemma OpenCaseStays(a: seq<Case>, b: seq<Case>, organization: string, x: nat)
    requires a <= b && HasOpenCase(a, organization, x)
    ensures HasOpenCase(b, organization, x)
  {
    var i :| 0 <= i < |a| && a[i].status != Closed && a[i].organization == organization && x in a[i].exposures;
    assert b[i] == a[i];
  }

  /** After the second commit a case-class task that may open a case has an open one. */
  lemma HasCaseAfterwards(s: Settings, c: Core, t: Task, x: nat)
    requires x == IndexOf(c.exposures, t.key) < |c.exposures|
    requires t.wantsCase && s.autoCreate && CaseClass(c.exposures[x].matchClass)
    ensures HasOpenCase(OpenCase(s, c, t).cases, t.key.organization, x)
  {
    if OpensCase(s, c, t) {
      assert OpenCase(s, c, t).cases[|c.cases|] == CaseFor(s, c.exposures[x], x);
    }
  }

  /** A task that had its case, or needed none, needs none again. */
  lemma NoSecondCase(s: Settings, retry: Core, now: Core, end: Core, t: Task, x: nat)
    requires x == IndexOf(now.exposures, t.key) == IndexOf(retry.exposures, t.key)
    requires x < |now.exposures| && x < |retry.exposures|
    requires now.exposures[x].matchClass == retry.exposures[x].matchClass
    requires retry.cases == end.cases && OpenCase(s, now, t).cases <= end.cases
    ensures OpenCase(s, retry, t) == retry
  {
    if t.wantsCase && s.autoCreate && CaseClass(now.exposures[x].matchClass) {
      HasCaseAfterwards(s, now, t, x);
      OpenCaseStays(OpenCase(s, now, t).cases, end.cases, t.key.organization, x);
    }
  }

  lemma RetryTask(s: Settings, retry: Core, now: Core, end: Core, t: Task)
    requires Retrying(retry, now, end) && Later(Work(s, now, t), end)
    ensures Retrying(Work(s, retry, t), Work(s, now, t), end)
  {
    var x, now', retry' := IndexOf(now.exposures, t.key), Upsert(now, t), Upsert(retry, t);
    WorkLater(s, now, t);
    LaterTransitive(now', Work(s, now, t), end);
    RetryFinds(retry, now, end, t);
    RetryUpsert(retry, now, end, t);
    IndexAgrees(now'.exposures, retry'.exposures, t.key);
    NoSecondCase(s, retry', now', end, t, x);
  }

  lemma PartialLater(s: Settings, c: Core, ts: seq<Task>, done: nat, half: bool, j: nat)
    requires done <= |ts| && (half ==> done < |ts|) && j <= done
    ensures Later(RunTo(s, c, ts, j), Partial(s, c, ts, done, half))
  {
    PrefixLater(s, c, ts, j, done);
    if half {
      WorkLater(s, RunTo(s, c, ts, done), ts[done]);
      LaterTransitive(RunTo(s, c, ts, j), RunTo(s, c, ts, done), Partial(s, c, ts, done, half));
    }
  }

  lemma RetryStarts(c: Core, end: Core)
    requires Later(c, end)
    ensures Retrying(end, c, end)
  {}

  /** The correspondence holds along the retry as far as each task carries it over. */
  lemma {:induction false} RetryChain(retries: seq<Core>, nows: seq<Core>, end: Core, j: nat)
    requires j < |retries| && j < |nows| && Retrying(retries[0], nows[0], end)
    requires forall k :: 0 <= k < j && Retrying(retries[k], nows[k], end) ==> Retrying(retries[k + 1], nows[k + 1], end)
    ensures Retrying(retries[j], nows[j], end)
  {
    if j > 0 {
      RetryChain(retries, nows, end, j - 1);
    }
  }

  lemma RetryTrace(s: Settings, ts: seq<Task>, retries: seq<Core>, nows: seq<Core>, end: Core, j: nat)
    requires IsTrace(s, ts, retries) && IsTrace(s, ts, nows) && j <= |ts|
    requires retries[0] == end && forall k :: 0 <= k <= j ==> Later(nows[k], end)
    ensures Retrying(retries[j], nows[j], end)
  {
    RetryStarts(nows[0], end);
    forall k | 0 <= k < j && Retrying(retries[k], nows[k], end)
      ensures Retrying(retries[k + 1], nows[k + 1], end)
    {
      assert Later(nows[k + 1], end);
      RetryTask(s, retries[k], nows[k], end, ts[k]);
    }
    RetryChain(retries, nows, end, j);
  }

  lemma RetriedEqually(retry: Core, end: Core)
    requires Retrying(retry, end, end)
    ensures retry == end
  {
    assert forall x :: 0 <= x < |end.exposures| ==> retry.exposures[x] == end.exposures[x];
  }

  lemma RetriedHalf(s: Settings, retry: Core, now: Core, t: Task)
    requires Retrying(retry, now, Upsert(now, t))
    ensures Upsert(retry, t) == Upsert(now, t)
  {
    var end := Upsert(now, t);
    WorkLater(s, now, t);
    RetryUpsert(retry, now, end, t);
    RetriedEqually(Upsert(retry, t), end);
  }

  /**
   * Crash-retry equivalence: dying between any two commits and running the same tasks again ends
   * with the same exposures, match evidence and cases as one uninterrupted run.
   */
  lemma RetryEquivalent(s: Settings, c: Core, ts: seq<Task>, done: nat, half: bool)
    requires done <= |ts| && (half ==> done < |ts|)
    ensures RunTasks(s, Partial(s, c, ts, done, half), ts) == RunTasks(s, c, ts)
  {
    var end, now := Partial(s, c, ts, done, half), RunTo(s, c, ts, done);
    var nows := Trace(s, c, ts);
    forall k | 0 <= k <= done ensures Later(nows[k], end) {
      PartialLater(s, c, ts, done, half, k);
    }
    RetryTrace(s, ts, Trace(s, end, ts), nows, end, done);
    var retry := RunTo(s, end, ts, done);
    if half {
      RetriedHalf(s, retry, now, ts[done]);
      SameFromHere(s, end, c, ts, done + 1);
    } else {
      RetriedEqually(retry, end);
      SameFromHere(s, end, c, ts, done);
    }
  }

  lemma {:induction false} EqualChain(a: seq<Core>, b: seq<Core>, j: nat)
    requires j < |a| == |b| && a[j] == b[j]
    requires forall k :: j <= k < |a| - 1 && a[k] == b[k] ==> a[k + 1] == b[k + 1]
    ensures a[|a| - 1] == b[|b| - 1]
    decreases |a| - j
  {
    if j < |a| - 1 {
      EqualChain(a, b, j + 1);
    }
  }

  lemma SameFromHere(s: Settings, a: Core, b: Core, ts: seq<Task>, j: nat)
    requires j <= |ts| && RunTo(s, a, ts, j) == RunTo(s, b, ts, j)
    ensures RunTasks(s, a, ts) == RunTasks(s, b, ts)
  {
    EqualChain(Trace(s, a, ts), Trace(s, b, ts), j);
  }

  /** Running a handler twice in a row is running it once. */
  lemma RunTwice(s: Settings, c: Core, ts: seq<Task>)
    ensures RunTasks(s, RunTasks(s, c, ts), ts) == RunTasks(s, c, ts)
  {
    RetryEquivalent(s, c, ts, |ts|, false);
  }

  /** Ownership of an automatically opened case, whose one exposure names at most one asset. */
  function AutoOwner(inv: Ownership.Inventory, setting: string, organization: string, assetId: Option<string>): Ownership.ResolvedOwner {
    var default := Ownership.DefaultTeam(setting);
    if assetId.GetOr("") == "" then Ownership.ResolvedOwner(default, Ownership.ByDefault)
    else Ownership.Resolve(inv, organization, assetId.value, default)
  }

  /** With `AutoOwner` as `ownerOf`, an automatically opened case has the owner and the escalation
      flag that case creation resolves for one asset whose id carries no outer spaces. */
  lemma AutoOwnerIsCreationOwner(inv: Ownership.Inventory, setting: string, s: Settings, e: Exposure, x: nat)
    requires s.ownerOf == ((organization, assetId) => AutoOwner(inv, setting, organization, assetId))
    ensures var default, org := Ownership.DefaultTeam(setting), e.key.organization;
            var linked := if e.assetId.GetOr("") == "" then {} else {e.assetId.value};
            var owner := AutoOwner(inv, setting, org, e.assetId);
            && CaseFor(s, e, x).ownerTeam == owner.team
            && Ownership.Outcome(inv, org, setting, e.priority, linked, default,
                 Ok(Ownership.CaseOwnership(owner, CaseFor(s, e, x).escalated)))
  {
    var owner := AutoOwner(inv, setting, e.key.organization, e.assetId);
    Ownership.OwnerOrder(owner, owner, owner);
  }
}
