/**
 * Interleaved writers of one case. A versioned writer reads the case and later issues one
 * compare-and-swap on the version; both are atomic, anything may happen in between.
 */
module CaseLocking {
  import opened Domain
  import opened Cases

  /** What a writer holds between its two steps: it checked `target` against the status it read. */
  datatype Ticket = Ticket(expected: nat, readStatus: Status, target: Status)

  /** `history` lists every status the case has had; `wins` the version each commit was made on. */
  datatype Shared = Shared(current: Case, history: seq<Status>, wins: seq<nat>, tickets: map<nat, Ticket>)

  datatype Event =
    | Read(writer: nat, expected: nat, target: Status)
    | CompareAndSwap(writer: nat)

  function Start(c: Case): Shared {
    Shared(c, [c.status], [], map[])
  }

  /** The loaded status decides; an illegal target raises before anything is written. */
  function ReadStep(s: Shared, w: nat, expected: nat, target: Status): Shared {
    if target in AllowedTransitions(s.current.status) then
      s.(tickets := s.tickets[w := Ticket(expected, s.current.status, target)])
    else s
  }

  /** `UPDATE ... WHERE version = expected`: zero rows mean a conflict and nothing is written. */
  function SwapStep(s: Shared, w: nat): Shared {
    if w !in s.tickets then s
    else
      var t := s.tickets[w];
      var spent := s.(tickets := s.tickets - {w});
      if t.expected != s.current.version then spent
      else spent.(
        current := s.current.(status := t.target, version := t.expected + 1),
        history := s.history + [t.target],
        wins := s.wins + [t.expected])
  }

  function Step(s: Shared, e: Event): Shared {
    match e
    case Read(w, expected, target) => ReadStep(s, w, expected, target)
    case CompareAndSwap(w) => SwapStep(s, w)
  }

  function RunAll(s: Shared, events: seq<Event>): Shared {
    if events == [] then s else Step(RunAll(s, events[..|events| - 1]), events[|events| - 1])
  }

  // -- which guesses are harmless -----------------------------------------------------------------

  /** Every lifecycle path of length `n` from `from` ends at a status that allows `target`. */
  predicate AllPathsAllow(from: Status, n: nat, target: Status)
    decreases n
  {
    if n == 0 then target in AllowedTransitions(from)
    else forall x | x in AllowedTransitions(from) :: AllPathsAllow(x, n - 1, target)
  }

  /** A version a writer may pass: one already committed when it reads the case, or the one two
      commits ahead of a status whose only way on is triage. */
  predicate Harmless(c: Case, expected: nat) {
    expected <= c.version || (expected == c.version + 2 && AllowedTransitions(c.status) == {Triage})
  }

  /** One more step in front of a path that goes wrong. */
  lemma Astray(from: Status, to: Status, n: nat, target: Status)
    requires to in AllowedTransitions(from) && !AllPathsAllow(to, n, target)
    ensures !AllPathsAllow(from, n + 1, target)
  {}

  /** Some path of length `n` from triage, of either parity, ends where `target` is forbidden. */
  lemma {:induction false} TriageLeadsAstray(n: nat, target: Status)
    requires target == Triage ==> n != 1
    requires target in AllowedTransitions(Triage) ==> n > 0
    ensures !AllPathsAllow(Triage, n, target)
  {
    if n == 1 {
      Astray(Triage, NotApplicable, 0, target);
    } else if n == 2 && target in AllowedTransitions(Triage) {
      Astray(Assigned, InProgress, 0, target);
      Astray(Triage, Assigned, 1, target);
    } else if n == 3 && target == Triage {
      Astray(InProgress, AwaitingVerification, 0, target);
      Astray(Assigned, InProgress, 1, target);
      Astray(Triage, Assigned, 2, target);
    } else if n >= 2 {
      TriageLeadsAstray(n - 2, target);
      Astray(NotApplicable, Triage, n - 2, target);
      Astray(Triage, NotApplicable, n - 1, target);
    }
  }

  /** The only guesses ahead that no path defeats. */
  lemma GuessTable(c: Case, n: nat, target: Status)
    requires n > 0 && target in AllowedTransitions(c.status)
    ensures AllPathsAllow(c.status, n, target) <==> n == 2 && AllowedTransitions(c.status) == {Triage}
  {
    var from := c.status;
    if AllowedTransitions(from) == {Triage} {
      OnlyTriage(from, n);
    } else if from == Triage {
      TriageLeadsAstray(n, target);
    } else if from == Assigned || from == InProgress {
      if n == 2 && target == Triage {
        var next := if from == Assigned then InProgress else AwaitingVerification;
        Astray(next, if from == Assigned then AwaitingVerification else Closed, 0, Triage);
        Astray(from, next, 1, Triage);
      } else {
        TriageLeadsAstray(n - 1, target);
        Astray(from, Triage, n - 1, target);
      }
    } else if n == 1 {
      Astray(from, if from == Closed then Reopened else Closed, 0, target);
    } else {
      var next := if from == Closed then Reopened else InProgress;
      TriageLeadsAstray(n - 2, target);
      Astray(next, Triage, n - 2, target);
      Astray(from, next, n - 1, target);
    }
  }

  lemma OnlyTriage(from: Status, n: nat)
    requires n > 0 && AllowedTransitions(from) == {Triage}
    ensures AllPathsAllow(from, n, Triage) <==> n == 2
  {
    assert Triage in AllowedTransitions(from);
    if n == 2 {
      assert forall x | x in AllowedTransitions(Triage) :: AllPathsAllow(x, 0, Triage);
      assert AllPathsAllow(Triage, 1, Triage);
    } else {
      TriageLeadsAstray(n - 1, Triage);
      Astray(from, Triage, n - 1, Triage);
    }
  }

  // -- runs ---------------------------------------------------------------------------------------

  /** Every writer that reads passes a harmless version. */
  ghost predicate Careful(s: Shared, events: seq<Event>) {
    forall k :: 0 <= k < |events| && events[k].Read? ==>
      Harmless(RunAll(s, events[..k]).current, events[k].expected)
  }

  predicate IsPath(history: seq<Status>) {
    forall k :: 0 < k < |history| ==> history[k] in AllowedTransitions(history[k - 1])
  }

  /** The ticket can only commit where its move is allowed, whoever commits before it. */
  predicate CannotHurt(current: Case, t: Ticket) {
    t.expected < current.version || AllPathsAllow(current.status, t.expected - current.version, t.target)
  }

  ghost predicate Consistent(s: Shared, first: nat) {
    && |s.history| > 0 && s.history[|s.history| - 1] == s.current.status
    && IsPath(s.history)
    && s.current.version == first + |s.wins| && |s.history| == 1 + |s.wins|
    && (forall k :: 0 <= k < |s.wins| ==> s.wins[k] == first + k)
    && (forall w :: w in s.tickets ==> CannotHurt(s.current, s.tickets[w]))
  }

  lemma ReadConsistent(s: Shared, first: nat, w: nat, expected: nat, target: Status)
    requires Consistent(s, first) && Harmless(s.current, expected)
    ensures Consistent(ReadStep(s, w, expected, target), first)
  {
    if target in AllowedTransitions(s.current.status) && expected > s.current.version {
      GuessTable(s.current, expected - s.current.version, target);
    }
  }

  lemma SwapConsistent(s: Shared, first: nat, w: nat)
    requires Consistent(s, first)
    ensures Consistent(SwapStep(s, w), first)
  {
    if w in s.tickets && s.tickets[w].expected == s.current.version {
      var s' := SwapStep(s, w);
      forall u | u in s'.tickets ensures CannotHurt(s'.current, s'.tickets[u]) {
        assert CannotHurt(s.current, s.tickets[u]);
      }
    }
  }

  lemma {:induction false} StaysConsistent(s: Shared, first: nat, events: seq<Event>)
    requires Consistent(s, first) && Careful(s, events)
    ensures Consistent(RunAll(s, events), first)
  {
    if events != [] {
      var init, last := events[..|events| - 1], events[|events| - 1];
      forall k | 0 <= k < |init| && init[k].Read?
        ensures Harmless(RunAll(s, init[..k]).current, init[k].expected)
      {
        assert init[..k] == events[..k];
      }
      StaysConsistent(s, first, init);
      match last
      case Read(w, expected, target) => ReadConsistent(RunAll(s, init), first, w, expected, target);
      case CompareAndSwap(w) => SwapConsistent(RunAll(s, init), first, w);
    }
  }

  /**
   * Among writers that pass harmless versions the status history is a path of the lifecycle, the
   * version counts the commits, and no two commits were made on the same version.
   */
  lemma LockedHistory(c: Case, events: seq<Event>)
    requires Careful(Start(c), events)
    ensures Consistent(RunAll(Start(c), events), c.version)
  {
    StaysConsistent(Start(c), c.version, events);
  }

  /** Of the writers holding one version at most one succeeds. */
  lemma OneWinnerPerVersion(c: Case, events: seq<Event>, j: nat, k: nat)
    requires Careful(Start(c), events)
    requires j < k < |RunAll(Start(c), events).wins|
    ensures RunAll(Start(c), events).wins[j] < RunAll(Start(c), events).wins[k]
  {
    LockedHistory(c, events);
  }

  /** An undisturbed read and swap is the service's `transition` with an expected version. */
  lemma UndisturbedIsTransition(db: Db, i: nat, w: nat, target: Status, expected: nat, actor: string, correlation: string)
    requires i < |db.cases|
    ensures var s := SwapStep(ReadStep(Start(db.cases[i]), w, expected, target), w);
            var r := Transition(db, i, target, Some(expected), actor, correlation);
            && (r.Some? <==> s.wins == [expected])
            && r.GetOr(db).cases == db.cases[i := s.current]
  {}

  // -- the exact condition ------------------------------------------------------------------------

  /** Every writer passes a version that was already committed when it read the case. */
  ghost predicate Honest(s: Shared, events: seq<Event>) {
    forall k :: 0 <= k < |events| && events[k].Read? ==>
      events[k].expected <= RunAll(s, events[..k]).current.version
  }

  lemma {:induction false} RunThen(s: Shared, a: seq<Event>, b: seq<Event>)
    ensures RunAll(s, a + b) == RunAll(RunAll(s, a), b)
  {
    if b == [] {
      assert a + b == a;
    } else {
      RunThen(s, a, b[..|b| - 1]);
      assert (a + b)[..|a + b| - 1] == a + b[..|b| - 1];
    }
  }

  lemma HonestThen(s: Shared, a: seq<Event>, b: seq<Event>)
    requires Honest(s, a) && Honest(RunAll(s, a), b)
    ensures Honest(s, a + b)
  {
    forall k | 0 <= k < |a + b| && (a + b)[k].Read?
      ensures (a + b)[k].expected <= RunAll(s, (a + b)[..k]).current.version
    {
      if k < |a| {
        assert (a + b)[..k] == a[..k];
      } else {
        assert (a + b)[..k] == a + b[..k - |a|];
        RunThen(s, a, b[..k - |a|]);
      }
    }
  }

  /** One honest writer other than `w` makes a legal move. */
  lemma OneMove(s: Shared, w: nat, to: Status) returns (events: seq<Event>)
    requires to in AllowedTransitions(s.current.status)
    ensures Honest(s, events) && forall k :: 0 <= k < |events| && events[k].Read? ==> events[k].writer != w
    ensures var s' := RunAll(s, events);
            && s'.current == s.current.(status := to, version := s.current.version + 1)
            && s'.history == s.history + [to]
            && (w in s.tickets ==> w in s'.tickets && s'.tickets[w] == s.tickets[w])
  {
    var read, swap := Read(w + 1, s.current.version, to), CompareAndSwap(w + 1);
    events := [read, swap];
    assert events[..1] == [read] && [read][..0] == [] && events[..0] == [];
    assert RunAll(s, [read]) == Step(s, read);
    assert RunAll(s, events) == Step(Step(s, read), swap);
  }

  /** A ticket that some path defeats is defeated by honest writers moving the case along that path. */
  lemma {:induction false} Defeat(s: Shared, w: nat, n: nat) returns (events: seq<Event>)
    requires w in s.tickets && s.tickets[w].expected == s.current.version + n
    requires |s.history| > 0 && s.history[|s.history| - 1] == s.current.status
    requires !AllPathsAllow(s.current.status, n, s.tickets[w].target)
    ensures Honest(s, events) && forall k :: 0 <= k < |events| && events[k].Read? ==> events[k].writer != w
    ensures !IsPath(RunAll(s, events).history)
    decreases n
  {
    if n == 0 {
      events := [CompareAndSwap(w)];
      assert events[..0] == [];
      assert RunAll(s, events) == Step(s, CompareAndSwap(w));
      var history := RunAll(s, events).history;
      assert history == s.history + [s.tickets[w].target];
      assert history[|s.history|] !in AllowedTransitions(history[|s.history| - 1]);
    } else {
      var to :| to in AllowedTransitions(s.current.status) && !AllPathsAllow(to, n - 1, s.tickets[w].target);
      var first := OneMove(s, w, to);
      var s' := RunAll(s, first);
      var rest := Defeat(s', w, n - 1);
      events := first + rest;
      RunThen(s, first, rest);
      HonestThen(s, first, rest);
    }
  }

  /** What one outsider among honest writers can do: no continuation leaves the lifecycle. */
  ghost predicate NeverHurts(s: Shared, w: nat) {
    forall events: seq<Event> ::
      Honest(s, events) && (forall k :: 0 <= k < |events| && events[k].Read? ==> events[k].writer != w) ==>
        IsPath(RunAll(s, events).history)
  }

  /**
   * The exact condition on the version a writer passes. Whatever the others have done so far, its
   * read is harmless in every continuation by honest writers if and only if the version was already
   * committed, or lies two ahead of a status whose only way on is triage.
   */
  lemma HarmlessExactly(s: Shared, first: nat, w: nat, expected: nat, target: Status)
    requires Consistent(s, first) && target in AllowedTransitions(s.current.status)
    ensures NeverHurts(ReadStep(s, w, expected, target), w) <==> Harmless(s.current, expected)
  {
    var s' := ReadStep(s, w, expected, target);
    if Harmless(s.current, expected) {
      ReadConsistent(s, first, w, expected, target);
      forall events: seq<Event> | Honest(s', events) ensures IsPath(RunAll(s', events).history) {
        StaysConsistent(s', first, events);
      }
    } else {
      GuessTable(s.current, expected - s.current.version, target);
      var events := Defeat(s', w, expected - s.current.version);
      assert !NeverHurts(s', w);
    }
  }

  /** In particular a version guessed one ahead can always be made to commit a forbidden edge. */
  lemma GuessedVersionBreaksLifecycle(c: Case, w: nat, target: Status) returns (events: seq<Event>)
    requires target in AllowedTransitions(c.status)
    ensures Honest(ReadStep(Start(c), w, c.version + 1, target), events)
    ensures !IsPath(RunAll(Start(c), [Read(w, c.version + 1, target)] + events).history)
  {
    GuessTable(c, 1, target);
    var read := Read(w, c.version + 1, target);
    events := Defeat(Step(Start(c), read), w, 1);
    assert [read][..0] == [];
    assert RunAll(Start(c), [read]) == Step(Start(c), read);
    RunThen(Start(c), [read], events);
  }
}
