/**
 * The outbox as the orchestrator sees it: rows in creation order, an attempt cap, dead letters, and
 * what one poll may do to them. Also what any number of polls achieves.
 */
module Outbox {
  import opened Domain
  import opened Handlers
  import opened Exposures

  datatype Row = Row(event: OutboxEvent, attempts: nat, delivered: bool)

  /** An undelivered row under the attempt cap. */
  predicate Claimable(r: Row, cap: nat) {
    !r.delivered && r.attempts < cap
  }

  /** A claimable row some handler takes. */
  predicate Waiting(r: Row, cap: nat) {
    Claimable(r, cap) && Handled(r.event)
  }

  predicate Drained(rows: seq<Row>, cap: nat) {
    forall i :: 0 <= i < |rows| ==> !Claimable(rows[i], cap)
  }

  /** The attempts left to the pending rows together. */
  function Budget(rows: seq<Row>, cap: nat): nat {
    if rows == [] then 0
    else
      var last := rows[|rows| - 1];
      Budget(rows[..|rows| - 1], cap) + if Waiting(last, cap) then cap - last.attempts else 0
  }

  /** How many claimable rows are handled, or are not. */
  function Count(rows: seq<Row>, cap: nat, handled: bool): nat {
    if rows == [] then 0
    else
      var last := rows[|rows| - 1];
      Count(rows[..|rows| - 1], cap, handled) + if Claimable(last, cap) && Handled(last.event) == handled then 1 else 0
  }

  /** Handling one row without any failure, if it is pending. */
  function FinishRow(w: World, s: Settings, c: Core, i: nat, r: Row, cap: nat): Core {
    if Waiting(r, cap) then RunTasks(s, c, Plan(w, i, r.event).GetOr([])) else c
  }

  /** The tables once every pending row, oldest first, has been handled without any failure. */
  function Finish(w: World, s: Settings, c: Core, rows: seq<Row>, cap: nat): Core {
    if rows == [] then c
    else
      var i := |rows| - 1;
      FinishRow(w, s, Finish(w, s, c, rows[..i], cap), i, rows[i], cap)
  }

  /** Handlers only ever append events nobody handles. */
  ghost predicate OnlyNotices(rows: seq<Row>, from: nat) {
    from <= |rows|
    && forall j :: from <= j < |rows| ==> !Handled(rows[j].event) && rows[j].attempts == 0
  }

  // -- how single rows matter ---------------------------------------------------------------------

  lemma {:induction false} CountAfter(rows: seq<Row>, rows': seq<Row>, cap: nat, i: nat, handled: bool)
    requires i < |rows| == |rows'| && forall j :: 0 <= j < |rows| && j != i ==> rows'[j] == rows[j]
    requires Claimable(rows[i], cap) && !Claimable(rows'[i], cap)
    ensures Count(rows', cap, handled) == Count(rows, cap, handled) - if Handled(rows[i].event) == handled then 1 else 0
  {
    var n := |rows| - 1;
    if i < n {
      CountAfter(rows[..n], rows'[..n], cap, i, handled);
    } else {
      assert rows'[..n] == rows[..n];
    }
  }

  lemma {:induction false} CountNotices(rows: seq<Row>, from: nat, cap: nat)
    requires OnlyNotices(rows, from)
    ensures Count(rows, cap, true) == Count(rows[..from], cap, true)
  {
    if |rows| == from {
      assert rows[..from] == rows;
    } else {
      CountNotices(rows[..|rows| - 1], from, cap);
      assert rows[..|rows| - 1][..from] == rows[..from];
    }
  }

  lemma FinishLast(w: World, s: Settings, c: Core, rows: seq<Row>, cap: nat, n: nat)
    requires 0 < n <= |rows|
    ensures Finish(w, s, c, rows[..n], cap) == FinishRow(w, s, Finish(w, s, c, rows[..n - 1], cap), n - 1, rows[n - 1], cap)
  {
    assert rows[..n][..n - 1] == rows[..n - 1];
  }

  /** Rows that agree on what is pending, over tables that agree once row `i` is done, finish alike. */
  lemma {:induction false} FinishAlike(w: World, s: Settings, c: Core, c': Core, rows: seq<Row>, rows': seq<Row>, cap: nat,
                                       from: nat, n: nat)
    requires from <= n <= |rows| && n <= |rows'|
    requires Finish(w, s, c, rows[..from], cap) == Finish(w, s, c', rows'[..from], cap)
    requires forall j :: from <= j < n ==> rows'[j] == rows[j]
    ensures Finish(w, s, c, rows[..n], cap) == Finish(w, s, c', rows'[..n], cap)
  {
    if from < n {
      FinishAlike(w, s, c, c', rows, rows', cap, from, n - 1);
      FinishLast(w, s, c, rows, cap, n);
      FinishLast(w, s, c', rows', cap, n);
    }
  }

  lemma {:induction false} FinishIdle(w: World, s: Settings, c: Core, rows: seq<Row>, cap: nat)
    requires forall j :: 0 <= j < |rows| ==> !Waiting(rows[j], cap)
    ensures Finish(w, s, c, rows, cap) == c
  {
    if rows != [] {
      FinishIdle(w, s, c, rows[..|rows| - 1], cap);
    }
  }

  lemma {:induction false} FinishNotices(w: World, s: Settings, c: Core, rows: seq<Row>, from: nat, cap: nat)
    requires OnlyNotices(rows, from)
    ensures Finish(w, s, c, rows, cap) == Finish(w, s, c, rows[..from], cap)
  {
    if |rows| == from {
      assert rows[..from] == rows;
    } else {
      FinishNotices(w, s, c, rows[..|rows| - 1], from, cap);
      assert rows[..|rows| - 1][..from] == rows[..from];
    }
  }

  lemma FinishOne(w: World, s: Settings, c: Core, rows: seq<Row>, cap: nat, i: nat)
    requires i < |rows| && forall j :: 0 <= j < i ==> !Waiting(rows[j], cap)
    ensures Finish(w, s, c, rows[..i + 1], cap) == FinishRow(w, s, c, i, rows[i], cap)
  {
    FinishLast(w, s, c, rows, cap, i + 1);
    FinishIdle(w, s, c, rows[..i], cap);
  }

  /** Row `i`, the oldest pending one, changes and notices are appended; the tables move from `c` to `c'`. */
  lemma FinishStep(w: World, s: Settings, c: Core, c': Core, rows: seq<Row>, rows': seq<Row>, cap: nat, i: nat)
    requires i < |rows| <= |rows'|
    requires forall j :: 0 <= j < i ==> !Waiting(rows[j], cap)
    requires forall j :: 0 <= j < |rows| && j != i ==> rows'[j] == rows[j]
    requires rows'[i].event == rows[i].event && OnlyNotices(rows', |rows|)
    requires FinishRow(w, s, c, i, rows[i], cap) == FinishRow(w, s, c', i, rows'[i], cap)
    ensures Finish(w, s, c', rows', cap) == Finish(w, s, c, rows, cap)
  {
    FinishOne(w, s, c, rows, cap, i);
    FinishOne(w, s, c', rows', cap, i);
    FinishAlike(w, s, c, c', rows, rows', cap, i + 1, |rows|);
    FinishNotices(w, s, c', rows', |rows|, cap);
    assert rows[..|rows|] == rows;
  }

  // -- one poll -----------------------------------------------------------------------------------

  /** How a poll ends: nothing left to claim, one event failed, or the worker died. */
  datatype Ending = Emptied | Failed(row: nat) | Died

  /** A poll delivers some rows, appends notices, and adds one attempt exactly to the row that failed. */
  ghost predicate PollRows(rows: seq<Row>, rows': seq<Row>, cap: nat, ending: Ending) {
    && OnlyNotices(rows', |rows|)
    && (forall j :: 0 <= j < |rows| ==>
          && rows'[j].event == rows[j].event
          && (rows[j].delivered ==> rows'[j].delivered)
          && (rows'[j].delivered && !rows[j].delivered ==> Claimable(rows[j], cap))
          && rows'[j].attempts == rows[j].attempts + if ending == Failed(j) then 1 else 0)
    && (ending.Failed? ==> ending.row < |rows| && Waiting(rows[ending.row], cap) && !rows'[ending.row].delivered)
    && (ending.Emptied? ==> Drained(rows', cap))
  }

  predicate DeadLetters(rows': seq<Row>, cap: nat, ending: Ending) {
    ending.Failed? && ending.row < |rows'| && rows'[ending.row].attempts >= cap
  }

  /** The whole effect of a poll: rows, and tables that stay on course unless an event was given up. */
  ghost predicate Poll(w: World, s: Settings, cap: nat, c: Core, rows: seq<Row>, c': Core, rows': seq<Row>, ending: Ending) {
    && PollRows(rows, rows', cap, ending)
    && (!DeadLetters(rows', cap, ending) ==> Finish(w, s, c', rows', cap) == Finish(w, s, c, rows, cap))
  }

  lemma {:induction false} BudgetAfterPoll(rows: seq<Row>, rows': seq<Row>, cap: nat, ending: Ending, n: nat)
    requires PollRows(rows, rows', cap, ending) && n <= |rows|
    ensures Budget(rows'[..n], cap) <= Budget(rows[..n], cap)
    ensures ending.Failed? && ending.row < n ==> Budget(rows'[..n], cap) < Budget(rows[..n], cap)
  {
    if n > 0 {
      BudgetAfterPoll(rows, rows', cap, ending, n - 1);
      assert rows[..n][..n - 1] == rows[..n - 1] && rows'[..n][..n - 1] == rows'[..n - 1];
    }
  }

  lemma {:induction false} BudgetNotices(rows: seq<Row>, from: nat, cap: nat)
    requires OnlyNotices(rows, from)
    ensures Budget(rows, cap) == Budget(rows[..from], cap)
  {
    if |rows| == from {
      assert rows[..from] == rows;
    } else {
      BudgetNotices(rows[..|rows| - 1], from, cap);
      assert rows[..|rows| - 1][..from] == rows[..from];
    }
  }

  /** A failed poll uses up budget; a poll never creates any. */
  lemma PollSpendsBudget(rows: seq<Row>, rows': seq<Row>, cap: nat, ending: Ending)
    requires PollRows(rows, rows', cap, ending)
    ensures Budget(rows', cap) <= Budget(rows, cap)
    ensures ending.Failed? ==> Budget(rows', cap) < Budget(rows, cap)
  {
    BudgetAfterPoll(rows, rows', cap, ending, |rows|);
    BudgetNotices(rows', |rows|, cap);
    assert rows[..|rows|] == rows;
  }

  lemma DrainedStays(rows: seq<Row>, rows': seq<Row>, cap: nat, ending: Ending)
    requires PollRows(rows, rows', cap, ending) && Drained(rows, cap) && !ending.Died?
    ensures Drained(rows', cap)
  {}

  // -- many polls ---------------------------------------------------------------------------------

  datatype Snapshot = Snapshot(core: Core, rows: seq<Row>)

  ghost predicate Polls(w: World, s: Settings, cap: nat, states: seq<Snapshot>, endings: seq<Ending>) {
    && |states| == |endings| + 1
    && forall k :: 0 <= k < |endings| ==>
         Poll(w, s, cap, states[k].core, states[k].rows, states[k + 1].core, states[k + 1].rows, endings[k])
  }

  lemma {:induction false} ProgressWithin(w: World, s: Settings, cap: nat, states: seq<Snapshot>, endings: seq<Ending>, k: nat)
    requires Polls(w, s, cap, states, endings) && Died !in endings && k <= |endings|
    ensures Drained(states[k].rows, cap) || Budget(states[k].rows, cap) + k <= Budget(states[0].rows, cap)
  {
    if k > 0 {
      ProgressWithin(w, s, cap, states, endings, k - 1);
      var a, b := states[k - 1].rows, states[k].rows;
      assert endings[k - 1] in endings;
      PollSpendsBudget(a, b, cap, endings[k - 1]);
      if Drained(a, cap) {
        DrainedStays(a, b, cap, endings[k - 1]);
      }
    }
  }

  /**
   * Bounded progress: after as many polls as there were attempts left, plus one, every event is
   * delivered or dead-lettered, whatever failed in between.
   */
  lemma BoundedProgress(w: World, s: Settings, cap: nat, states: seq<Snapshot>, endings: seq<Ending>, k: nat)
    requires Polls(w, s, cap, states, endings) && Died !in endings
    requires Budget(states[0].rows, cap) + 1 <= k <= |endings|
    ensures forall i :: 0 <= i < |states[k].rows| ==> states[k].rows[i].delivered || states[k].rows[i].attempts >= cap
  {
    ProgressWithin(w, s, cap, states, endings, k);
  }

  lemma {:induction false} StayOnCourse(w: World, s: Settings, cap: nat, states: seq<Snapshot>, endings: seq<Ending>, k: nat)
    requires Polls(w, s, cap, states, endings) && k <= |endings|
    requires forall j :: 0 <= j < k ==> !DeadLetters(states[j + 1].rows, cap, endings[j])
    ensures Finish(w, s, states[k].core, states[k].rows, cap) == Finish(w, s, states[0].core, states[0].rows, cap)
  {
    if k > 0 {
      StayOnCourse(w, s, cap, states, endings, k - 1);
    }
  }

  /**
   * Recovery over whole runs: if the queue ends up drained and nothing was dead-lettered, then
   * through any number of failures, crashes and retries the exposures, evidence and cases are those
   * of one undisturbed pass over the pending events, oldest first.
   */
  lemma RunsRecover(w: World, s: Settings, cap: nat, states: seq<Snapshot>, endings: seq<Ending>)
    requires Polls(w, s, cap, states, endings)
    requires forall j :: 0 <= j < |endings| ==> !DeadLetters(states[j + 1].rows, cap, endings[j])
    requires Drained(states[|endings|].rows, cap)
    ensures states[|endings|].core == Finish(w, s, states[0].core, states[0].rows, cap)
  {
    StayOnCourse(w, s, cap, states, endings, |endings|);
    FinishIdle(w, s, states[|endings|].core, states[|endings|].rows, cap);
  }
}
