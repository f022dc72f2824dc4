/**
 * The single outbox worker over its tables. A handler may raise, and the process may die, at every
 * commit boundary; `if *` stands for either.
 */
module OrchestratorModule {
  import opened Domain
  import opened Cases
  import opened Exposures
  import opened Handlers
  import opened Outbox

  /** How a piece of work ends: completed, raised an exception, or the process died. */
  datatype Flow = Completed | Raised | Crashed

  class Orchestrator {
    const world: World
    const settings: Settings
    const batchSize: nat
    const cap: nat

    var exposures: seq<Exposure>
    var evidence: seq<Evidence>
    var cases: seq<Case>
    var links: set<(nat, nat)>
    var tickets: map<nat, string>
    var events: seq<Row>

    function Tables(): Core
      reads this
    {
      Core(exposures, evidence, cases)
    }

    /** Every link row repeats what the case's own exposure list says. */
    ghost predicate LinksListed()
      reads this
    {
      forall l :: l in links ==>
        && l.0 < |cases| && l.1 < |exposures|
        && l.1 in cases[l.0].exposures
        && cases[l.0].organization == exposures[l.1].key.organization
    }

    constructor (world: World, settings: Settings, batchSize: nat, cap: nat, events: seq<Row>)
      requires batchSize > 0
      ensures this.world == world && this.settings == settings && this.batchSize == batchSize && this.cap == cap
      ensures this.events == events && Tables() == Core([], [], []) && LinksListed()
    {
      this.world, this.settings, this.batchSize, this.cap := world, settings, batchSize, cap;
      exposures, evidence, cases, links, tickets := [], [], [], {}, map[];
      this.events := events;
    }

    method UpsertExposure(t: Task) returns (x: nat)
      requires LinksListed()
      modifies this`exposures, this`evidence
      ensures Tables() == Upsert(old(Tables()), t) && LinksListed()
      ensures x == IndexOf(exposures, t.key) < |exposures|
    {
      x := IndexOf(exposures, t.key);
      IndexIsFirst(exposures, t.key);
      if x < |exposures| {
        exposures := exposures[x := RefreshExposure(exposures[x], t)];
      } else {
        exposures := exposures + [NewExposure(t)];
      }
      IndexIsOnly(exposures, t.key, x);
      if Evidence(x, t.reference) !in evidence {
        evidence := evidence + [Evidence(x, t.reference)];
      }
    }

    /** The link rows and the exposure lists are both searched; the case row and its link row are
        separate commits, so a fault may lose the link. */
    method MaybeCreateCase(t: Task, x: nat) returns (flow: Flow)
      requires LinksListed() && x == IndexOf(exposures, t.key) < |exposures|
      modifies this`cases, this`links, this`tickets, this`events
      ensures Tables() == OpenCase(settings, old(Tables()), t) && LinksListed()
      ensures old(events) <= events && OnlyNotices(events, |old(events)|)
    {
      flow := Completed;
      var e := exposures[x];
      if !t.wantsCase || !settings.autoCreate || !CaseClass(e.matchClass) { return; }
      if exists l | l in links :: l.1 == x && cases[l.0].status != Closed {
        ghost var l :| l in links && l.1 == x && cases[l.0].status != Closed;
        assert HasOpenCase(cases, e.key.organization, x);
        return;
      }
      if HasOpenCase(cases, e.key.organization, x) { return; }
      var id := |cases|;
      cases := cases + [CaseFor(settings, e, x)];
      events := events + [Row(Unhandled("vulnops.case.created.v1"), 0, false)];
      if * { return Raised; }
      if * { return Crashed; }
      links := links + {(id, x)};
      if t.ticket.Some? {
        tickets := tickets[id := t.ticket.value];
      }
    }

    /** One task: the upsert commit, then the case commits. */
    method HandleTask(t: Task) returns (flow: Flow)
      requires LinksListed()
      modifies this`exposures, this`evidence, this`cases, this`links, this`tickets, this`events
      ensures LinksListed()
      ensures old(events) <= events && OnlyNotices(events, |old(events)|)
      ensures TaskReached(settings, old(Tables()), Tables(), t)
      ensures flow.Completed? ==> Tables() == Work(settings, old(Tables()), t)
    {
      if * { return Raised; }
      if * { return Crashed; }
      var x := UpsertExposure(t);
      if * { return Raised; }
      if * { return Crashed; }
      flow := MaybeCreateCase(t, x);
    }

    method HandleTasks(ts: seq<Task>) returns (flow: Flow)
      requires LinksListed()
      modifies this`exposures, this`evidence, this`cases, this`links, this`tickets, this`events
      ensures LinksListed()
      ensures old(events) <= events && OnlyNotices(events, |old(events)|)
      ensures flow.Completed? ==> Tables() == RunTasks(settings, old(Tables()), ts)
      ensures Attempted(settings, old(Tables()), Tables(), ts)
    {
      ghost var c := Tables();
      ghost var trace := Trace(settings, c, ts);
      for k := 0 to |ts|
        invariant LinksListed()
        invariant old(events) <= events && OnlyNotices(events, |old(events)|)
        invariant Tables() == trace[k]
      {
        flow := HandleTask(ts[k]);
        if !flow.Completed? {
          AttemptedHere(settings, c, Tables(), ts, k);
          return;
        }
      }
      AllAttempted(settings, c, ts);
      flow := Completed;
    }

    method CompleteEvent(i: nat)
      requires i < |events|
      modifies this`events
      ensures events == old(events)[i := old(events)[i].(delivered := true)]
    {
      events := events[i := events[i].(delivered := true)];
    }

    /** Nothing uncommitted survives; one attempt is counted. */
    method FailEvent(i: nat)
      requires i < |events|
      modifies this`events
      ensures events == old(events)[i := old(events)[i].(attempts := old(events)[i].attempts + 1)]
    {
      events := events[i := events[i].(attempts := events[i].attempts + 1)];
    }

    /** Settle the row of an attempt; the worker may die before the commit. */
    method SettleEvent(i: nat, result: Flow) returns (flow: Flow)
      requires i < |events|
      modifies this`events
      ensures events == old(events)[i := Settled(old(events)[i], flow)]
      ensures flow == result || flow == Crashed
    {
      flow := Crashed;
      if * {
        if result.Completed? {
          CompleteEvent(i);
          flow := Completed;
        } else if result.Raised? {
          FailEvent(i);
          flow := Raised;
        }
      }
    }

    /** Carry out what the handler of a claimed event planned, and settle its row. */
    method HandleEvent(i: nat, plan: Option<seq<Task>>) returns (flow: Flow)
      requires LinksListed() && i < |events| && Waiting(events[i], cap)
      modifies this`exposures, this`evidence, this`cases, this`links, this`tickets, this`events
      ensures LinksListed() && |old(events)| <= |events| && OnlyNotices(events, |old(events)|)
      ensures forall j :: 0 <= j < |old(events)| && j != i ==> events[j] == old(events)[j]
      ensures events[i] == Settled(old(events)[i], flow)
      ensures Attempted(settings, old(Tables()), Tables(), plan.GetOr([]))
      ensures flow.Completed? ==> Tables() == RunTasks(settings, old(Tables()), plan.GetOr([]))
    {
      var result := Raised;
      NothingAttempted(settings, Tables(), plan.GetOr([]));
      if plan.Some? {
        result := HandleTasks(plan.value);
      }
      flow := SettleEvent(i, result);
    }

    /** Dispatch one claimed event; every row still waiting is younger. */
    method ProcessEvent(i: nat) returns (flow: Flow)
      requires LinksListed() && i < |events| && Claimable(events[i], cap)
      requires forall j :: 0 <= j < i ==> !Waiting(events[j], cap)
      modifies this`exposures, this`evidence, this`cases, this`links, this`tickets, this`events
      ensures LinksListed()
      ensures EventOutcome(world, settings, cap, old(Tables()), old(events), Tables(), events, i, flow)
    {
      ghost var c, rows := Tables(), events;
      if Handled(events[i].event) {
        var planned := Plan(world, i, events[i].event);
        flow := HandleEvent(i, planned);
        if !(flow.Raised? && events[i].attempts >= cap) {
          AttemptOnCourse(world, settings, c, Tables(), i, rows[i], cap, flow);
        }
      } else {
        flow := SettleEvent(i, Completed);
      }
      if !(flow.Raised? && events[i].attempts >= cap) {
        FinishStep(world, settings, c, Tables(), rows, events, cap, i);
      }
    }

    /** The oldest claimable rows, at most one batch of them: all that lie below `horizon`. */
    method ClaimEvents() returns (ids: seq<nat>, horizon: nat)
      requires batchSize > 0
      ensures Claimed(events, ids, horizon, cap) && |ids| <= batchSize
      ensures |ids| < batchSize ==> horizon == |events|
    {
      ids, horizon := [], 0;
      while horizon < |events| && |ids| < batchSize
        invariant Claimed(events, ids, horizon, cap) && |ids| <= batchSize
      {
        if Claimable(events[horizon], cap) {
          ids := ids + [horizon];
        }
        horizon := horizon + 1;
      }
    }

    /** The `k`th row of a claimed batch, which began in `c0` and `start`. */
    method ProcessClaimed(ids: seq<nat>, horizon: nat, k: nat, ghost delivered: nat, ghost c0: Core, ghost start: seq<Row>)
      returns (flow: Flow, handled: bool)
      requires LinksListed() && k < |ids| && Claimed(start, ids, horizon, cap)
      requires BatchSoFar(world, settings, cap, c0, start, Tables(), events, ids, k, delivered)
      modifies this`exposures, this`evidence, this`cases, this`links, this`tickets, this`events
      ensures LinksListed()
      ensures !flow.Completed? ==>
                && Poll(world, settings, cap, c0, start, Tables(), events, EndingOf(flow, ids[k]))
                && delivered == |NewlyDelivered(start, events)|
      ensures flow.Completed? ==>
                BatchSoFar(world, settings, cap, c0, start, Tables(), events, ids, k + 1, delivered + if handled then 1 else 0)
    {
      ghost var c, rows := Tables(), events;
      StillFirst(events, start, ids, horizon, cap, k);
      flow := ProcessEvent(ids[k]);
      BatchStep(world, settings, cap, c0, start, c, rows, Tables(), events, ids, horizon, k, delivered, flow);
      handled := Handled(events[ids[k]].event);
    }

    /** Process one claimed batch, oldest first, stopping at the first failure. */
    method ProcessBatch(ids: seq<nat>, horizon: nat) returns (delivered: nat, stop: Option<Ending>)
      requires LinksListed() && ids != [] && Claimed(events, ids, horizon, cap)
      modifies this`exposures, this`evidence, this`cases, this`links, this`tickets, this`events
      ensures LinksListed()
      ensures stop.Some? ==> !stop.value.Emptied?
      ensures Poll(world, settings, cap, old(Tables()), old(events), Tables(), events, stop.GetOr(Died))
      ensures delivered == |NewlyDelivered(old(events), events)|
      ensures stop.None? ==> Shrunk(old(events), events, cap)
    {
      ghost var c0, start := Tables(), events;
      delivered := 0;
      for k := 0 to |ids|
        invariant LinksListed()
        invariant BatchSoFar(world, settings, cap, c0, start, Tables(), events, ids, k, delivered)
      {
        var flow, handled := ProcessClaimed(ids, horizon, k, delivered, c0, start);
        if !flow.Completed? {
          return delivered, Some(EndingOf(flow, ids[k]));
        }
        delivered := delivered + if handled then 1 else 0;
      }
      stop := None;
    }

    /** One poll: claim and process batches until nothing is claimable or an event fails. */
    method RunOnce() returns (delivered: nat, ending: Ending)
      requires batchSize > 0 && LinksListed()
      modifies this`exposures, this`evidence, this`cases, this`links, this`tickets, this`events
      ensures LinksListed()
      ensures Poll(world, settings, cap, old(Tables()), old(events), Tables(), events, ending)
      ensures delivered == |NewlyDelivered(old(events), events)|
    {
      ghost var rows0 := events;
      delivered := 0;
      while true
        invariant LinksListed()
        invariant Poll(world, settings, cap, old(Tables()), rows0, Tables(), events, Died)
        invariant delivered == |NewlyDelivered(rows0, events)|
        decreases Count(events, cap, true), Count(events, cap, false)
      {
        var ids, horizon := ClaimEvents();
        if ids == [] {
          return delivered, Emptied;
        }
        ghost var rows := events;
        var more, stop := ProcessBatch(ids, horizon);
        PollRowsCompose(rows0, rows, events, cap, stop.GetOr(Died));
        DeliveriesAdd(rows0, rows, events, cap, stop.GetOr(Died));
        delivered := delivered + more;
        if stop.Some? {
          return delivered, stop.value;
        }
      }
    }
  }

  /** The handled rows a poll has delivered. */
  function NewlyDelivered(rows: seq<Row>, rows': seq<Row>): set<nat>
    requires |rows| <= |rows'|
  {
    set j: nat | j < |rows| && Handled(rows[j].event) && !rows[j].delivered && rows'[j].delivered
  }

  /** `ids` are exactly the claimable rows below `horizon`, oldest first. */
  ghost predicate Claimed(rows: seq<Row>, ids: seq<nat>, horizon: nat, cap: nat) {
    && horizon <= |rows|
    && (forall k :: 0 <= k < |ids| ==> ids[k] < horizon && Claimable(rows[ids[k]], cap))
    && (forall j :: 0 <= j < horizon && Claimable(rows[j], cap) ==> j in ids)
    && (forall k, m :: 0 <= k < m < |ids| ==> ids[k] < ids[m])
  }

  /** The termination measure of a poll: handled claimable rows first, then the others. */
  ghost predicate Shrunk(rows: seq<Row>, rows': seq<Row>, cap: nat) {
    || Count(rows', cap, true) < Count(rows, cap, true)
    || (Count(rows', cap, true) == Count(rows, cap, true) && Count(rows', cap, false) < Count(rows, cap, false))
  }

  /** The first `k` claimed rows are delivered and no other row has changed. */
  ghost predicate BatchProgress(start: seq<Row>, rows: seq<Row>, ids: seq<nat>, k: nat) {
    && k <= |ids| && |start| <= |rows|
    && (forall j :: 0 <= j < |start| && j !in ids[..k] ==> rows[j] == start[j])
    && (forall m :: 0 <= m < k ==> ids[m] < |rows| && rows[ids[m]].delivered)
  }

  /** The whole batch up to its `k`th row. */
  ghost predicate BatchSoFar(w: World, s: Settings, cap: nat, c0: Core, start: seq<Row>, c: Core, rows: seq<Row>,
                             ids: seq<nat>, k: nat, delivered: nat) {
    && Poll(w, s, cap, c0, start, c, rows, Died)
    && BatchProgress(start, rows, ids, k)
    && delivered == |NewlyDelivered(start, rows)|
    && (if k == 0 then rows == start else Shrunk(start, rows, cap))
  }

  function EndingOf(flow: Flow, i: nat): Ending {
    if flow.Raised? then Failed(i) else Died
  }

  /** Everything dispatching row `i` may do. */
  ghost predicate EventOutcome(w: World, s: Settings, cap: nat, c: Core, rows: seq<Row>, c': Core, rows': seq<Row>,
                               i: nat, flow: Flow) {
    && i < |rows| <= |rows'| && OnlyNotices(rows', |rows|)
    && (forall j :: 0 <= j < |rows| && j != i ==> rows'[j] == rows[j])
    && rows'[i] == Settled(rows[i], flow)
    && (flow.Raised? ==> Handled(rows[i].event))
    && (!Handled(rows[i].event) ==> |rows'| == |rows|)
    && (!(flow.Raised? && rows'[i].attempts >= cap) ==> Finish(w, s, c', rows', cap) == Finish(w, s, c, rows, cap))
  }

  /** What an attempt does to its row: delivered, one more attempt, or nothing when the worker died. */
  function Settled(r: Row, flow: Flow): Row {
    match flow
    case Completed => r.(delivered := true)
    case Raised => r.(attempts := r.attempts + 1)
    case Crashed => r
  }

  /** The tables an attempt can leave: some commits of the tasks, in order. */
  ghost predicate Attempted(s: Settings, c: Core, c': Core, ts: seq<Task>) {
    exists done: nat, half :: done <= |ts| && (half ==> done < |ts|) && c' == Partial(s, c, ts, done, half)
  }

  lemma NothingAttempted(s: Settings, c: Core, ts: seq<Task>)
    ensures Attempted(s, c, c, ts)
  {
    assert c == Partial(s, c, ts, 0, false);
  }

  /** Where the commits of one task can stop. */
  ghost predicate TaskReached(s: Settings, c: Core, c': Core, t: Task) {
    c' == c || c' == Upsert(c, t) || c' == Work(s, c, t)
  }

  lemma AttemptedHere(s: Settings, c: Core, c': Core, ts: seq<Task>, k: nat)
    requires k < |ts| && TaskReached(s, Trace(s, c, ts)[k], c', ts[k])
    ensures Attempted(s, c, c', ts)
  {
    assert c' == Partial(s, c, ts, k, false) || c' == Partial(s, c, ts, k, true) || c' == Partial(s, c, ts, k + 1, false);
  }

  lemma AllAttempted(s: Settings, c: Core, ts: seq<Task>)
    ensures Attempted(s, c, RunTasks(s, c, ts), ts)
  {
    assert RunTasks(s, c, ts) == Partial(s, c, ts, |ts|, false);
  }

  lemma AttemptRetried(s: Settings, c: Core, c': Core, ts: seq<Task>)
    requires Attempted(s, c, c', ts)
    ensures RunTasks(s, c', ts) == RunTasks(s, c, ts)
  {
    var done: nat, half :| done <= |ts| && (half ==> done < |ts|) && c' == Partial(s, c, ts, done, half);
    RetryEquivalent(s, c, ts, done, half);
  }

  /** An attempt that leaves the row waiting can be finished later with the same result. */
  lemma AttemptOnCourse(w: World, s: Settings, c: Core, c': Core, i: nat, r: Row, cap: nat, flow: Flow)
    requires Waiting(r, cap) && !(flow.Raised? && r.attempts + 1 >= cap)
    requires Attempted(s, c, c', Plan(w, i, r.event).GetOr([]))
    requires flow.Completed? ==> c' == RunTasks(s, c, Plan(w, i, r.event).GetOr([]))
    ensures FinishRow(w, s, c, i, r, cap) == FinishRow(w, s, c', i, Settled(r, flow), cap)
  {
    AttemptRetried(s, c, c', Plan(w, i, r.event).GetOr([]));
  }

  lemma BelowIsEarlier(ids: seq<nat>, k: nat, j: nat)
    requires k < |ids| && forall m, n :: 0 <= m < n < |ids| ==> ids[m] < ids[n]
    requires j in ids && j < ids[k]
    ensures exists m :: 0 <= m < k && ids[m] == j
  {
    var m :| 0 <= m < |ids| && ids[m] == j;
    assert m < k;
  }

  /** Everything claimable below the `k`th claimed row has been delivered already. */
  lemma StillFirst(rows: seq<Row>, start: seq<Row>, ids: seq<nat>, horizon: nat, cap: nat, k: nat)
    requires k < |ids| && Claimed(start, ids, horizon, cap) && BatchProgress(start, rows, ids, k)
    ensures ids[k] < |rows| && rows[ids[k]] == start[ids[k]] && Claimable(rows[ids[k]], cap)
    ensures forall j :: 0 <= j < ids[k] ==> !Waiting(rows[j], cap)
  {
    assert ids[k] !in ids[..k];
    forall j | 0 <= j < ids[k] ensures !Waiting(rows[j], cap) {
      if Claimable(start[j], cap) {
        BelowIsEarlier(ids, k, j);
      }
    }
  }

  lemma EventPolls(rows: seq<Row>, rows': seq<Row>, cap: nat, i: nat, flow: Flow)
    requires i < |rows| && Claimable(rows[i], cap) && OnlyNotices(rows', |rows|)
    requires forall j :: 0 <= j < |rows| && j != i ==> rows'[j] == rows[j]
    requires rows'[i] == Settled(rows[i], flow) && (flow.Raised? ==> Handled(rows[i].event))
    ensures PollRows(rows, rows', cap, EndingOf(flow, i))
  {}

  lemma PollRowsCompose(a: seq<Row>, b: seq<Row>, c: seq<Row>, cap: nat, ending: Ending)
    requires PollRows(a, b, cap, Died) && PollRows(b, c, cap, ending)
    ensures PollRows(a, c, cap, ending)
  {}

  lemma DeliveriesAdd(a: seq<Row>, b: seq<Row>, c: seq<Row>, cap: nat, ending: Ending)
    requires PollRows(a, b, cap, Died) && PollRows(b, c, cap, ending)
    ensures |NewlyDelivered(a, c)| == |NewlyDelivered(a, b)| + |NewlyDelivered(b, c)|
  {
    assert NewlyDelivered(a, c) == NewlyDelivered(a, b) + NewlyDelivered(b, c);
    assert NewlyDelivered(a, b) !! NewlyDelivered(b, c);
  }

  lemma CompletionShrinks(rows: seq<Row>, rows': seq<Row>, cap: nat, i: nat)
    requires i < |rows| <= |rows'| && Claimable(rows[i], cap) && OnlyNotices(rows', |rows|)
    requires forall j :: 0 <= j < |rows| && j != i ==> rows'[j] == rows[j]
    requires rows'[i] == rows[i].(delivered := true)
    requires !Handled(rows[i].event) ==> |rows'| == |rows|
    ensures Handled(rows[i].event) ==> Count(rows', cap, true) < Count(rows, cap, true)
    ensures !Handled(rows[i].event) ==>
              Count(rows', cap, true) == Count(rows, cap, true) && Count(rows', cap, false) < Count(rows, cap, false)
  {
    CountNotices(rows', |rows|, cap);
    CountAfter(rows, rows'[..|rows|], cap, i, true);
    if !Handled(rows[i].event) {
      assert rows'[..|rows|] == rows';
      CountAfter(rows, rows', cap, i, false);
    }
  }

  lemma SameDeliveries(rows0: seq<Row>, rows: seq<Row>, rows': seq<Row>)
    requires |rows0| <= |rows| <= |rows'|
    requires forall j :: 0 <= j < |rows| ==> rows'[j].delivered == rows[j].delivered
    ensures NewlyDelivered(rows0, rows') == NewlyDelivered(rows0, rows)
  {}

  lemma DeliveryCounted(rows0: seq<Row>, rows: seq<Row>, rows': seq<Row>, cap: nat, i: nat)
    requires i < |rows| && PollRows(rows0, rows, cap, Died) && |rows| <= |rows'|
    requires Claimable(rows[i], cap) && rows'[i] == rows[i].(delivered := true)
    requires forall j :: 0 <= j < |rows| && j != i ==> rows'[j] == rows[j]
    ensures |NewlyDelivered(rows0, rows')| == |NewlyDelivered(rows0, rows)| + if Handled(rows[i].event) then 1 else 0
  {
    if Handled(rows[i].event) {
      assert NewlyDelivered(rows0, rows') == NewlyDelivered(rows0, rows) + {i};
    } else {
      assert NewlyDelivered(rows0, rows') == NewlyDelivered(rows0, rows);
    }
  }

  lemma ProgressOne(start: seq<Row>, rows: seq<Row>, rows': seq<Row>, ids: seq<nat>, k: nat)
    requires k < |ids| && BatchProgress(start, rows, ids, k) && |rows| <= |rows'| && ids[k] < |rows|
    requires forall j :: 0 <= j < |rows| && j != ids[k] ==> rows'[j] == rows[j]
    requires rows'[ids[k]].delivered
    ensures BatchProgress(start, rows', ids, k + 1)
  {
    assert ids[..k + 1] == ids[..k] + [ids[k]];
  }

  /** One more event of a batch, in terms of the whole batch. */
  lemma BatchStep(w: World, s: Settings, cap: nat, c0: Core, start: seq<Row>, c: Core, rows: seq<Row>, c': Core,
                  rows': seq<Row>, ids: seq<nat>, horizon: nat, k: nat, delivered: nat, flow: Flow)
    requires k < |ids| && Claimed(start, ids, horizon, cap)
    requires BatchSoFar(w, s, cap, c0, start, c, rows, ids, k, delivered)
    requires EventOutcome(w, s, cap, c, rows, c', rows', ids[k], flow)
    ensures ids[k] < |rows'|
    ensures !flow.Completed? ==>
              Poll(w, s, cap, c0, start, c', rows', EndingOf(flow, ids[k])) && delivered == |NewlyDelivered(start, rows')|
    ensures flow.Completed? ==>
              BatchSoFar(w, s, cap, c0, start, c', rows', ids, k + 1,
                         delivered + if Handled(rows'[ids[k]].event) then 1 else 0)
  {
    StillFirst(rows, start, ids, horizon, cap, k);
    EventPolls(rows, rows', cap, ids[k], flow);
    PollRowsCompose(start, rows, rows', cap, EndingOf(flow, ids[k]));
    if flow.Completed? {
      ProgressOne(start, rows, rows', ids, k);
      CompletionShrinks(rows, rows', cap, ids[k]);
      DeliveryCounted(start, rows, rows', cap, ids[k]);
    } else {
      SameDeliveries(start, rows, rows');
    }
  }
}
