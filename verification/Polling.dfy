/** Incremental polling of findings: paging, the local cursor filter, enqueueing and checkpointing. */
module Polling {
  import opened Domain

  datatype Finding = Finding(id: int, body: string)

  const PAGE_SIZE: nat := 100

  predicate Above(f: Finding, cursor: Option<int>) {
    cursor.None? || f.id > cursor.value
  }

  /** The findings above the cursor, in order. */
  function Newer(fs: seq<Finding>, cursor: Option<int>): seq<Finding> {
    if fs == [] then []
    else Newer(fs[..|fs| - 1], cursor) + if Above(fs[|fs| - 1], cursor) then [fs[|fs| - 1]] else []
  }

  lemma {:induction false} NewerConcat(a: seq<Finding>, b: seq<Finding>, cursor: Option<int>)
    ensures Newer(a + b, cursor) == Newer(a, cursor) + Newer(b, cursor)
  {
    if b == [] {
      assert a + b == a;
    } else {
      NewerConcat(a, b[..|b| - 1], cursor);
      assert (a + b)[..|a + b| - 1] == a + b[..|b| - 1];
    }
  }

  lemma {:induction false} NewerMembers(fs: seq<Finding>, cursor: Option<int>)
    ensures forall f :: f in Newer(fs, cursor) <==> f in fs && Above(f, cursor)
  {
    if fs != [] {
      NewerMembers(fs[..|fs| - 1], cursor);
      assert fs == fs[..|fs| - 1] + [fs[|fs| - 1]];
    }
  }

  /** What a fetch keeps: the findings whose id exceeds the cursor, and no other. */
  lemma NewerExactly(fs: seq<Finding>, cursor: Option<int>, f: Finding)
    ensures f in Newer(fs, cursor) <==> f in fs && (cursor.None? || f.id > cursor.value)
  {
    NewerMembers(fs, cursor);
  }

  lemma {:induction false} NewerTwice(fs: seq<Finding>, cursor: Option<int>)
    ensures Newer(Newer(fs, cursor), cursor) == Newer(fs, cursor)
  {
    if fs != [] {
      var init, last := Newer(fs[..|fs| - 1], cursor), fs[|fs| - 1];
      NewerTwice(fs[..|fs| - 1], cursor);
      if Above(last, cursor) {
        assert Newer(fs, cursor) == init + [last] && (init + [last])[..|init|] == init;
      } else {
        assert Newer(fs, cursor) == init;
      }
    }
  }

  /** What upstream pages over: it may apply `id__gt` or silently ignore it. */
  function Listing(upstream: seq<Finding>, cursor: Option<int>, honours: bool): seq<Finding> {
    if honours then Newer(upstream, cursor) else upstream
  }

  lemma ListingNewer(upstream: seq<Finding>, cursor: Option<int>, honours: bool)
    ensures Newer(Listing(upstream, cursor, honours), cursor) == Newer(upstream, cursor)
  {
    NewerTwice(upstream, cursor);
  }

  function Page(listing: seq<Finding>, offset: nat): seq<Finding> {
    if offset >= |listing| then []
    else if offset + PAGE_SIZE <= |listing| then listing[offset..offset + PAGE_SIZE]
    else listing[offset..]
  }

  lemma ListingPrefix(a: seq<Finding>, b: seq<Finding>, cursor: Option<int>, honours: bool)
    requires a <= b
    ensures Listing(a, cursor, honours) <= Listing(b, cursor, honours)
  {
    assert b == a + b[|a|..];
    NewerConcat(a, b[|a|..], cursor);
  }

  lemma PageExtends(prev: seq<Finding>, listing: seq<Finding>, offset: nat, cursor: Option<int>)
    requires prev <= listing && offset <= |prev|
    ensures var page := Page(listing, offset);
            && offset + |page| <= |listing|
            && Newer(prev[..offset], cursor) + Newer(page, cursor) == Newer(listing[..offset + |page|], cursor)
            && (|page| < PAGE_SIZE ==> listing[..offset + |page|] == listing)
  {
    var page := Page(listing, offset);
    assert prev[..offset] == listing[..offset];
    assert listing[..offset] + page == listing[..offset + |page|];
    NewerConcat(listing[..offset], page, cursor);
  }

  /** The next cursor is the largest id fetched, or the old cursor when nothing was. */
  ghost predicate NextCursor(records: seq<Finding>, cursor: Option<int>, next: Option<int>) {
    if records == [] then next == cursor
    else
      && next.Some?
      && (exists f :: f in records && f.id == next.value)
      && forall f :: f in records ==> f.id <= next.value
  }

  /** The listing that answers request `k`. */
  function ListingAt(final: seq<Finding>, arrived: nat -> nat, k: nat, honours: bool, cursor: Option<int>): seq<Finding>
    requires arrived(k) <= |final|
  {
    Listing(final[..arrived(k)], cursor, honours)
  }

  lemma ListingsGrow(final: seq<Finding>, arrived: nat -> nat, k: nat, honours: bool, cursor: Option<int>)
    requires forall k :: arrived(k) <= |final|
    requires forall j, k :: j <= k ==> arrived(j) <= arrived(k)
    ensures |ListingAt(final, arrived, k, honours, cursor)| <= |Listing(final, cursor, honours)|
    ensures (if k > 0 then ListingAt(final, arrived, k - 1, honours, cursor) else []) <= ListingAt(final, arrived, k, honours, cursor)
  {
    ListingPrefix(final[..arrived(k)], final, cursor, honours);
    if k > 0 {
      assert final[..arrived(k - 1)] <= final[..arrived(k)];
      ListingPrefix(final[..arrived(k - 1)], final[..arrived(k)], cursor, honours);
    }
  }

  /**
   * `final` is everything upstream will have by the end of the fetch, in listing order;
   * `arrived(k)` is how much of it is there when request `k` is answered. The fetch ends, and
   * returns exactly the findings above the cursor present at its last request.
   */
  method Fetch(final: seq<Finding>, arrived: nat -> nat, honours: bool, cursor: Option<int>)
    returns (records: seq<Finding>, next: Option<int>, requests: nat)
    requires forall k :: arrived(k) <= |final|
    requires forall j, k :: j <= k ==> arrived(j) <= arrived(k)
    ensures requests > 0
    ensures records == Newer(final[..arrived(requests - 1)], cursor)
    ensures NextCursor(records, cursor, next)
  {
    var offset := 0;
    ghost var prev, total := [], |Listing(final, cursor, honours)|;
    records, requests := [], 0;
    while true
      invariant offset <= |prev| && records == Newer(prev[..offset], cursor)
      invariant prev == if requests > 0 then ListingAt(final, arrived, requests - 1, honours, cursor) else []
      invariant |prev| <= total
      decreases total + PAGE_SIZE - offset
    {
      var listing := ListingAt(final, arrived, requests, honours, cursor);
      ListingsGrow(final, arrived, requests, honours, cursor);
      PageExtends(prev, listing, offset, cursor);
      var page := Page(listing, offset);
      var kept := KeepAbove(page, cursor);
      records := records + kept;
      requests := requests + 1;
      if |page| < PAGE_SIZE {
        ListingNewer(final[..arrived(requests - 1)], cursor, honours);
        assert records == Newer(listing, cursor);
        break;
      }
      offset := offset + PAGE_SIZE;
      prev := listing;
    }
    next := cursor;
    if records != [] {
      next := MaxId(records);
    }
  }

  /** The local filter applied to every page. */
  method KeepAbove(page: seq<Finding>, cursor: Option<int>) returns (kept: seq<Finding>)
    ensures kept == Newer(page, cursor)
  {
    kept := [];
    for i := 0 to |page|
      invariant kept == Newer(page[..i], cursor)
    {
      assert page[..i + 1][..i] == page[..i];
      if cursor.None? || page[i].id > cursor.value {
        kept := kept + [page[i]];
      }
    }
    assert page[..|page|] == page;
  }

  method MaxId(records: seq<Finding>) returns (next: Option<int>)
    requires records != []
    ensures next.Some? && (exists f :: f in records && f.id == next.value)
    ensures forall f :: f in records ==> f.id <= next.value
  {
    var best := records[0].id;
    for i := 1 to |records|
      invariant exists f :: f in records && f.id == best
      invariant forall j :: 0 <= j < i ==> records[j].id <= best
    {
      if records[i].id > best {
        best := records[i].id;
      }
    }
    next := Some(best);
  }

  // -- runs of polls ------------------------------------------------------------------------------

  /** `enqueued` is every finding ever put on the ingestion queue. */
  datatype World = World(upstream: seq<Finding>, cursor: Option<int>, enqueued: set<Finding>)

  datatype Outcome =
    | FetchFailed
    /** The queue took some of the jobs before it failed; the worker saw an error. */
    | EnqueueFailed(taken: set<Finding>)
    /** The worker died after enqueueing and before its checkpoint. */
    | CrashedBeforeCheckpoint
    | Checkpointed

  /** New findings get ids above all earlier ones. */
  ghost predicate Grows(w: World, w': World) {
    && w'.cursor == w.cursor && w'.enqueued == w.enqueued
    && w.upstream <= w'.upstream
    && forall i, j :: 0 <= i < |w.upstream| <= j < |w'.upstream| ==> w.upstream[i].id < w'.upstream[j].id
  }

  /** One poll against the findings upstream holds when its last page is answered. */
  ghost predicate Polls(w: World, w': World, outcome: Outcome) {
    var records := Newer(w.upstream, w.cursor);
    && w'.upstream == w.upstream
    && match outcome
       case FetchFailed => w' == w
       case EnqueueFailed(taken) =>
         taken <= (set f | f in records) && w' == w.(enqueued := w.enqueued + taken)
       case CrashedBeforeCheckpoint => w' == w.(enqueued := w.enqueued + set f | f in records)
       case Checkpointed =>
         && w'.enqueued == w.enqueued + (set f | f in records)
         && NextCursor(records, w.cursor, w'.cursor)
  }

  ghost predicate Moves(w: World, w': World) {
    Grows(w, w') || exists outcome :: Polls(w, w', outcome)
  }

  /** Every finding at or below the cursor has been enqueued, and the cursor is the id of a finding. */
  ghost predicate NothingLost(w: World) {
    && (forall f :: f in w.upstream && w.cursor.Some? && f.id <= w.cursor.value ==> f in w.enqueued)
    && (w.cursor.Some? ==> exists f :: f in w.upstream && f.id == w.cursor.value)
  }

  predicate CursorLeq(a: Option<int>, b: Option<int>) {
    a.Some? ==> b.Some? && a.value <= b.value
  }

  lemma MoveLosesNothing(w: World, w': World)
    requires NothingLost(w) && Moves(w, w')
    ensures NothingLost(w') && CursorLeq(w.cursor, w'.cursor)
  {
    if Grows(w, w') {
      assert forall f :: f in w.upstream ==> f in w'.upstream;
      if w.cursor.Some? {
        var g :| g in w.upstream && g.id == w.cursor.value;
        var i :| 0 <= i < |w.upstream| && w.upstream[i] == g;
        forall f | f in w'.upstream && f.id <= w.cursor.value ensures f in w'.enqueued {
          var j :| 0 <= j < |w'.upstream| && w'.upstream[j] == f;
          assert j < |w.upstream|;
          assert w.upstream[j] == f;
        }
      }
    } else {
      NewerMembers(w.upstream, w.cursor);
    }
  }

  /** Over every run of growth, failed, crashed and completed polls, nothing at or below the cursor
      is missing from the queue and the cursor never goes back. */
  lemma {:induction false} PollingLosesNothing(run: seq<World>, k: nat, j: nat)
    requires |run| > 0 && run[0].cursor.None?
    requires forall i :: 0 < i < |run| ==> Moves(run[i - 1], run[i])
    requires j <= k < |run|
    ensures NothingLost(run[k]) && CursorLeq(run[j].cursor, run[k].cursor)
    decreases k
  {
    if k > 0 {
      PollingLosesNothing(run, k - 1, if j < k then j else 0);
      MoveLosesNothing(run[k - 1], run[k]);
    }
  }

  /** A completed poll leaves nothing upstream unqueued: what is above the old cursor was just
      enqueued, what is at or below it had been before. */
  lemma CheckpointCatchesUp(w: World, w': World)
    requires NothingLost(w) && Polls(w, w', Checkpointed)
    ensures forall f :: f in w'.upstream ==> f in w'.enqueued
  {
    NewerMembers(w.upstream, w.cursor);
  }

  /** The worker's row for one source: its cursor moves only in a checkpoint of a complete poll. */
  class PollingWorker {
    var cursor: Option<int>
    var healthy: bool
    var queue: seq<Finding>

    ghost function State(upstream: seq<Finding>): World
      reads this
    {
      World(upstream, cursor, set f | f in queue)
    }

    constructor ()
      ensures cursor == None && queue == []
    {
      cursor, healthy, queue := None, false, [];
    }

    method Checkpoint(success: bool, next: Option<int>)
      modifies this`cursor, this`healthy
      ensures healthy == success
      ensures cursor == if success && next.Some? then next else old(cursor)
    {
      healthy := success;
      if success {
        if next.Some? { cursor := next; }
      }
    }

    /** The queue accepts all jobs, or fails after accepting some of them. */
    method Enqueue(jobs: seq<Finding>) returns (ok: bool)
      modifies this`queue
      ensures ok ==> queue == old(queue) + jobs
      ensures !ok ==> exists n :: 0 <= n <= |jobs| && queue == old(queue) + jobs[..n]
    {
      for n := 0 to |jobs|
        invariant queue == old(queue) + jobs[..n]
      {
        if * { return false; }
        queue := queue + [jobs[n]];
        assert jobs[..n + 1] == jobs[..n] + [jobs[n]];
      }
      assert jobs[..|jobs|] == jobs;
      ok := true;
    }

    /** One poll while findings arrive as for `Fetch`; `alive` is false when the process died before its
        checkpoint, and `seen` is what upstream held when its last page was answered. */
    method PollSource(final: seq<Finding>, arrived: nat -> nat, honours: bool)
      returns (alive: bool, count: nat, ghost seen: seq<Finding>)
      requires forall k :: arrived(k) <= |final|
      requires forall j, k :: j <= k ==> arrived(j) <= arrived(k)
      modifies this
      ensures exists k :: seen == final[..arrived(k)]
      ensures exists outcome :: Polls(old(State(seen)), State(seen), outcome)
      ensures alive && healthy ==> Polls(old(State(seen)), State(seen), Checkpointed)
      ensures !healthy || !alive ==> cursor == old(cursor)
    {
      count := 0;
      if * {
        seen := final[..arrived(0)];
        Checkpoint(false, None);
        assert Polls(old(State(seen)), State(seen), FetchFailed);
        return true, 0, seen;
      }
      var records, next, requests := Fetch(final, arrived, honours, cursor);
      seen := final[..arrived(requests - 1)];
      ghost var before := State(seen);
      var ok := Enqueue(records);
      if !ok {
        ghost var n :| 0 <= n <= |records| && queue == old(queue) + records[..n];
        Checkpoint(false, None);
        assert Polls(before, State(seen), EnqueueFailed(set f | f in records[..n]));
        return true, 0, seen;
      }
      assert State(seen).enqueued == before.enqueued + set f | f in records;
      if * {
        assert Polls(before, State(seen), CrashedBeforeCheckpoint);
        return false, 0, seen;
      }
      Checkpoint(true, next);
      assert Polls(before, State(seen), Checkpointed);
      return true, |records|, seen;
    }
  }

  // -- findings that disappear between two requests -----------------------------------------------

  function Without(listing: seq<Finding>, p: nat): seq<Finding>
    requires p < |listing|
  {
    listing[..p] + listing[p + 1..]
  }

  function From(listing: seq<Finding>, offset: nat): seq<Finding> {
    if offset <= |listing| then listing[offset..] else []
  }

  predicate Ascending(listing: seq<Finding>) {
    forall i, j :: 0 <= i < j < |listing| ==> listing[i].id < listing[j].id
  }

  /** Everything unread moves up by one. */
  lemma RestAfterRemoval(listing: seq<Finding>, p: nat, offset: nat)
    requires p < offset < |listing|
    ensures From(Without(listing, p), offset) == listing[offset + 1..]
    ensures listing[offset] in Without(listing, p)
  {
    assert Without(listing, p)[offset - 1] == listing[offset];
  }

  lemma UnreadIsNew(listing: seq<Finding>, offset: nat)
    requires Ascending(listing) && offset < |listing|
    ensures listing[offset] !in listing[..offset] && listing[offset] !in listing[offset + 1..]
  {}

  /** Exactly when a finding removed after the first `offset` were read makes paging skip another one:
      it was among those read, and unread ones follow. */
  lemma RemovalExactly(listing: seq<Finding>, p: nat, offset: nat)
    requires Ascending(listing) && p < |listing| && offset <= |listing|
    ensures (forall f :: f in Without(listing, p) ==> f in listing[..offset] || f in From(Without(listing, p), offset))
            <==> p >= offset || offset == |listing|
  {
    var left := Without(listing, p);
    if p < offset < |listing| {
      RestAfterRemoval(listing, p, offset);
      UnreadIsNew(listing, offset);
    } else if p >= offset {
      assert left[..offset] == listing[..offset];
      assert left == left[..offset] + From(left, offset);
    } else {
      assert listing[..offset] == listing;
    }
  }

  /** What is fetched when nothing of `f` is in either page but something newer is in the second. */
  lemma Passed(read: seq<Finding>, rest: seq<Finding>, cursor: Option<int>, next: Option<int>, f: Finding)
    requires f !in read && f !in rest && rest != [] && Above(f, cursor) && f.id < rest[0].id
    requires NextCursor(Newer(read, cursor) + Newer(rest, cursor), cursor, next)
    ensures f !in Newer(read, cursor) + Newer(rest, cursor)
    ensures next.Some? && f.id < next.value
  {
    NewerMembers(read, cursor);
    NewerMembers(rest, cursor);
    assert rest[0] in Newer(rest, cursor);
    assert rest[0] in Newer(read, cursor) + Newer(rest, cursor);
  }

  /** The skipped finding is lost for good as soon as one more follows it: the next cursor passes it. */
  lemma RemovalLoses(listing: seq<Finding>, p: nat, offset: nat, cursor: Option<int>, next: Option<int>)
    requires Ascending(listing) && p < offset && offset + 1 < |listing| && Above(listing[offset], cursor)
    requires NextCursor(Newer(listing[..offset], cursor) + Newer(From(Without(listing, p), offset), cursor), cursor, next)
    ensures listing[offset] in Without(listing, p)
    ensures listing[offset] !in Newer(listing[..offset], cursor) + Newer(From(Without(listing, p), offset), cursor)
    ensures next.Some? && listing[offset].id < next.value
  {
    RestAfterRemoval(listing, p, offset);
    UnreadIsNew(listing, offset);
    Passed(listing[..offset], listing[offset + 1..], cursor, next, listing[offset]);
  }
}
