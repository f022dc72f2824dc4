/**
 * The JWKS cache shared by verifying threads. A thread takes a snapshot under the lock; when its key
 * is missing it re-enters the lock for at most one forced refresh. The two locked blocks are the
 * atomic steps, and the steps of all threads interleave.
 */
module JwksCache {
  import opened Domain
  import opened JwkSelection

  /** What a locked block gives its thread: keys, or a safe error category with its code. */
  datatype Reply = Keys(keys: seq<Jwk>) | Raise(category: string, code: string)

  datatype Failure = Failure(generation: nat, category: string, code: string)

  /** Key id and algorithm of a token. */
  type TokenKey = (string, string)

  datatype Cache = Cache(
    jwksUri: Option<string>,
    discoveredAt: Option<int>,
    jwks: Option<seq<Jwk>>,
    fetchedAt: Option<int>,
    generation: nat,
    refreshed: map<TokenKey, nat>,
    failures: map<TokenKey, Failure>)

  const COLD: Cache := Cache(None, None, None, None, 0, map[], map[])

  /** How the world answers one locked block: two clock readings (`None` when the clock fails),
      the discovery document's key URI, and the key set. */
  datatype World = World(now: Option<int>, later: Option<int>, discovery: Result<string>, keySet: Result<seq<Jwk>>)

  datatype Ages = Ages(discovery: int, jwks: int)

  const CLOCK_ERROR: Reply := Raise("configuration", "oidc_clock_error")

  predicate Fresh(at: Option<int>, age: int, w: World) {
    at.Some? && w.now.Some? && w.now.value - at.value < age
  }

  /** Asking whether a stamped document is fresh needs the clock. */
  predicate ClockNeeded(stored: bool, at: Option<int>, w: World) {
    stored && at.Some? && w.now.None?
  }

  /** Make sure the discovery document is at hand; an error leaves the rest of the cache alone. */
  function GetDiscovery(c: Cache, ages: Ages, w: World): (Cache, Option<Reply>) {
    if ClockNeeded(c.jwksUri.Some?, c.discoveredAt, w) then (c, Some(CLOCK_ERROR))
    else if c.jwksUri.Some? && Fresh(c.discoveredAt, ages.discovery, w) then (c, None)
    else match w.discovery
      case Err(category) => (c, Some(Raise(category, "oidc_discovery_error")))
      case Ok(uri) =>
        if w.later.None? then (c.(jwksUri := Some(uri)), Some(CLOCK_ERROR))
        else (c.(jwksUri := Some(uri), discoveredAt := w.later), None)
  }

  /** Fetch the key set. The new keys are stored before the stamp is taken, so a failing clock
      leaves new keys under the old generation. */
  function FetchJwks(c: Cache, ages: Ages, w: World): (Cache, Reply) {
    match GetDiscovery(c, ages, w)
    case (d, Some(error)) => (d, error)
    case (d, None) =>
      match w.keySet
      case Err(_) => (d, Raise("jwks", "oidc_jwks_error"))
      case Ok(keys) =>
        if w.later.None? then (d.(jwks := Some(keys)), CLOCK_ERROR)
        else
          (d.(jwks := Some(keys), fetchedAt := w.later, generation := d.generation + 1, refreshed := map[], failures := map[]),
           Keys(keys))
  }

  /** The unforced read at the start of a verification. */
  function Snapshot(c: Cache, ages: Ages, w: World): (Cache, Reply) {
    if ClockNeeded(c.jwks.Some?, c.fetchedAt, w) then (c, CLOCK_ERROR)
    else if c.jwks.Some? && Fresh(c.fetchedAt, ages.jwks, w) then (c, Keys(c.jwks.value))
    else FetchJwks(c, ages, w)
  }

  /** The forced read goes to the provider unless another thread has moved the generation. */
  predicate ForcedFetches(c: Cache, observed: nat) {
    c.generation == observed || c.jwks.None?
  }

  function Forced(c: Cache, observed: nat, ages: Ages, w: World): (Cache, Reply) {
    if ForcedFetches(c, observed) then FetchJwks(c, ages, w) else (c, Keys(c.jwks.value))
  }

  predicate Remembered(c: Cache, k: TokenKey) {
    k in c.refreshed && c.refreshed[k] == c.generation
  }

  /** The locked block of a missing key: replay, reuse, or one forced read. */
  function ResolveMiss(c: Cache, k: TokenKey, seen: seq<Jwk>, observed: nat, ages: Ages, w: World): (Cache, Reply) {
    if Remembered(c, k) then
      if k in c.failures then (c, Raise(c.failures[k].category, c.failures[k].code))
      else (c, Keys(if c.jwks.GetOr([]) != [] then c.jwks.value else seen))
    else
      match Forced(c, observed, ages, w)
      case (c', Keys(keys)) =>
        (c'.(refreshed := c'.refreshed[k := c'.generation], failures := c'.failures - {k}), Keys(keys))
      case (c', Raise(category, code)) =>
        (c'.(refreshed := c'.refreshed[k := c'.generation],
             failures := c'.failures[k := Failure(c'.generation, category, code)]),
         Raise(category, code))
  }

  // -- interleavings ------------------------------------------------------------------------------

  /** A thread between its two locked blocks. */
  datatype Miss = Miss(key: TokenKey, seen: seq<Jwk>, observed: nat)

  /** A forced read that went to the provider, with the generation it was made in. */
  datatype Attempt = Attempt(key: TokenKey, generation: nat, observed: nat)

  datatype System = System(cache: Cache, misses: map<nat, Miss>, attempts: seq<Attempt>)

  datatype Event =
    | Begin(thread: nat, key: TokenKey, world: World)
    | Retry(thread: nat, world: World)

  const START: System := System(COLD, map[], [])

  /** `build` says which keys can be built; a thread that finds its key is done. */
  function Found(build: Builder, keys: seq<Jwk>, k: TokenKey): bool {
    exists j | j in keys :: Yields(build, j, k.0, k.1)
  }

  function Step(build: Builder, ages: Ages, s: System, e: Event): System {
    match e
    case Begin(t, k, w) =>
      var (cache, reply) := Snapshot(s.cache, ages, w);
      var waits := reply.Keys? && !Found(build, reply.keys, k);
      s.(cache := cache, misses := if waits then s.misses[t := Miss(k, reply.keys, cache.generation)] else s.misses - {t})
    case Retry(t, w) =>
      if t !in s.misses then s
      else
        var m := s.misses[t];
        var asks := !Remembered(s.cache, m.key) && ForcedFetches(s.cache, m.observed);
        s.(cache := ResolveMiss(s.cache, m.key, m.seen, m.observed, ages, w).0,
           misses := s.misses - {t},
           attempts := if asks then s.attempts + [Attempt(m.key, s.cache.generation, m.observed)] else s.attempts)
  }

  function RunFrom(build: Builder, ages: Ages, s: System, events: seq<Event>): System {
    if events == [] then s
    else Step(build, ages, RunFrom(build, ages, s, events[..|events| - 1]), events[|events| - 1])
  }

  /** Every memo entry carries the current generation, and every failure belongs to a memo entry. */
  ghost predicate MemoCurrent(c: Cache) {
    && (forall k :: k in c.refreshed ==> c.refreshed[k] == c.generation)
    && (forall k :: k in c.failures ==> k in c.refreshed && c.failures[k].generation == c.generation)
  }

  /** Forced reads of one key were made in different, increasing generations, each in the very
      generation its thread had observed; one made in the current generation is remembered. */
  ghost predicate SingleFlight(s: System) {
    && (forall i, j :: 0 <= i < j < |s.attempts| && s.attempts[i].key == s.attempts[j].key ==>
          s.attempts[i].generation < s.attempts[j].generation)
    && (forall i :: 0 <= i < |s.attempts| ==>
          && s.attempts[i].observed == s.attempts[i].generation <= s.cache.generation
          && (s.attempts[i].generation == s.cache.generation ==> s.attempts[i].key in s.cache.refreshed))
  }

  ghost predicate Inv(s: System) {
    && MemoCurrent(s.cache)
    && SingleFlight(s)
    && (s.misses.Keys != {} ==> s.cache.jwks.Some?)
    && (forall t :: t in s.misses ==> s.misses[t].observed <= s.cache.generation)
  }

  /** A read keeps the generation together with its memo, or advances it and forgets the memo. */
  lemma FetchAdvancesOrKeeps(c: Cache, ages: Ages, w: World)
    ensures var (c', reply) := FetchJwks(c, ages, w);
            && (reply.Keys? ==> c'.generation == c.generation + 1 && c'.refreshed == map[] && c'.failures == map[])
            && (reply.Raise? ==> c'.generation == c.generation && c'.refreshed == c.refreshed && c'.failures == c.failures)
            && (reply.Keys? ==> c'.jwks == Some(reply.keys))
            && (c.jwks.Some? ==> c'.jwks.Some?)
  {}

  lemma BeginKeepsInv(build: Builder, ages: Ages, s: System, e: Event)
    requires Inv(s) && e.Begin?
    ensures Inv(Step(build, ages, s, e))
  {
    FetchAdvancesOrKeeps(s.cache, ages, e.world);
  }

  lemma RetryKeepsInv(build: Builder, ages: Ages, s: System, e: Event)
    requires Inv(s) && e.Retry?
    ensures Inv(Step(build, ages, s, e))
  {
    FetchAdvancesOrKeeps(s.cache, ages, e.world);
  }

  lemma StepKeepsInv(build: Builder, ages: Ages, s: System, e: Event)
    requires Inv(s)
    ensures Inv(Step(build, ages, s, e))
  {
    match e
    case Begin(_, _, w) => BeginKeepsInv(build, ages, s, e);
    case Retry(_, w) => RetryKeepsInv(build, ages, s, e);
  }

  lemma {:induction false} SingleFlightAlways(build: Builder, ages: Ages, events: seq<Event>)
    ensures Inv(RunFrom(build, ages, START, events))
  {
    if events != [] {
      SingleFlightAlways(build, ages, events[..|events| - 1]);
      StepKeepsInv(build, ages, RunFrom(build, ages, START, events[..|events| - 1]), events[|events| - 1]);
    }
  }

  /** In every interleaving a token key is fetched by force at most once per generation. */
  lemma AtMostOneForcedFetchPerGeneration(build: Builder, ages: Ages, events: seq<Event>, i: nat, j: nat)
    requires var s := RunFrom(build, ages, START, events);
             i < |s.attempts| && j < |s.attempts|
             && s.attempts[i].key == s.attempts[j].key && s.attempts[i].generation == s.attempts[j].generation
    ensures i == j
  {
    SingleFlightAlways(build, ages, events);
  }

  lemma FailureSticks(build: Builder, ages: Ages, s: System, e: Event, k: TokenKey)
    requires Inv(s) && k in s.cache.failures
    ensures var c := Step(build, ages, s, e).cache;
            && c.generation >= s.cache.generation
            && (c.generation == s.cache.generation ==> k in c.failures && c.failures[k] == s.cache.failures[k])
  {
    FetchAdvancesOrKeeps(s.cache, ages, e.world);
  }

  lemma GenerationMonotone(build: Builder, ages: Ages, s: System, e: Event)
    ensures Step(build, ages, s, e).cache.generation >= s.cache.generation
  {
    FetchAdvancesOrKeeps(s.cache, ages, e.world);
  }

  /** Until the generation moves, a failed refresh answers every later miss with the same error,
      without asking the provider. */
  lemma {:induction false} FailureReplayed(build: Builder, ages: Ages, s: System, events: seq<Event>, k: TokenKey)
    requires Inv(s) && k in s.cache.failures
    ensures var c := RunFrom(build, ages, s, events).cache;
            && c.generation >= s.cache.generation
            && Inv(RunFrom(build, ages, s, events))
            && (c.generation == s.cache.generation ==>
                  && k in c.failures && c.failures[k] == s.cache.failures[k] && Remembered(c, k)
                  && forall seen, observed, w :: ResolveMiss(c, k, seen, observed, ages, w) ==
                       (c, Raise(s.cache.failures[k].category, s.cache.failures[k].code)))
  {
    if events != [] {
      var init := events[..|events| - 1];
      FailureReplayed(build, ages, s, init, k);
      var mid := RunFrom(build, ages, s, init);
      StepKeepsInv(build, ages, mid, events[|events| - 1]);
      GenerationMonotone(build, ages, mid, events[|events| - 1]);
      if mid.cache.generation == s.cache.generation {
        FailureSticks(build, ages, mid, events[|events| - 1], k);
      }
    }
  }

  /** The cached keys may be served: they are stamped, and the clock says they are younger than the age. */
  predicate KeysYoung(c: Cache, ages: Ages, w: World) {
    && c.jwks.Some? && c.fetchedAt.Some? && w.now.Some?
    && w.now.value - c.fetchedAt.value < ages.jwks
  }

  predicate DiscoveryYoung(c: Cache, ages: Ages, w: World) {
    && c.jwksUri.Some? && c.discoveredAt.Some? && w.now.Some?
    && w.now.value - c.discoveredAt.value < ages.discovery
  }

  /** The discovery document is reused, whatever the provider would say, exactly while it is young;
      otherwise what is stored is the provider's current one, stamped now. */
  lemma DiscoveryExactly(c: Cache, ages: Ages, w: World)
    ensures DiscoveryYoung(c, ages, w) <==>
              forall answer, later :: GetDiscovery(c, ages, w.(discovery := answer, later := later)) == (c, None)
    ensures var (c', error) := GetDiscovery(c, ages, w);
            !DiscoveryYoung(c, ages, w) && error.None? ==>
              w.discovery.Ok? && w.later.Some? && c' == c.(jwksUri := Some(w.discovery.value), discoveredAt := w.later)
  {
    if !DiscoveryYoung(c, ages, w) {
      var failing := w.(discovery := Err("down"), later := None);
      assert GetDiscovery(c, ages, failing) != (c, None);
    }
  }

  /** A snapshot never serves stale keys: it leaves the cache alone and serves the cached keys exactly
      while they are young; any other keys it serves are the provider's current ones, under the next
      generation and stamped now. */
  lemma SnapshotServesFresh(c: Cache, ages: Ages, w: World)
    ensures var (c', reply) := Snapshot(c, ages, w);
            && (reply.Keys? && c' == c <==> KeysYoung(c, ages, w))
            && (KeysYoung(c, ages, w) ==> reply == Keys(c.jwks.value))
            && (reply.Keys? && !KeysYoung(c, ages, w) ==>
                  && w.keySet == Ok(reply.keys) && w.later.Some?
                  && c'.jwks == Some(reply.keys) && c'.fetchedAt == w.later && c'.generation == c.generation + 1
                  && c'.refreshed == map[] && c'.failures == map[])
  {
    FetchAdvancesOrKeeps(c, ages, w);
  }

  /** Exactly when a snapshot answers with keys: they are young, or the clock works where it is asked,
      the discovery document is young or available, and so is the key set. */
  lemma SnapshotAnswersExactly(c: Cache, ages: Ages, w: World)
    ensures Snapshot(c, ages, w).1.Keys? <==>
              || KeysYoung(c, ages, w)
              || (&& !(c.jwks.Some? && c.fetchedAt.Some? && w.now.None?)
                  && !(c.jwksUri.Some? && c.discoveredAt.Some? && w.now.None?)
                  && (DiscoveryYoung(c, ages, w) || w.discovery.Ok?)
                  && w.keySet.Ok? && w.later.Some?)
  {}

  /** Which error a snapshot raises: the clock's, then the discovery document's, then the key set's. */
  lemma SnapshotErrors(c: Cache, ages: Ages, w: World)
    requires Snapshot(c, ages, w).1.Raise?
    ensures var reply := Snapshot(c, ages, w).1;
            if w.now.None? && ((c.jwks.Some? && c.fetchedAt.Some?) || (c.jwksUri.Some? && c.discoveredAt.Some?)) then
              reply == Raise("configuration", "oidc_clock_error")
            else if !DiscoveryYoung(c, ages, w) && w.discovery.Err? then
              reply == Raise(w.discovery.error, "oidc_discovery_error")
            else if !DiscoveryYoung(c, ages, w) && w.later.None? then
              reply == Raise("configuration", "oidc_clock_error")
            else if w.keySet.Err? then reply == Raise("jwks", "oidc_jwks_error")
            else reply == Raise("configuration", "oidc_clock_error") && w.later.None?
  {}

  /** A thread waits for its second block exactly when its snapshot has keys but none that will do, and
      remembers what it saw and in which generation. */
  lemma BeginWaits(build: Builder, ages: Ages, s: System, t: nat, k: TokenKey, w: World)
    ensures var s', (cache, reply) := Step(build, ages, s, Begin(t, k, w)), Snapshot(s.cache, ages, w);
            && s'.cache == cache && s'.attempts == s.attempts
            && (t in s'.misses <==> reply.Keys? && forall j :: j in reply.keys ==> !Yields(build, j, k.0, k.1))
            && (t in s'.misses ==> s'.misses[t] == Miss(k, reply.keys, cache.generation))
  {}

  /** The second block is the missing-key step, and an attempt is on record exactly when it went to the
      provider: its key was not remembered and the generation it had observed still stood. */
  lemma RetryRecords(build: Builder, ages: Ages, s: System, t: nat, w: World)
    requires t in s.misses && s.cache.jwks.Some?
    ensures var s', m := Step(build, ages, s, Retry(t, w)), s.misses[t];
            var asks := !(m.key in s.cache.refreshed && s.cache.refreshed[m.key] == s.cache.generation)
                        && m.observed == s.cache.generation;
            && s'.cache == ResolveMiss(s.cache, m.key, m.seen, m.observed, ages, w).0
            && s'.misses == s.misses - {t}
            && s'.attempts == s.attempts + (if asks then [Attempt(m.key, s.cache.generation, m.observed)] else [])
            && (s'.cache.generation != s.cache.generation ==> asks)
  {
    FetchAdvancesOrKeeps(s.cache, ages, w);
  }

  /** A missing-key block that is not remembered asks the provider, whatever the age of the cached keys,
      exactly when nobody has moved the generation it observed; otherwise it reuses the newer keys. */
  lemma MissAsksExactly(c: Cache, k: TokenKey, seen: seq<Jwk>, observed: nat, ages: Ages, w: World)
    requires !(k in c.refreshed && c.refreshed[k] == c.generation) && c.jwks.Some?
    ensures var (c', reply) := ResolveMiss(c, k, seen, observed, ages, w);
            && (observed != c.generation ==> reply == Keys(c.jwks.value) && c'.generation == c.generation && c'.jwks == c.jwks)
            && (observed == c.generation && reply.Keys? ==> w.keySet == Ok(reply.keys) && c'.generation == c.generation + 1)
            && k in c'.refreshed && c'.refreshed[k] == c'.generation
  {
    FetchAdvancesOrKeeps(c, ages, w);
  }

  /** The keys a missing-key thread retries with are the cached ones after its block, or, when the
      cache holds none, the ones it had already seen; and the block always remembers the attempt. */
  lemma RetryUsesCachedKeys(c: Cache, k: TokenKey, seen: seq<Jwk>, observed: nat, ages: Ages, w: World)
    ensures var (c', reply) := ResolveMiss(c, k, seen, observed, ages, w);
            && Remembered(c', k)
            && (reply.Keys? ==> c'.jwks == Some(reply.keys) || (c'.jwks.GetOr([]) == [] && reply.keys == seen))
            && (reply.Raise? ==>
                  && k in c'.failures
                  && reply == Raise(c'.failures[k].category, c'.failures[k].code))
  {
    FetchAdvancesOrKeeps(c, ages, w);
  }

  // -- the verifier object ------------------------------------------------------------------------

  class OidcVerifier {
    const ages: Ages
    var jwksUri: Option<string>
    var discoveredAt: Option<int>
    var jwks: Option<seq<Jwk>>
    var fetchedAt: Option<int>
    var generation: nat
    var refreshed: map<TokenKey, nat>
    var failures: map<TokenKey, Failure>

    function State(): Cache
      reads this
    {
      Cache(jwksUri, discoveredAt, jwks, fetchedAt, generation, refreshed, failures)
    }

    constructor (ages: Ages)
      ensures State() == COLD && this.ages == ages
    {
      this.ages := ages;
      jwksUri, discoveredAt, jwks, fetchedAt := None, None, None, None;
      generation, refreshed, failures := 0, map[], map[];
    }

    method Discover(w: World) returns (error: Option<Reply>)
      modifies this`jwksUri, this`discoveredAt
      ensures (State(), error) == GetDiscovery(old(State()), ages, w)
      ensures DiscoveryYoung(old(State()), ages, w) ==> error.None? && State() == old(State())
      ensures !DiscoveryYoung(old(State()), ages, w) && error.None? ==>
                w.discovery == Ok(jwksUri.GetOr("")) && discoveredAt == w.later
    {
      if jwksUri.Some? && discoveredAt.Some? {
        if w.now.None? { return Some(CLOCK_ERROR); }
        if w.now.value - discoveredAt.value < ages.discovery { return None; }
      }
      if w.discovery.Err? { return Some(Raise(w.discovery.error, "oidc_discovery_error")); }
      jwksUri := Some(w.discovery.value);
      if w.later.None? { return Some(CLOCK_ERROR); }
      discoveredAt := w.later;
      error := None;
    }

    method GetJwks(force: bool, observed: Option<nat>, w: World) returns (reply: Reply)
      requires force <==> observed.Some?
      modifies this
      ensures (State(), reply) ==
              if force then Forced(old(State()), observed.value, ages, w) else Snapshot(old(State()), ages, w)
      ensures !force && KeysYoung(old(State()), ages, w) ==> reply == Keys(old(jwks).value) && State() == old(State())
      ensures !force && !KeysYoung(old(State()), ages, w) && reply.Keys? ==>
                w.keySet == Ok(reply.keys) && generation == old(generation) + 1 && fetchedAt == w.later
    {
      if force && observed.Some? && generation != observed.value && jwks.Some? {
        return Keys(jwks.value);
      }
      if !force && jwks.Some? && fetchedAt.Some? {
        if w.now.None? { return CLOCK_ERROR; }
        if w.now.value - fetchedAt.value < ages.jwks { return Keys(jwks.value); }
      }
      var error := Discover(w);
      if error.Some? { return error.value; }
      if w.keySet.Err? { return Raise("jwks", "oidc_jwks_error"); }
      jwks := Some(w.keySet.value);
      if w.later.None? { return CLOCK_ERROR; }
      fetchedAt := w.later;
      generation := generation + 1;
      refreshed, failures := map[], map[];
      reply := Keys(w.keySet.value);
    }

    /** The block a verification enters when its snapshot does not hold the key. */
    method RefreshForMissingKey(k: TokenKey, seen: seq<Jwk>, observed: nat, w: World) returns (reply: Reply)
      modifies this
      ensures (State(), reply) == ResolveMiss(old(State()), k, seen, observed, ages, w)
    {
      if k in refreshed && refreshed[k] == generation {
        if k in failures { return Raise(failures[k].category, failures[k].code); }
        return Keys(if jwks.Some? && jwks.value != [] then jwks.value else seen);
      }
      reply := GetJwks(true, Some(observed), w);
      refreshed := refreshed[k := generation];
      match reply
      case Raise(category, code) => failures := failures[k := Failure(generation, category, code)];
      case Keys(_) => failures := failures - {k};
    }

    /** An undisturbed verification up to its key: the two locked blocks, back to back. The key comes
        from the cached set, and "key not found" means that no cached key will do. */
    method FindKey(build: Builder, k: TokenKey, first: World, second: World) returns (r: KeyAnswer)
      modifies this
      ensures State() == Undisturbed(build, ages, old(State()), k, first, second)
      ensures r.KeyFound? ==>
                jwks.Some? && exists j :: j in jwks.value && Yields(build, j, k.0, k.1) && Some(r.key) == build(j, k.1)
      ensures r.KeyNotFound? ==> jwks.Some? && !Found(build, jwks.value, k) && Remembered(State(), k)
    {
      var reply := GetJwks(false, None, first);
      if reply.Raise? { return Refused(reply.category, reply.code); }
      ghost var seen := reply.keys;
      SnapshotServesFresh(old(State()), ages, first);
      var key := KeyForToken(build, reply.keys, k.0, k.1);
      if key.None? {
        ghost var middle := State();
        reply := RefreshForMissingKey(k, reply.keys, generation, second);
        if reply.Raise? { return Refused(reply.category, reply.code); }
        RetryUsesCachedKeys(middle, k, seen, middle.generation, ages, second);
        key := KeyForToken(build, reply.keys, k.0, k.1);
      }
      r := if key.Some? then KeyFound(key.value) else KeyNotFound;
    }
  }

  datatype KeyAnswer = KeyFound(key: nat) | KeyNotFound | Refused(category: string, code: string)

  /** The cache after one thread ran both its steps with nobody in between. */
  ghost function Undisturbed(build: Builder, ages: Ages, c: Cache, k: TokenKey, first: World, second: World): Cache {
    Step(build, ages, Step(build, ages, System(c, map[], []), Begin(0, k, first)), Retry(0, second)).cache
  }
}
