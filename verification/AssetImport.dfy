/** The CSV asset import: rows reconciled by hostname alias, updated in place or created. */
module AssetImport {
  import opened Domain
  import opened Text
  import opened Assets

  datatype Alias = Alias(asset: nat, namespace: string, value: string, organization: string)

  /** Assets are numbered in creation order; the numbers stand for the generated identifiers. */
  datatype Store = Store(assets: seq<Asset>, aliases: seq<Alias>)

  /** A data row; a missing or empty cell is "". */
  datatype Row = Row(
    hostname: string, ip: string, name: string, criticality: string, environment: string, owner: string,
    internetExposure: string, kind: string, serviceId: string, service: string, serviceName: string)

  /** What does not change during one import. */
  datatype Context = Context(organization: string, ownerColumn: bool, services: seq<BusinessService>)

  function NonEmpty(s: string): Option<string> {
    if s == "" then None else Some(s)
  }

  function Or(a: string, b: string): string {
    if a != "" then a else b
  }

  function ServicesNamed(services: seq<BusinessService>, organization: string, name: string): seq<string> {
    if services == [] then []
    else
      var last := services[|services| - 1];
      ServicesNamed(services[..|services| - 1], organization, name)
      + if last.organization == organization && last.nameNormalized == name then [last.id] else []
  }

  /** An explicit id wins when it exists; otherwise the name must be unambiguous. */
  function ResolveService(ctx: Context, row: Row): Result<Option<string>> {
    var id, name := Strip(row.serviceId), Strip(Or(row.service, row.serviceName));
    if id != "" && exists s | s in ctx.services :: s.organization == ctx.organization && s.id == id then Ok(Some(id))
    else if name == "" then Ok(None)
    else
      var matches := ServicesNamed(ctx.services, ctx.organization, Lower(name));
      if |matches| > 1 then Err("ambiguous business service name")
      else Ok(if matches == [] then None else Some(matches[0]))
  }

  /** A row after trimming and validation. */
  datatype Reading = Reading(
    hostname: string, ip: string, name: string, kind: string, criticality: string,
    environment: Option<string>, owner: Option<string>, serviceId: Result<Option<string>>, internetExposure: Option<string>)

  function Read(ctx: Context, row: Row): Reading {
    var hostname := Strip(row.hostname);
    var criticality := Lower(Strip(Or(row.criticality, "medium")));
    var exposure := Lower(Strip(row.internetExposure));
    Reading(
      hostname,
      Strip(row.ip),
      Or(Strip(row.name), hostname),
      Or(Strip(Or(row.kind, "host")), "host"),
      if criticality in {"critical", "high", "medium", "low"} then criticality else "medium",
      NonEmpty(Strip(row.environment)),
      if ctx.ownerColumn then NonEmpty(Strip(row.owner)) else None,
      ResolveService(ctx, row),
      if exposure in {"external", "internal", "unknown"} then Some(exposure) else None)
  }

  /** The assets an alias value points to, one per alias row. */
  function Matches(aliases: seq<Alias>, namespace: string, value: string, organization: string): seq<nat> {
    if aliases == [] then []
    else
      var last := aliases[|aliases| - 1];
      Matches(aliases[..|aliases| - 1], namespace, value, organization)
      + if last.namespace == namespace && last.value == value && last.organization == organization
        then [last.asset] else []
  }

  function HostMatches(ctx: Context, st: Store, hostname: string): seq<nat> {
    Matches(st.aliases, "hostname", hostname, ctx.organization)
  }

  predicate WellFormed(st: Store) {
    forall k :: 0 <= k < |st.aliases| ==> st.aliases[k].asset < |st.assets|
  }

  lemma {:induction false} MatchesInRange(aliases: seq<Alias>, namespace: string, value: string, organization: string, bound: nat)
    requires forall k :: 0 <= k < |aliases| ==> aliases[k].asset < bound
    ensures forall k :: 0 <= k < |Matches(aliases, namespace, value, organization)| ==>
              Matches(aliases, namespace, value, organization)[k] < bound
  {
    if aliases != [] {
      MatchesInRange(aliases[..|aliases| - 1], namespace, value, organization, bound);
    }
  }

  // -- one row ------------------------------------------------------------------------------------

  function Refresh(ctx: Context, a: Asset, r: Reading): Asset
    requires r.serviceId.Ok?
  {
    a.(criticality := r.criticality,
       environment := if r.environment.Some? then r.environment else a.environment,
       owner := if ctx.ownerColumn then r.owner else a.owner,
       serviceId := if r.serviceId.value.Some? then r.serviceId.value else a.serviceId,
       internetExposure := if r.internetExposure.Some? then r.internetExposure else a.internetExposure)
  }

  function NewAsset(ctx: Context, r: Reading): Asset
    requires r.serviceId.Ok?
  {
    Asset(r.name, r.kind, ctx.organization, r.criticality, r.environment, r.owner, r.serviceId.value, r.internetExposure)
  }

  /** The address is noted once per asset and is never used to find one. */
  function NoteAddress(ctx: Context, st: Store, asset: nat, ip: string): Store {
    var alias := Alias(asset, "ip", ip, ctx.organization);
    if ip == "" || alias in st.aliases then st else st.(aliases := st.aliases + [alias])
  }

  datatype Effect = Skipped | Updated(asset: nat) | Created(asset: nat)

  function EffectOf(ctx: Context, st: Store, r: Reading): Effect {
    var found := HostMatches(ctx, st, r.hostname);
    if r.hostname == "" || r.serviceId.Err? || |found| > 1 then Skipped
    else if |found| == 1 then Updated(found[0])
    else Created(|st.assets|)
  }

  function ApplyRow(ctx: Context, st: Store, r: Reading): (st': Store)
    requires WellFormed(st)
    ensures WellFormed(st')
  {
    MatchesInRange(st.aliases, "hostname", r.hostname, ctx.organization, |st.assets|);
    match EffectOf(ctx, st, r)
    case Skipped => st
    case Updated(a) => NoteAddress(ctx, st.(assets := st.assets[a := Refresh(ctx, st.assets[a], r)]), a, r.ip)
    case Created(a) =>
      NoteAddress(ctx,
        Store(st.assets + [NewAsset(ctx, r)], st.aliases + [Alias(a, "hostname", r.hostname, ctx.organization)]), a, r.ip)
  }

  function Import(ctx: Context, st: Store, rows: seq<Reading>): (st': Store)
    requires WellFormed(st)
    ensures WellFormed(st')
  {
    if rows == [] then st
    else ApplyRow(ctx, Import(ctx, st, rows[..|rows| - 1]), rows[|rows| - 1])
  }

  /** The file as the importer reads it. */
  function ReadAll(ctx: Context, file: seq<Row>): seq<Reading> {
    seq(|file|, i requires 0 <= i < |file| => Read(ctx, file[i]))
  }

  // -- the importer -------------------------------------------------------------------------------

  class AssetImporter {
    var assets: seq<Asset>
    var aliases: seq<Alias>

    function Tables(): Store
      reads this
    {
      Store(assets, aliases)
    }

    constructor (st: Store)
      ensures Tables() == st
    {
      assets, aliases := st.assets, st.aliases;
    }

    method ReconcileAlias(ctx: Context, hostname: string) returns (found: seq<nat>)
      ensures found == HostMatches(ctx, Tables(), hostname)
    {
      found := [];
      for k := 0 to |aliases|
        invariant found == Matches(aliases[..k], "hostname", hostname, ctx.organization)
      {
        assert aliases[..k + 1][..k] == aliases[..k];
        var a := aliases[k];
        if a.namespace == "hostname" && a.value == hostname && a.organization == ctx.organization {
          found := found + [a.asset];
        }
      }
      assert aliases[..|aliases|] == aliases;
    }

    method ImportRow(ctx: Context, r: Reading) returns (effect: Effect)
      requires WellFormed(Tables())
      modifies this
      ensures effect == EffectOf(ctx, old(Tables()), r)
      ensures Tables() == ApplyRow(ctx, old(Tables()), r)
      ensures |assets| == |old(assets)| + if effect.Created? then 1 else 0
    {
      MatchesInRange(aliases, "hostname", r.hostname, ctx.organization, |assets|);
      if r.hostname == "" || r.serviceId.Err? { return Skipped; }
      var found := ReconcileAlias(ctx, r.hostname);
      if |found| > 1 { return Skipped; }
      var asset := |assets|;
      if |found| == 1 {
        asset := found[0];
        assets := assets[asset := Refresh(ctx, assets[asset], r)];
        effect := Updated(asset);
      } else {
        assets := assets + [NewAsset(ctx, r)];
        aliases := aliases + [Alias(asset, "hostname", r.hostname, ctx.organization)];
        effect := Created(asset);
      }
      var address := Alias(asset, "ip", r.ip, ctx.organization);
      if r.ip != "" && address !in aliases {
        aliases := aliases + [address];
      }
    }

    /** Every row is created, updated or skipped, and only a creation adds an asset. */
    method ImportAssets(ctx: Context, file: seq<Row>) returns (created: nat, updated: nat, skipped: nat)
      requires WellFormed(Tables())
      modifies this
      ensures Tables() == Import(ctx, old(Tables()), ReadAll(ctx, file))
      ensures created + updated + skipped == |file|
      ensures |assets| == |old(assets)| + created
    {
      created, updated, skipped := 0, 0, 0;
      ghost var rows := ReadAll(ctx, file);
      for i := 0 to |file|
        invariant WellFormed(Tables()) && Tables() == Import(ctx, old(Tables()), rows[..i])
        invariant created + updated + skipped == i
        invariant |assets| == |old(assets)| + created
      {
        var row := Read(ctx, file[i]);
        ImportLast(ctx, old(Tables()), rows, i + 1);
        var effect := ImportRow(ctx, row);
        match effect
        case Skipped => skipped := skipped + 1;
        case Updated(_) => updated := updated + 1;
        case Created(_) => created := created + 1;
      }
      assert rows[..|file|] == rows;
    }
  }

  // -- what later rows keep -----------------------------------------------------------------------

  predicate SameIdentity(a: Asset, b: Asset) {
    a.name == b.name && a.kind == b.kind && a.organization == b.organization
  }

  /** `later` is `st` after some more rows: nothing is deleted, and a known hostname keeps its matches. */
  ghost predicate Extends(ctx: Context, st: Store, later: Store) {
    && |st.assets| <= |later.assets|
    && st.aliases <= later.aliases
    && (forall a :: 0 <= a < |st.assets| ==> SameIdentity(st.assets[a], later.assets[a]))
    && (forall h :: HostMatches(ctx, st, h) != [] ==> HostMatches(ctx, later, h) == HostMatches(ctx, st, h))
  }

  lemma OneMoreAlias(aliases: seq<Alias>, alias: Alias, value: string, organization: string)
    ensures Matches(aliases + [alias], "hostname", value, organization) ==
            Matches(aliases, "hostname", value, organization)
            + if alias.namespace == "hostname" && alias.value == value && alias.organization == organization
              then [alias.asset] else []
  {
    assert (aliases + [alias])[..|aliases|] == aliases;
  }

  lemma NoteAddressKeepsHosts(ctx: Context, st: Store, asset: nat, ip: string, h: string)
    ensures HostMatches(ctx, NoteAddress(ctx, st, asset, ip), h) == HostMatches(ctx, st, h)
  {
    OneMoreAlias(st.aliases, Alias(asset, "ip", ip, ctx.organization), h, ctx.organization);
  }

  /** The hostname matches after a row: only a creation adds one, to a hostname that had none. */
  lemma RowHosts(ctx: Context, st: Store, r: Reading, h: string)
    requires WellFormed(st)
    ensures HostMatches(ctx, ApplyRow(ctx, st, r), h) ==
            if EffectOf(ctx, st, r).Created? && h == r.hostname then [|st.assets|] else HostMatches(ctx, st, h)
  {
    MatchesInRange(st.aliases, "hostname", r.hostname, ctx.organization, |st.assets|);
    match EffectOf(ctx, st, r)
    case Skipped =>
    case Updated(a) =>
      NoteAddressKeepsHosts(ctx, st.(assets := st.assets[a := Refresh(ctx, st.assets[a], r)]), a, r.ip, h);
    case Created(a) =>
      var host := Alias(a, "hostname", r.hostname, ctx.organization);
      OneMoreAlias(st.aliases, host, h, ctx.organization);
      NoteAddressKeepsHosts(ctx, Store(st.assets + [NewAsset(ctx, r)], st.aliases + [host]), a, r.ip, h);
  }

  lemma RowGrows(ctx: Context, st: Store, r: Reading)
    requires WellFormed(st)
    ensures st.aliases <= ApplyRow(ctx, st, r).aliases
    ensures |st.assets| <= |ApplyRow(ctx, st, r).assets|
  {
    MatchesInRange(st.aliases, "hostname", r.hostname, ctx.organization, |st.assets|);
  }

  lemma RowKeepsIdentity(ctx: Context, st: Store, r: Reading, a: nat)
    requires WellFormed(st) && a < |st.assets|
    ensures a < |ApplyRow(ctx, st, r).assets| && SameIdentity(st.assets[a], ApplyRow(ctx, st, r).assets[a])
  {
    MatchesInRange(st.aliases, "hostname", r.hostname, ctx.organization, |st.assets|);
  }

  lemma RowExtends(ctx: Context, st: Store, r: Reading)
    requires WellFormed(st)
    ensures Extends(ctx, st, ApplyRow(ctx, st, r))
  {
    var st' := ApplyRow(ctx, st, r);
    RowGrows(ctx, st, r);
    forall h ensures HostMatches(ctx, st, h) != [] ==> HostMatches(ctx, st', h) == HostMatches(ctx, st, h) {
      RowHosts(ctx, st, r, h);
      RowTakesFreshHost(ctx, st, r);
    }
    forall a | 0 <= a < |st.assets| ensures SameIdentity(st.assets[a], st'.assets[a]) {
      RowKeepsIdentity(ctx, st, r, a);
    }
  }

  lemma RowTakesFreshHost(ctx: Context, st: Store, r: Reading)
    ensures EffectOf(ctx, st, r).Created? ==> HostMatches(ctx, st, r.hostname) == []
  {}

  lemma {:induction false} ImportExtends(ctx: Context, st: Store, rows: seq<Reading>, i: nat)
    requires WellFormed(st) && i <= |rows|
    ensures Extends(ctx, Import(ctx, st, rows[..i]), Import(ctx, st, rows))
    decreases |rows| - i
  {
    if i == |rows| {
      assert rows[..i] == rows;
    } else {
      ImportExtends(ctx, st, rows, i + 1);
      assert rows[..i + 1][..i] == rows[..i];
      var here := Import(ctx, st, rows[..i]);
      RowExtends(ctx, here, rows[i]);
      ExtendsTransitive(ctx, here, Import(ctx, st, rows[..i + 1]), Import(ctx, st, rows));
    }
  }

  lemma ExtendsTransitive(ctx: Context, a: Store, b: Store, c: Store)
    requires Extends(ctx, a, b) && Extends(ctx, b, c)
    ensures Extends(ctx, a, c)
  {}

  /** A hostname that was absent or unique is at most unique afterwards; an ambiguous one is untouched. */
  lemma {:induction false} HostnamesStayUnique(ctx: Context, st: Store, rows: seq<Reading>, h: string)
    requires WellFormed(st)
    ensures |HostMatches(ctx, st, h)| <= 1 ==> |HostMatches(ctx, Import(ctx, st, rows), h)| <= 1
    ensures |HostMatches(ctx, st, h)| > 1 ==> HostMatches(ctx, Import(ctx, st, rows), h) == HostMatches(ctx, st, h)
  {
    if rows != [] {
      HostnamesStayUnique(ctx, st, rows[..|rows| - 1], h);
      RowHosts(ctx, Import(ctx, st, rows[..|rows| - 1]), rows[|rows| - 1], h);
    }
  }

  // -- idempotence --------------------------------------------------------------------------------

  /** Every field of `x` is the field of `end`, or the one of `now` where the asset already exists there. */
  ghost predicate Mixture(x: Asset, end: Asset, known: bool, now: Asset) {
    && SameIdentity(x, end)
    && Either(x.criticality, end.criticality, known, now.criticality)
    && Either(x.environment, end.environment, known, now.environment)
    && Either(x.owner, end.owner, known, now.owner)
    && Either(x.serviceId, end.serviceId, known, now.serviceId)
    && Either(x.internetExposure, end.internetExposure, known, now.internetExposure)
  }

  /** The second import, at the row where the first one was in `now`; `end` is where the first one stopped. */
  ghost predicate Replaying(ctx: Context, second: Store, now: Store, end: Store) {
    && Extends(ctx, now, end)
    && second.aliases == end.aliases && |second.assets| == |end.assets|
    && forall a :: 0 <= a < |end.assets| ==>
         Mixture(second.assets[a], end.assets[a], a < |now.assets|, if a < |now.assets| then now.assets[a] else end.assets[a])
  }

  lemma RefreshMixes(ctx: Context, x: Asset, end: Asset, now: Asset, r: Reading)
    requires r.serviceId.Ok? && Mixture(x, end, true, now)
    ensures Mixture(Refresh(ctx, x, r), end, true, Refresh(ctx, now, r))
  {}

  lemma CreationMixes(ctx: Context, x: Asset, end: Asset, r: Reading)
    requires r.serviceId.Ok? && Mixture(x, end, false, end)
    ensures Mixture(Refresh(ctx, x, r), end, true, NewAsset(ctx, r))
  {}

  lemma ReplayRow(ctx: Context, second: Store, now: Store, end: Store, r: Reading)
    requires WellFormed(second) && WellFormed(now) && WellFormed(end)
    requires Replaying(ctx, second, now, end) && Extends(ctx, ApplyRow(ctx, now, r), end)
    ensures Replaying(ctx, ApplyRow(ctx, second, r), ApplyRow(ctx, now, r), end)
    ensures !EffectOf(ctx, second, r).Created?
  {
    RowHosts(ctx, now, r, r.hostname);
    MatchesInRange(now.aliases, "hostname", r.hostname, ctx.organization, |now.assets|);
    var now' := ApplyRow(ctx, now, r);
    assert HostMatches(ctx, second, r.hostname) == HostMatches(ctx, end, r.hostname);
    match EffectOf(ctx, now, r)
    case Skipped => assert EffectOf(ctx, second, r) == Skipped;
    case Updated(a) => ReplayTarget(ctx, second, now, end, r, a);
    case Created(a) => ReplayTarget(ctx, second, now, end, r, a);
  }

  /** A row that updated or created asset `a` the first time updates it the second time. */
  lemma ReplayTarget(ctx: Context, second: Store, now: Store, end: Store, r: Reading, a: nat)
    requires WellFormed(second) && WellFormed(now) && WellFormed(end)
    requires Replaying(ctx, second, now, end) && Extends(ctx, ApplyRow(ctx, now, r), end)
    requires EffectOf(ctx, now, r) in {Updated(a), Created(a)} && a <= |now.assets|
    requires EffectOf(ctx, now, r).Updated? ==> a < |now.assets|
    requires HostMatches(ctx, ApplyRow(ctx, now, r), r.hostname) == HostMatches(ctx, second, r.hostname) == [a]
    ensures Replaying(ctx, ApplyRow(ctx, second, r), ApplyRow(ctx, now, r), end)
    ensures EffectOf(ctx, second, r) == Updated(a)
  {
    var now', second' := ApplyRow(ctx, now, r), ApplyRow(ctx, second, r);
    assert r.ip == "" || Alias(a, "ip", r.ip, ctx.organization) in now'.aliases;
    AddressKnown(ctx, now', end, a, r);
    assert second' == second.(assets := second.assets[a := Refresh(ctx, second.assets[a], r)]);
    if EffectOf(ctx, now, r).Updated? {
      RefreshMixes(ctx, second.assets[a], end.assets[a], now.assets[a], r);
    } else {
      CreationMixes(ctx, second.assets[a], end.assets[a], r);
    }
  }

  lemma AddressKnown(ctx: Context, now: Store, end: Store, a: nat, r: Reading)
    requires now.aliases <= end.aliases && (r.ip == "" || Alias(a, "ip", r.ip, ctx.organization) in now.aliases)
    ensures r.ip == "" || Alias(a, "ip", r.ip, ctx.organization) in end.aliases
  {}

  lemma {:induction false} ReplayRows(ctx: Context, st: Store, rows: seq<Reading>, i: nat)
    requires WellFormed(st) && i <= |rows|
    ensures var end := Import(ctx, st, rows);
            Replaying(ctx, Import(ctx, end, rows[..i]), Import(ctx, st, rows[..i]), end)
  {
    var end := Import(ctx, st, rows);
    ImportExtends(ctx, st, rows, i);
    if i > 0 {
      assert rows[..i][..i - 1] == rows[..i - 1];
      ReplayRows(ctx, st, rows, i - 1);
      ReplayRow(ctx, Import(ctx, end, rows[..i - 1]), Import(ctx, st, rows[..i - 1]), end, rows[i - 1]);
    }
  }

  /** Importing the same file again changes no asset field, adds no alias and creates nothing, even
      when the file repeats a hostname or lists several hostnames of one asset. */
  lemma ImportIdempotent(ctx: Context, st: Store, file: seq<Row>)
    requires WellFormed(st)
    ensures var rows := ReadAll(ctx, file);
            var end := Import(ctx, st, rows);
            && Import(ctx, end, rows) == end
            && forall i :: 0 <= i < |rows| ==> !EffectOf(ctx, Import(ctx, end, rows[..i]), rows[i]).Created?
  {
    ReadingsIdempotent(ctx, st, ReadAll(ctx, file));
  }

  lemma ReadingsIdempotent(ctx: Context, st: Store, rows: seq<Reading>)
    requires WellFormed(st)
    ensures Import(ctx, Import(ctx, st, rows), rows) == Import(ctx, st, rows)
    ensures forall i :: 0 <= i < |rows| ==>
              !EffectOf(ctx, Import(ctx, Import(ctx, st, rows), rows[..i]), rows[i]).Created?
  {
    var end := Import(ctx, st, rows);
    ReplayRows(ctx, st, rows, |rows|);
    assert rows[..|rows|] == rows;
    MixtureOfEqual(ctx, Import(ctx, end, rows), end);
    forall i | 0 <= i < |rows|
      ensures !EffectOf(ctx, Import(ctx, end, rows[..i]), rows[i]).Created?
    {
      ReplayRows(ctx, st, rows, i);
      ImportExtends(ctx, st, rows, i + 1);
      assert rows[..i + 1][..i] == rows[..i];
      ReplayRow(ctx, Import(ctx, end, rows[..i]), Import(ctx, st, rows[..i]), end, rows[i]);
    }
  }

  lemma MixtureOfEqual(ctx: Context, second: Store, end: Store)
    requires Replaying(ctx, second, end, end)
    ensures second == end
  {
    assert forall a :: 0 <= a < |end.assets| ==> second.assets[a] == end.assets[a];
  }

  // -- last row wins ------------------------------------------------------------------------------

  /** The asset a row wrote to. */
  function TargetOf(e: Effect): Option<nat> {
    match e
    case Skipped => None
    case Updated(a) => Some(a)
    case Created(a) => Some(a)
  }

  /** The asset shows what the row says; blank optional cells keep what was there. */
  predicate Shows(ctx: Context, a: Asset, r: Reading) {
    && r.serviceId.Ok?
    && a.criticality == r.criticality
    && (r.environment.Some? ==> a.environment == r.environment)
    && (ctx.ownerColumn ==> a.owner == r.owner)
    && (r.serviceId.value.Some? ==> a.serviceId == r.serviceId.value)
    && (r.internetExposure.Some? ==> a.internetExposure == r.internetExposure)
  }

  /** The hostname of the row leads to the asset, which shows the row, its address on record. */
  ghost predicate Stands(ctx: Context, st: Store, r: Reading, a: nat) {
    && a < |st.assets| && Shows(ctx, st.assets[a], r)
    && HostMatches(ctx, st, r.hostname) == [a]
    && (r.ip != "" ==> Alias(a, "ip", r.ip, ctx.organization) in st.aliases)
  }

  lemma AddressNoted(ctx: Context, st: Store, a: nat, ip: string)
    ensures ip != "" ==> Alias(a, "ip", ip, ctx.organization) in NoteAddress(ctx, st, a, ip).aliases
  {
    var alias := Alias(a, "ip", ip, ctx.organization);
    assert (st.aliases + [alias])[|st.aliases|] == alias;
  }

  lemma RowAsset(ctx: Context, st: Store, r: Reading, a: nat)
    requires WellFormed(st) && TargetOf(EffectOf(ctx, st, r)) == Some(a)
    ensures r.serviceId.Ok? && a <= |st.assets| && a < |ApplyRow(ctx, st, r).assets|
    ensures ApplyRow(ctx, st, r).assets[a] == if a < |st.assets| then Refresh(ctx, st.assets[a], r) else NewAsset(ctx, r)
  {
    MatchesInRange(st.aliases, "hostname", r.hostname, ctx.organization, |st.assets|);
  }

  lemma RowAddress(ctx: Context, st: Store, r: Reading, a: nat)
    requires WellFormed(st) && TargetOf(EffectOf(ctx, st, r)) == Some(a)
    ensures r.ip != "" ==> Alias(a, "ip", r.ip, ctx.organization) in ApplyRow(ctx, st, r).aliases
  {
    MatchesInRange(st.aliases, "hostname", r.hostname, ctx.organization, |st.assets|);
    if EffectOf(ctx, st, r).Created? {
      var host := Alias(a, "hostname", r.hostname, ctx.organization);
      AddressNoted(ctx, Store(st.assets + [NewAsset(ctx, r)], st.aliases + [host]), a, r.ip);
    } else {
      AddressNoted(ctx, st.(assets := st.assets[a := Refresh(ctx, st.assets[a], r)]), a, r.ip);
    }
  }

  lemma RowStands(ctx: Context, st: Store, r: Reading, a: nat)
    requires WellFormed(st) && TargetOf(EffectOf(ctx, st, r)) == Some(a)
    ensures Stands(ctx, ApplyRow(ctx, st, r), r, a)
  {
    RowHosts(ctx, st, r, r.hostname);
    RowAsset(ctx, st, r, a);
    RowAddress(ctx, st, r, a);
    assert EffectOf(ctx, st, r).Updated? ==> HostMatches(ctx, st, r.hostname) == [a];
  }

  lemma OtherRowKeeps(ctx: Context, st: Store, other: Reading, r: Reading, a: nat)
    requires WellFormed(st) && Stands(ctx, st, r, a) && TargetOf(EffectOf(ctx, st, other)) != Some(a)
    ensures Stands(ctx, ApplyRow(ctx, st, other), r, a)
  {
    RowHosts(ctx, st, other, r.hostname);
    RowGrows(ctx, st, other);
    OtherAssetKept(ctx, st, other, a);
    var alias := Alias(a, "ip", r.ip, ctx.organization);
    if r.ip != "" {
      var k :| 0 <= k < |st.aliases| && st.aliases[k] == alias;
      assert ApplyRow(ctx, st, other).aliases[k] == alias;
    }
  }

  lemma OtherAssetKept(ctx: Context, st: Store, r: Reading, a: nat)
    requires WellFormed(st) && a < |st.assets| && TargetOf(EffectOf(ctx, st, r)) != Some(a)
    ensures a < |ApplyRow(ctx, st, r).assets| && ApplyRow(ctx, st, r).assets[a] == st.assets[a]
  {
    MatchesInRange(st.aliases, "hostname", r.hostname, ctx.organization, |st.assets|);
  }

  lemma ImportLast(ctx: Context, st: Store, rows: seq<Reading>, n: nat)
    requires WellFormed(st) && 0 < n <= |rows|
    ensures Import(ctx, st, rows[..n]) == ApplyRow(ctx, Import(ctx, st, rows[..n - 1]), rows[n - 1])
  {
    assert rows[..n][..n - 1] == rows[..n - 1];
  }

  /** The asset row `j` of the import writes to. */
  function TargetAt(ctx: Context, st: Store, rows: seq<Reading>, j: nat): Option<nat>
    requires WellFormed(st) && j < |rows|
  {
    TargetOf(EffectOf(ctx, Import(ctx, st, rows[..j]), rows[j]))
  }

  /** After the import every asset stands as the last row that wrote to it says. */
  lemma {:induction false} LastRowWins(ctx: Context, st: Store, rows: seq<Reading>, i: nat, a: nat, n: nat)
    requires WellFormed(st) && i < n <= |rows|
    requires TargetAt(ctx, st, rows, i) == Some(a)
    requires forall j :: i < j < n ==> TargetAt(ctx, st, rows, j) != Some(a)
    ensures Stands(ctx, Import(ctx, st, rows[..n]), rows[i], a)
    decreases n
  {
    var before := Import(ctx, st, rows[..n - 1]);
    ImportLast(ctx, st, rows, n);
    if n - 1 == i {
      RowStands(ctx, before, rows[i], a);
    } else {
      LastRowWins(ctx, st, rows, i, a, n - 1);
      assert TargetAt(ctx, st, rows, n - 1) != Some(a);
      OtherRowKeeps(ctx, before, rows[n - 1], rows[i], a);
    }
  }

  // -- a row's cells ------------------------------------------------------------------------------

  /** The organization has a service of this id. */
  ghost predicate HasId(ctx: Context, id: string) {
    exists k :: 0 <= k < |ctx.services| && ctx.services[k].organization == ctx.organization && ctx.services[k].id == id
  }

  /** The places of the organization's services of this normalized name. */
  function Namesakes(services: seq<BusinessService>, organization: string, name: string): set<int> {
    set k | 0 <= k < |services| && services[k].organization == organization && services[k].nameNormalized == name
  }

  lemma {:induction false} NamesakesMeaning(services: seq<BusinessService>, organization: string, name: string)
    ensures var ids, places := ServicesNamed(services, organization, name), Namesakes(services, organization, name);
            |ids| == |places| && (ids != [] ==> exists k :: k in places && services[k].id == ids[0])
  {
    if services != [] {
      var n := |services| - 1;
      NamesakesMeaning(services[..n], organization, name);
      var before, places := Namesakes(services[..n], organization, name), Namesakes(services, organization, name);
      if services[n].organization == organization && services[n].nameNormalized == name {
        assert places == before + {n};
      } else {
        assert places == before;
      }
    }
  }

  /** An existing id decides whatever the name; otherwise the name decides, unless two services have it. */
  lemma ServiceExactly(ctx: Context, row: Row)
    ensures var id := Strip(row.serviceId);
            var name := Strip(if row.service != "" then row.service else row.serviceName);
            var places := if name == "" then {} else Namesakes(ctx.services, ctx.organization, Lower(name));
            var r := ResolveService(ctx, row);
            if id != "" && HasId(ctx, id) then r == Ok(Some(id))
            else
              && (r.Err? <==> |places| > 1)
              && (r == Ok(None) <==> places == {})
              && (r.Ok? && r.value.Some? ==> exists k :: k in places && ctx.services[k].id == r.value.value)
  {
    var id, name := Strip(row.serviceId), Strip(if row.service != "" then row.service else row.serviceName);
    NamesakesMeaning(ctx.services, ctx.organization, Lower(name));
    if id != "" && HasId(ctx, id) {
      var k :| 0 <= k < |ctx.services| && ctx.services[k].organization == ctx.organization && ctx.services[k].id == id;
      assert ctx.services[k] in ctx.services;
    }
  }

  /** Which rows are skipped, which update, and which create: by hostname alone. */
  lemma RowFate(ctx: Context, st: Store, row: Row)
    ensures var hosts := HostMatches(ctx, st, Strip(row.hostname));
            var e := EffectOf(ctx, st, Read(ctx, row));
            && (e.Skipped? <==> Strip(row.hostname) == "" || ResolveService(ctx, row).Err? || |hosts| > 1)
            && (!e.Skipped? && |hosts| == 1 ==> e == Updated(hosts[0]))
            && (!e.Skipped? && |hosts| == 0 ==> e == Created(|st.assets|))
  {}

  /** The cells of a row on its asset. Criticality falls back to medium; a blank environment, service or
      exposure keeps what is there; the owner follows its column, blank cells included, when the file
      has one; name, type and organization are set at creation only. */
  lemma RowCells(ctx: Context, st: Store, row: Row, a: nat)
    requires WellFormed(st) && TargetOf(EffectOf(ctx, st, Read(ctx, row))) == Some(a)
    ensures a < |ApplyRow(ctx, st, Read(ctx, row)).assets|
    ensures var after := ApplyRow(ctx, st, Read(ctx, row)).assets[a];
            var created := a >= |st.assets|;
            var criticality := Lower(Strip(if row.criticality == "" then "medium" else row.criticality));
            var environment, owner := Strip(row.environment), Strip(row.owner);
            var exposure, name, kind := Lower(Strip(row.internetExposure)), Strip(row.name), Strip(row.kind);
            var service := ResolveService(ctx, row);
            && after.criticality == (if criticality in {"critical", "high", "medium", "low"} then criticality else "medium")
            && after.environment ==
                 (if environment != "" then Some(environment) else if created then None else st.assets[a].environment)
            && after.owner ==
                 (if ctx.ownerColumn then (if owner != "" then Some(owner) else None)
                  else if created then None else st.assets[a].owner)
            && service.Ok?
            && after.serviceId == (if service.value.Some? || created then service.value else st.assets[a].serviceId)
            && after.internetExposure ==
                 (if exposure in {"external", "internal", "unknown"} then Some(exposure)
                  else if created then None else st.assets[a].internetExposure)
            && (created ==>
                  && after.name == (if name != "" then name else Strip(row.hostname))
                  && after.kind == (if kind != "" then kind else "host")
                  && after.organization == ctx.organization)
            && (!created ==> SameIdentity(after, st.assets[a]))
  {
    RowAsset(ctx, st, Read(ctx, row), a);
    assert Strip("host") == "host" && Strip("") == "";
  }

  /** The places of a hostname's aliases in the organization. */
  function Places(aliases: seq<Alias>, value: string, organization: string): set<int> {
    set k | 0 <= k < |aliases|
            && aliases[k].namespace == "hostname" && aliases[k].value == value && aliases[k].organization == organization
  }

  lemma OneMorePlace(aliases: seq<Alias>, value: string, organization: string)
    requires aliases != []
    ensures var n := |aliases| - 1;
            var last := aliases[n];
            var known := last.namespace == "hostname" && last.value == value && last.organization == organization;
            Places(aliases, value, organization) == Places(aliases[..n], value, organization) + if known then {n} else {}
  {}

  /** Which assets a hostname leads to: one for each alias of that name in the organization. */
  lemma {:induction false} MatchesExactly(aliases: seq<Alias>, value: string, organization: string)
    ensures |Matches(aliases, "hostname", value, organization)| == |Places(aliases, value, organization)|
    ensures forall a :: a in Matches(aliases, "hostname", value, organization) <==>
                        exists k :: k in Places(aliases, value, organization) && aliases[k].asset == a
  {
    if aliases != [] {
      MatchesExactly(aliases[..|aliases| - 1], value, organization);
      OneMorePlace(aliases, value, organization);
    }
  }
}
