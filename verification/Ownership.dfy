/** Case ownership: asset owner, then business-service owner, then the configured default. */
module Ownership {
  import opened Domain
  import opened Text
  import opened Assets

  datatype ExposureLink = ExposureLink(organization: string, assetId: Option<string>)

  datatype Inventory = Inventory(
    assets: map<string, Asset>,
    services: map<string, BusinessService>,
    exposures: seq<ExposureLink>)

  datatype Source = FromAsset | FromService | ByDefault | Explicit
  datatype ResolvedOwner = ResolvedOwner(team: string, source: Source)
  datatype CaseOwnership = CaseOwnership(owner: ResolvedOwner, escalated: bool)

  function DefaultTeam(setting: string): string {
    if Strip(setting) == "" then "unassigned" else Strip(setting)
  }

  /** Lookups are scoped to the organization: a foreign asset or service resolves to the default. */
  function Resolve(inv: Inventory, organization: string, assetId: string, default: string): ResolvedOwner {
    if assetId in inv.assets && inv.assets[assetId].organization == organization then
      var asset := inv.assets[assetId];
      var owner := Strip(asset.owner.GetOr(""));
      var service := asset.serviceId.GetOr("");
      if owner != "" then ResolvedOwner(owner, FromAsset)
      else if && service != "" && service in inv.services && inv.services[service].organization == organization
              && Strip(inv.services[service].ownerTeam) != "" then
        ResolvedOwner(Strip(inv.services[service].ownerTeam), FromService)
      else ResolvedOwner(default, ByDefault)
    else ResolvedOwner(default, ByDefault)
  }

  /** The assets a new case is linked to, directly or through its exposures. */
  function LinkedAssets(inv: Inventory, organization: string, exposures: seq<nat>, assetId: string): set<string> {
    (if Strip(assetId) == "" then {} else {Strip(assetId)})
    + set e | e in exposures && e < |inv.exposures|
              && inv.exposures[e].organization == organization
              && inv.exposures[e].assetId.GetOr("") != "" :: inv.exposures[e].assetId.GetOr("")
  }

  /** Teams are compared without case; an owned asset never agrees with an unowned one. */
  function AgreementKey(o: ResolvedOwner): (string, bool) {
    (Lower(o.team), o.source == ByDefault)
  }

  // -- order on strings, to pick one spelling of the agreed team ------------------------------------

  predicate LexLeq(a: string, b: string) {
    a == "" || (b != "" && (a[0] < b[0] || (a[0] == b[0] && LexLeq(a[1..], b[1..]))))
  }

  lemma {:induction false} LexTotal(a: string, b: string)
    ensures LexLeq(a, b) || LexLeq(b, a)
    ensures LexLeq(a, b) && LexLeq(b, a) ==> a == b
  {
    if a != "" && b != "" {
      LexTotal(a[1..], b[1..]);
      assert a == [a[0]] + a[1..] && b == [b[0]] + b[1..];
    }
  }

  lemma {:induction false} LexTransitive(a: string, b: string, c: string)
    requires LexLeq(a, b) && LexLeq(b, c)
    ensures LexLeq(a, c)
  {
    if a != "" && b != "" && c != "" && a[0] == b[0] == c[0] {
      LexTransitive(a[1..], b[1..], c[1..]);
    }
  }

  function SourceRank(s: Source): nat {
    match s
    case FromAsset => 0
    case ByDefault => 1
    case Explicit => 2
    case FromService => 3
  }

  /** The source's `min` key among owners that already agree case-insensitively. */
  predicate OwnerLeq(a: ResolvedOwner, b: ResolvedOwner) {
    LexLeq(a.team, b.team) && (a.team == b.team ==> SourceRank(a.source) <= SourceRank(b.source))
  }

  lemma OwnerOrder(a: ResolvedOwner, b: ResolvedOwner, c: ResolvedOwner)
    ensures OwnerLeq(a, a)
    ensures OwnerLeq(a, b) || OwnerLeq(b, a)
    ensures OwnerLeq(a, b) && OwnerLeq(b, a) ==> a == b
    ensures OwnerLeq(a, b) && OwnerLeq(b, c) ==> OwnerLeq(a, c)
  {
    LexTotal(a.team, a.team);
    LexTotal(a.team, b.team);
    LexTotal(b.team, c.team);
    if LexLeq(a.team, b.team) && LexLeq(b.team, c.team) {
      LexTransitive(a.team, b.team, c.team);
      LexTotal(a.team, c.team);
    }
  }

  // -- specification ------------------------------------------------------------------------------

  predicate RequestsDefault(requested: string, default: string) {
    Strip(requested) == "" || Lower(Strip(requested)) == Lower(default)
  }

  /** The owners the linked assets resolve to. */
  function OwnersOf(inv: Inventory, organization: string, linked: set<string>, default: string): set<ResolvedOwner> {
    set a | a in linked :: Resolve(inv, organization, a, default)
  }

  ghost predicate Conflict(inv: Inventory, organization: string, linked: set<string>, default: string) {
    exists a, b :: a in linked && b in linked
      && AgreementKey(Resolve(inv, organization, a, default)) != AgreementKey(Resolve(inv, organization, b, default))
  }

  ghost predicate Unowned(inv: Inventory, organization: string, linked: set<string>, default: string) {
    forall a :: a in linked ==> Resolve(inv, organization, a, default).source == ByDefault
  }

  ghost predicate Representative(owners: set<ResolvedOwner>, o: ResolvedOwner) {
    o in owners && forall x :: x in owners ==> OwnerLeq(o, x)
  }

  /** What case creation decides about ownership; it speaks of the set of linked assets only. */
  ghost predicate Outcome(inv: Inventory, organization: string, requested: string, priority: Priority,
                          linked: set<string>, default: string, r: Result<CaseOwnership>)
  {
    if Conflict(inv, organization, linked, default) then r == Err("conflicting exposure owners")
    else
      && r.Ok?
      && (r.value.escalated <==>
            && priority in {P0, P1} && RequestsDefault(requested, default)
            && Unowned(inv, organization, linked, default))
      && (if !RequestsDefault(requested, default) then r.value.owner == ResolvedOwner(Strip(requested), Explicit)
          else if Unowned(inv, organization, linked, default) then r.value.owner == ResolvedOwner(default, ByDefault)
          else Representative(OwnersOf(inv, organization, linked, default), r.value.owner))
  }

  /** `min` over the owners, whatever order they come in. */
  method LeastOwner(owners: set<ResolvedOwner>) returns (best: ResolvedOwner)
    requires owners != {}
    ensures Representative(owners, best)
  {
    best :| best in owners;
    var rest := owners - {best};
    OwnerOrder(best, best, best);
    while rest != {}
      invariant rest <= owners && best in owners - rest
      invariant forall x :: x in owners - rest ==> OwnerLeq(best, x)
      decreases |rest|
    {
      var o :| o in rest;
      forall x | x in owners - rest
        ensures OwnerLeq(o, best) ==> OwnerLeq(o, x)
      {
        OwnerOrder(o, best, x);
      }
      OwnerOrder(o, best, o);
      if OwnerLeq(o, best) {
        best := o;
      }
      rest := rest - {o};
    }
  }

  lemma OwnersMeaning(inv: Inventory, organization: string, linked: set<string>, default: string)
    ensures var owners := OwnersOf(inv, organization, linked, default);
            && (Conflict(inv, organization, linked, default) <==>
                  exists o, o' :: o in owners && o' in owners && AgreementKey(o) != AgreementKey(o'))
            && (Unowned(inv, organization, linked, default) <==> forall o :: o in owners ==> o.source == ByDefault)
            && (owners == {} <==> linked == {})
  {
    var owners := OwnersOf(inv, organization, linked, default);
    assert forall a :: a in linked ==> Resolve(inv, organization, a, default) in owners;
  }

  method ResolveCaseOwnership(inv: Inventory, organization: string, requested: string, priority: Priority,
                              exposures: seq<nat>, assetId: string, setting: string)
    returns (r: Result<CaseOwnership>)
    ensures Outcome(inv, organization, requested, priority,
                    LinkedAssets(inv, organization, exposures, assetId), DefaultTeam(setting), r)
  {
    var default := DefaultTeam(setting);
    var linked := LinkedAssets(inv, organization, exposures, assetId);
    var owners := OwnersOf(inv, organization, linked, default);
    OwnersMeaning(inv, organization, linked, default);
    if exists o, o' | o in owners && o' in owners :: AgreementKey(o) != AgreementKey(o') {
      return Err("conflicting exposure owners");
    }
    if RequestsDefault(requested, default) {
      var owner := ResolvedOwner(default, ByDefault);
      if owners != {} {
        var least := LeastOwner(owners);
        owner := if least.source == ByDefault then owner else least;
      }
      r := Ok(CaseOwnership(owner, priority in {P0, P1} && owner.source == ByDefault));
    } else {
      r := Ok(CaseOwnership(ResolvedOwner(Strip(requested), Explicit), false));
    }
  }

  // -- properties ---------------------------------------------------------------------------------

  /** Reordering or repeating exposures changes nothing: equal sets of exposures, equal outcomes. */
  lemma OnlyTheSetMatters(inv: Inventory, organization: string, requested: string, priority: Priority,
                          xs: seq<nat>, ys: seq<nat>, assetId: string, default: string,
                          r: Result<CaseOwnership>, r': Result<CaseOwnership>)
    requires forall e :: e in xs <==> e in ys
    requires Outcome(inv, organization, requested, priority, LinkedAssets(inv, organization, xs, assetId), default, r)
    requires Outcome(inv, organization, requested, priority, LinkedAssets(inv, organization, ys, assetId), default, r')
    ensures r == r'
  {
    assert LinkedAssets(inv, organization, xs, assetId) == LinkedAssets(inv, organization, ys, assetId);
    if r.Ok? && r'.Ok? {
      OwnerOrder(r.value.owner, r'.value.owner, r.value.owner);
    }
  }

  /** A case for one exposure cannot conflict, unless trimming changes the exposure's asset id. */
  lemma OneExposureNeverConflicts(inv: Inventory, organization: string, exposure: nat, default: string)
    requires exposure < |inv.exposures|
    requires var id := inv.exposures[exposure].assetId.GetOr(""); Strip(id) == id
    ensures !Conflict(inv, organization,
                      LinkedAssets(inv, organization, [exposure], inv.exposures[exposure].assetId.GetOr("")), default)
  {}

  // -- who owns what ------------------------------------------------------------------------------

  /** The asset exists in the organization and names an owner. */
  predicate OwnsItself(inv: Inventory, organization: string, a: string) {
    && a in inv.assets && inv.assets[a].organization == organization
    && Strip(inv.assets[a].owner.GetOr("")) != ""
  }

  /** The asset exists in the organization, names no owner, and its service there has a team. */
  predicate OwnedByService(inv: Inventory, organization: string, a: string) {
    && a in inv.assets && inv.assets[a].organization == organization
    && Strip(inv.assets[a].owner.GetOr("")) == ""
    && inv.assets[a].serviceId.GetOr("") != "" && inv.assets[a].serviceId.value in inv.services
    && inv.services[inv.assets[a].serviceId.value].organization == organization
    && Strip(inv.services[inv.assets[a].serviceId.value].ownerTeam) != ""
  }

  /** The precedence: the asset's own owner, whatever the services hold; then its service's team; then
      the default. Assets and services of other organizations never decide. */
  lemma Precedence(inv: Inventory, organization: string, a: string, default: string)
    ensures Resolve(inv, organization, a, default) ==
            if OwnsItself(inv, organization, a) then ResolvedOwner(Strip(inv.assets[a].owner.value), FromAsset)
            else if OwnedByService(inv, organization, a) then
              ResolvedOwner(Strip(inv.services[inv.assets[a].serviceId.value].ownerTeam), FromService)
            else ResolvedOwner(default, ByDefault)
  {}

  /** A case about one linked asset never conflicts. Unless its caller names another team than the
      default, the asset's precedence decides its owner, and it escalates exactly when it is P0 or P1
      and nobody owns the asset. */
  lemma SoleAssetOwner(inv: Inventory, organization: string, requested: string, priority: Priority, a: string,
                       setting: string, r: Result<CaseOwnership>)
    requires Outcome(inv, organization, requested, priority, {a}, DefaultTeam(setting), r)
    ensures var default := if Strip(setting) != "" then Strip(setting) else "unassigned";
            var wanted := Strip(requested);
            var owned := OwnsItself(inv, organization, a) || OwnedByService(inv, organization, a);
            && r.Ok?
            && (if wanted != "" && Lower(wanted) != Lower(default) then
                  r.value == CaseOwnership(ResolvedOwner(wanted, Explicit), false)
                else
                  && (r.value.escalated <==> (priority == P0 || priority == P1) && !owned)
                  && (OwnsItself(inv, organization, a) ==>
                        r.value.owner == ResolvedOwner(Strip(inv.assets[a].owner.value), FromAsset))
                  && (OwnedByService(inv, organization, a) ==>
                        r.value.owner == ResolvedOwner(Strip(inv.services[inv.assets[a].serviceId.value].ownerTeam), FromService))
                  && (!owned ==> r.value.owner == ResolvedOwner(default, ByDefault)))
  {
    var default := DefaultTeam(setting);
    Precedence(inv, organization, a, default);
    assert OwnersOf(inv, organization, {a}, default) == {Resolve(inv, organization, a, default)};
    assert !Conflict(inv, organization, {a}, default);
  }

  /** Two linked assets conflict exactly when their teams differ beyond letter case, or one is owned and
      the other is not, even under the same team name. */
  lemma PairConflicts(inv: Inventory, organization: string, a: string, b: string, default: string)
    ensures var x, y := Resolve(inv, organization, a, default), Resolve(inv, organization, b, default);
            Conflict(inv, organization, {a, b}, default) <==>
              Lower(x.team) != Lower(y.team) || (x.source == ByDefault) != (y.source == ByDefault)
  {
    var x, y := Resolve(inv, organization, a, default), Resolve(inv, organization, b, default);
    if AgreementKey(x) != AgreementKey(y) {
      assert a in {a, b} && b in {a, b};
    }
  }

  /** Which assets a case is linked to: the one it names, trimmed, and those of its exposures in the
      organization. */
  lemma LinkedExactly(inv: Inventory, organization: string, exposures: seq<nat>, assetId: string, a: string)
    ensures a in LinkedAssets(inv, organization, exposures, assetId) <==>
              a != "" && (a == Strip(assetId)
                          || exists k :: 0 <= k < |exposures| && exposures[k] < |inv.exposures|
                               && inv.exposures[exposures[k]] == ExposureLink(organization, Some(a)))
  {
    if k :| 0 <= k < |exposures| && exposures[k] < |inv.exposures|
            && inv.exposures[exposures[k]] == ExposureLink(organization, Some(a)) && a != "" {
      assert exposures[k] in exposures;
    }
    if a in LinkedAssets(inv, organization, exposures, assetId) && a != Strip(assetId) {
      var e :| e in exposures && e < |inv.exposures| && inv.exposures[e].organization == organization
               && inv.exposures[e].assetId.GetOr("") == a && a != "";
      var k :| 0 <= k < |exposures| && exposures[k] == e;
      assert inv.exposures[exposures[k]] == ExposureLink(organization, Some(a));
    }
  }

  /** `a` comes before `b` in character order, or is a prefix of it. */
  ghost predicate Earlier(a: string, b: string) {
    a <= b || exists k :: 0 <= k < |a| && k < |b| && a[..k] == b[..k] && a[k] < b[k]
  }

  lemma {:induction false} LexMeans(a: string, b: string)
    requires LexLeq(a, b)
    ensures Earlier(a, b)
  {
    if a != "" && a[0] == b[0] {
      LexMeans(a[1..], b[1..]);
      assert a == [a[0]] + a[1..] && b == [b[0]] + b[1..];
      if !(a[1..] <= b[1..]) {
        var k :| 0 <= k < |a[1..]| && k < |b[1..]| && a[1..][..k] == b[1..][..k] && a[1..][k] < b[1..][k];
        assert a[..k + 1] == [a[0]] + a[1..][..k] && b[..k + 1] == [b[0]] + b[1..][..k];
        assert a[k + 1] < b[k + 1];
      }
    } else if a != "" {
      assert a[..0] == b[..0];
    }
  }

  /** Of several agreeing owners the case takes the earliest spelling, an asset's before a service's. */
  lemma EarliestSpelling(inv: Inventory, organization: string, requested: string, priority: Priority,
                         linked: set<string>, default: string, r: Result<CaseOwnership>, a: string)
    requires Outcome(inv, organization, requested, priority, linked, default, r) && r.Ok? && a in linked
    requires r.value.owner.source in {FromAsset, FromService}
    ensures var x, o := Resolve(inv, organization, a, default), r.value.owner;
            && Lower(o.team) == Lower(x.team) && Earlier(o.team, x.team)
            && (o.team == x.team && x.source == FromAsset ==> o.source == FromAsset)
            && exists b :: b in linked && Resolve(inv, organization, b, default) == o
  {
    var x, o := Resolve(inv, organization, a, default), r.value.owner;
    assert x in OwnersOf(inv, organization, linked, default);
    assert OwnerLeq(o, x);
    LexMeans(o.team, x.team);
    var b :| b in linked && Resolve(inv, organization, b, default) == o;
    assert AgreementKey(x) == AgreementKey(o);
  }
}
