/** The matching pipeline: scanner evidence, VEX, package ranges, CPE heuristic, fallback. */
module Matching {
  import opened Domain
  import opened Text
  import PurlDerivation

  /** One entry of an OSV range's event list; a key that is absent is `None`. */
  datatype Event = Event(introduced: Option<string>, fixed: Option<string>, lastAffected: Option<string>)
  datatype Range = Range(kind: Option<string>, events: seq<Event>)
  datatype Package = Package(ecosystem: Option<string>, purl: Option<string>, name: Option<string>)
  datatype Affected = Affected(package: Package, ranges: seq<Range>, versions: seq<string>)
  datatype Advisory = Advisory(id: string, aliases: seq<string>, affected: seq<Affected>)

  datatype Component = Component(
    rawName: string,
    rawVersion: Option<string>,
    purl: Option<string>,
    ecosystem: Option<string>,
    normalizedName: Option<string>,
    cpe: Option<string>)

  datatype Verdict = Verdict(
    matchClass: MatchClass,
    confidence: real,
    matchedRules: seq<string>,
    limitations: seq<string>)

  /** Version comparison is a parameter everywhere: nothing below relies on it being an order. */
  type Compare = (string, string) -> int

  /** Python truthiness of an optional string. */
  predicate Given(o: Option<string>) {
    o.Some? && o.value != ""
  }

  // -- versioning --------------------------------------------------------------------------------

  predicate VersionInRange(cmp: Compare, version: string, introduced: Option<string>, fixed: Option<string>,
                           lastAffected: Option<string>) {
    && !(Given(introduced) && introduced.value != "0" && cmp(version, introduced.value) < 0)
    && !(Given(fixed) && cmp(version, fixed.value) >= 0)
    && !(Given(lastAffected) && cmp(version, lastAffected.value) > 0)
  }

  function NormalizeEcosystem(ecosystem: Option<string>): Option<string> {
    if !Given(ecosystem) then None
    else if Lower(ecosystem.value) == "debian" then Some("deb")
    else Some(Lower(ecosystem.value))
  }

  predicate SupportsEcosystem(ecosystem: Option<string>) {
    Given(ecosystem) && Lower(ecosystem.value) in {"pypi", "deb", "maven", "npm", "golang", "generic"}
  }

  // -- identity ----------------------------------------------------------------------------------

  function LastSegment(name: string): string {
    name[PastLast(name, '/')..]
  }

  /** A name and, when it is namespaced, its last segment. */
  function NameForms(name: string): set<string> {
    {name, LastSegment(name)}
  }

  function ComponentName(c: Component): string {
    Strip(Lower(if Given(c.normalizedName) then c.normalizedName.value else c.rawName))
  }

  predicate IdentityMatches(c: Component, p: Package) {
    if Given(p.purl) && Given(c.purl) then
      && PurlDerivation.StripIdentity(c.purl.value) == PurlDerivation.StripIdentity(p.purl.value)
      && PurlDerivation.StripIdentity(c.purl.value) != ""
    else
      Given(p.name) && NameForms(ComponentName(c)) * NameForms(Strip(Lower(p.name.value))) != {}
  }

  predicate EcosystemCompatible(c: Component, p: Package) {
    Given(p.ecosystem) ==>
      NormalizeEcosystem(p.ecosystem) in {NormalizeEcosystem(c.ecosystem), Some("generic")}
  }

  /** The entry is about this component's package. */
  predicate Considered(c: Component, a: Affected) {
    EcosystemCompatible(c, a.package) && IdentityMatches(c, a.package)
  }

  // -- ranges ------------------------------------------------------------------------------------

  datatype Bounds = Bounds(introduced: Option<string>, fixed: Option<string>, lastAffected: Option<string>)

  function Latest(earlier: Option<string>, later: Option<string>): Option<string> {
    if later.Some? then later else earlier
  }

  /** Of several events naming the same bound the last one counts. */
  function BoundsOf(events: seq<Event>): Bounds {
    if events == [] then Bounds(None, None, None)
    else
      var b, e := BoundsOf(events[..|events| - 1]), events[|events| - 1];
      Bounds(Latest(b.introduced, e.introduced), Latest(b.fixed, e.fixed), Latest(b.lastAffected, e.lastAffected))
  }

  predicate RangeContains(cmp: Compare, version: string, r: Range) {
    var b := BoundsOf(r.events);
    VersionInRange(cmp, version, b.introduced, b.fixed, b.lastAffected)
  }

  predicate EntryContains(cmp: Compare, version: string, a: Affected) {
    (exists r | r in a.ranges :: RangeContains(cmp, version, r)) || version in a.versions
  }

  predicate SomeEntryContains(cmp: Compare, c: Component, version: string, affected: seq<Affected>) {
    exists a | a in affected :: Considered(c, a) && EntryContains(cmp, version, a)
  }

  predicate SomeEntryConsidered(c: Component, affected: seq<Affected>) {
    exists a | a in affected :: Considered(c, a)
  }

  predicate SomeEntryCarriesVersions(affected: seq<Affected>) {
    exists a | a in affected :: a.ranges != [] || a.versions != []
  }

  // -- verdict -----------------------------------------------------------------------------------

  /** What the stage over package ranges decides from what the scan finds; `None` falls through. */
  function PackageStage(c: Component, contains: bool, considered: bool, carries: bool): Option<Verdict> {
    if !(Given(c.purl) && Given(c.rawVersion)) then None
    else if !SupportsEcosystem(NormalizeEcosystem(c.ecosystem)) then
      Some(Verdict(Candidate, 0.4, ["unsupported.ecosystem"],
                   ["unsupported version scheme: " + c.ecosystem.GetOr("None")]))
    else if contains then Some(Verdict(Deterministic, 0.93, ["osv.purl-range", "asset.service-context"], []))
    else if considered && carries then Some(Verdict(NotAffected, 0.85, ["osv.purl-range.not_affected"], []))
    else None
  }

  function LaterStages(c: Component, secondSignal: bool): Verdict {
    if Given(c.cpe) && !Given(c.purl) then
      if secondSignal then
        Verdict(Corroborated, 0.65, ["cpe.corroborated", "inventory.second_signal"], ["CPE mapping requires review"])
      else
        Verdict(Candidate, 0.35, ["cpe.candidate"], ["CPE/name heuristic only - review required"])
    else if !Given(c.purl) && !Given(c.cpe) then
      Verdict(Candidate, 0.3, ["name.candidate"], ["incomplete version data"])
    else
      Verdict(Candidate, 0.4, ["candidate.fallback"], ["no deterministic match"])
  }

  /** Evidence that settles the verdict before any range is looked at. */
  function OverridingEvidence(scannerConfirmed: bool, vex: Option<string>): Option<Verdict> {
    if scannerConfirmed then Some(Verdict(Confirmed, 0.99, ["scanner.confirmed", "asset.service-context"], []))
    else if vex == Some("not_affected") then Some(Verdict(NotAffected, 0.95, ["vex.not_affected"], []))
    else if vex == Some("affected") then Some(Verdict(Confirmed, 0.98, ["vex.affected"], []))
    else None
  }

  /** The declarative verdict: quantifiers over the advisory, no order of inspection. */
  function Judge(cmp: Compare, c: Component, adv: Advisory, secondSignal: bool, scannerConfirmed: bool,
                 vex: Option<string>): Verdict {
    OverridingEvidence(scannerConfirmed, vex).GetOr(
      PackageStage(
        c,
        SomeEntryContains(cmp, c, c.rawVersion.GetOr(""), adv.affected),
        SomeEntryConsidered(c, adv.affected),
        SomeEntryCarriesVersions(adv.affected)).GetOr(LaterStages(c, secondSignal)))
  }

  method CollectBounds(events: seq<Event>) returns (b: Bounds)
    ensures b == BoundsOf(events)
  {
    var introduced, fixed, lastAffected := None, None, None;
    for i := 0 to |events|
      invariant Bounds(introduced, fixed, lastAffected) == BoundsOf(events[..i])
    {
      assert events[..i + 1][..i] == events[..i];
      if events[i].introduced.Some? { introduced := events[i].introduced; }
      if events[i].fixed.Some? { fixed := events[i].fixed; }
      if events[i].lastAffected.Some? { lastAffected := events[i].lastAffected; }
    }
    assert events[..|events|] == events;
    b := Bounds(introduced, fixed, lastAffected);
  }

  method ScanRanges(cmp: Compare, version: string, ranges: seq<Range>) returns (matched: bool)
    ensures matched <==> exists r :: r in ranges && RangeContains(cmp, version, r)
  {
    matched := false;
    for i := 0 to |ranges|
      invariant !matched
      invariant forall r :: r in ranges[..i] ==> !RangeContains(cmp, version, r)
    {
      var b := CollectBounds(ranges[i].events);
      if VersionInRange(cmp, version, b.introduced, b.fixed, b.lastAffected) {
        assert RangeContains(cmp, version, ranges[i]);
        return true;
      }
    }
    assert ranges[..|ranges|] == ranges;
  }

  /** One entry of the scan: the compatibility and identity checks come before any range. */
  method ScanEntry(cmp: Compare, c: Component, version: string, a: Affected) returns (considered: bool, matched: bool)
    ensures considered <==> Considered(c, a)
    ensures matched <==> Considered(c, a) && EntryContains(cmp, version, a)
  {
    if !EcosystemCompatible(c, a.package) { return false, false; }
    if !IdentityMatches(c, a.package) { return false, false; }
    considered := true;
    matched := ScanRanges(cmp, version, a.ranges);
    if !matched && version in a.versions {
      matched := true;
    }
  }

  lemma OneMoreEntry(cmp: Compare, c: Component, version: string, seen: seq<Affected>, a: Affected)
    ensures SomeEntryContains(cmp, c, version, seen + [a])
            <==> SomeEntryContains(cmp, c, version, seen) || (Considered(c, a) && EntryContains(cmp, version, a))
    ensures SomeEntryConsidered(c, seen + [a]) <==> SomeEntryConsidered(c, seen) || Considered(c, a)
  {
    assert forall e :: e in seen + [a] <==> e in seen || e == a;
  }

  /** The source's scan with its early exits. */
  method ScanEntries(cmp: Compare, c: Component, version: string, affected: seq<Affected>)
    returns (matched: bool, identityMatched: bool)
    ensures matched <==> SomeEntryContains(cmp, c, version, affected)
    ensures !matched ==> (identityMatched <==> SomeEntryConsidered(c, affected))
  {
    matched, identityMatched := false, false;
    for i := 0 to |affected|
      invariant !matched
      invariant !SomeEntryContains(cmp, c, version, affected[..i])
      invariant identityMatched <==> SomeEntryConsidered(c, affected[..i])
    {
      var considered, hit := ScanEntry(cmp, c, version, affected[i]);
      OneMoreEntry(cmp, c, version, affected[..i], affected[i]);
      assert affected[..i + 1] == affected[..i] + [affected[i]];
      if considered {
        identityMatched := true;
      }
      if hit {
        assert affected[i] in affected;
        return true, true;
      }
    }
    assert affected[..|affected|] == affected;
  }

  /** `MatchingService.evaluate`: the loops agree with the declarative verdict on every input. */
  method Evaluate(cmp: Compare, c: Component, adv: Advisory, secondSignal: bool, scannerConfirmed: bool,
                  vex: Option<string>) returns (v: Verdict)
    ensures v == Judge(cmp, c, adv, secondSignal, scannerConfirmed, vex)
  {
    if scannerConfirmed {
      return Verdict(Confirmed, 0.99, ["scanner.confirmed", "asset.service-context"], []);
    }
    if vex == Some("not_affected") {
      return Verdict(NotAffected, 0.95, ["vex.not_affected"], []);
    }
    if vex == Some("affected") {
      return Verdict(Confirmed, 0.98, ["vex.affected"], []);
    }
    if Given(c.purl) && Given(c.rawVersion) {
      if !SupportsEcosystem(NormalizeEcosystem(c.ecosystem)) {
        return Verdict(Candidate, 0.4, ["unsupported.ecosystem"], ["unsupported version scheme: " + c.ecosystem.GetOr("None")]);
      }
      var matched, identityMatched := ScanEntries(cmp, c, c.rawVersion.value, adv.affected);
      if matched {
        return Verdict(Deterministic, 0.93, ["osv.purl-range", "asset.service-context"], []);
      }
      if identityMatched && SomeEntryCarriesVersions(adv.affected) {
        return Verdict(NotAffected, 0.85, ["osv.purl-range.not_affected"], []);
      }
    }
    v := LaterStages(c, secondSignal);
  }

  // -- properties --------------------------------------------------------------------------------

  /** What an entry says, forgetting the order and repetition of its ranges and versions. */
  datatype Contents = Contents(package: Package, ranges: set<Range>, versions: set<string>)

  ghost function ContentsOf(a: Affected): Contents {
    Contents(a.package, set r | r in a.ranges, set v | v in a.versions)
  }

  ghost function AllContents(affected: seq<Affected>): set<Contents> {
    set a | a in affected :: ContentsOf(a)
  }

  lemma SameContentsSameFacts(cmp: Compare, c: Component, version: string, a: Affected, a': Affected)
    requires ContentsOf(a) == ContentsOf(a')
    ensures Considered(c, a) <==> Considered(c, a')
    ensures EntryContains(cmp, version, a) <==> EntryContains(cmp, version, a')
    ensures a.ranges != [] || a.versions != [] <==> a'.ranges != [] || a'.versions != []
  {
    var ca, ca' := ContentsOf(a), ContentsOf(a');
    assert forall r :: r in a.ranges <==> r in ca.ranges;
    assert forall r :: r in a'.ranges <==> r in ca'.ranges;
    assert forall v :: v in a.versions <==> v in ca.versions;
    assert forall v :: v in a'.versions <==> v in ca'.versions;
    assert a.ranges != [] ==> a.ranges[0] in a'.ranges;
    assert a'.ranges != [] ==> a'.ranges[0] in a.ranges;
    assert a.versions != [] ==> a.versions[0] in a'.versions;
    assert a'.versions != [] ==> a'.versions[0] in a.versions;
  }

  lemma Counterpart(affected: seq<Affected>, affected': seq<Affected>, a: Affected) returns (a': Affected)
    requires AllContents(affected) <= AllContents(affected') && a in affected
    ensures a' in affected' && ContentsOf(a) == ContentsOf(a')
  {
    assert ContentsOf(a) in AllContents(affected');
    a' :| a' in affected' && ContentsOf(a) == ContentsOf(a');
  }

  lemma CoveringFacts(cmp: Compare, c: Component, version: string, xs: seq<Affected>, ys: seq<Affected>)
    requires AllContents(xs) <= AllContents(ys)
    ensures SomeEntryConsidered(c, xs) ==> SomeEntryConsidered(c, ys)
    ensures SomeEntryContains(cmp, c, version, xs) ==> SomeEntryContains(cmp, c, version, ys)
    ensures SomeEntryCarriesVersions(xs) ==> SomeEntryCarriesVersions(ys)
  {
    if SomeEntryConsidered(c, xs) {
      var a :| a in xs && Considered(c, a);
      var b := Counterpart(xs, ys, a);
      SameContentsSameFacts(cmp, c, version, a, b);
    }
    if SomeEntryContains(cmp, c, version, xs) {
      var a :| a in xs && Considered(c, a) && EntryContains(cmp, version, a);
      var b := Counterpart(xs, ys, a);
      SameContentsSameFacts(cmp, c, version, a, b);
    }
    if SomeEntryCarriesVersions(xs) {
      var a :| a in xs && (a.ranges != [] || a.versions != []);
      var b := Counterpart(xs, ys, a);
      SameContentsSameFacts(cmp, c, version, a, b);
    }
  }

  /** Permuting or repeating entries, ranges or versions never changes the verdict. */
  lemma OrderIrrelevant(cmp: Compare, c: Component, adv: Advisory, adv': Advisory, second: bool, scanner: bool,
                        vex: Option<string>)
    requires AllContents(adv.affected) == AllContents(adv'.affected)
    ensures Judge(cmp, c, adv, second, scanner, vex) == Judge(cmp, c, adv', second, scanner, vex)
  {
    CoveringFacts(cmp, c, c.rawVersion.GetOr(""), adv.affected, adv'.affected);
    CoveringFacts(cmp, c, c.rawVersion.GetOr(""), adv'.affected, adv.affected);
  }

  /** The verdict table once neither scanner nor VEX decides, for a versioned package of a supported ecosystem. */
  lemma PackageVerdict(cmp: Compare, c: Component, adv: Advisory, second: bool, vex: Option<string>)
    requires vex !in {Some("affected"), Some("not_affected")}
    requires Given(c.purl) && Given(c.rawVersion) && SupportsEcosystem(NormalizeEcosystem(c.ecosystem))
    ensures var cls := Judge(cmp, c, adv, second, false, vex).matchClass;
            var hit := exists a :: a in adv.affected && Considered(c, a) && EntryContains(cmp, c.rawVersion.value, a);
            && (cls == Deterministic <==> hit)
            && (cls == NotAffected <==>
                  && !hit
                  && (exists a :: a in adv.affected && Considered(c, a))
                  && (exists a :: a in adv.affected && (a.ranges != [] || a.versions != [])))
            && (cls == Candidate <==> cls != Deterministic && cls != NotAffected)
  {
    assert LaterStages(c, second).matchClass == Candidate;
  }

  // -- the verdict in plain terms -----------------------------------------------------------------

  function Introduced(e: Event): Option<string> { e.introduced }
  function Fixed(e: Event): Option<string> { e.fixed }
  function LastAffected(e: Event): Option<string> { e.lastAffected }

  /** The bound some event names last; `None` when no event names it. */
  ghost predicate LastNamed(events: seq<Event>, bound: Event -> Option<string>, r: Option<string>) {
    if r.None? then forall e :: e in events ==> bound(e).None?
    else exists k :: 0 <= k < |events| && bound(events[k]) == r && forall m :: k < m < |events| ==> bound(events[m]).None?
  }

  lemma LastNamedExtends(events: seq<Event>, bound: Event -> Option<string>, r: Option<string>)
    requires events != [] && LastNamed(events[..|events| - 1], bound, r)
    ensures LastNamed(events, bound, Latest(r, bound(events[|events| - 1])))
  {
    var n := |events| - 1;
    assert events == events[..n] + [events[n]];
    if bound(events[n]).None? && r.Some? {
      var k :| 0 <= k < n && bound(events[..n][k]) == r && forall m :: k < m < n ==> bound(events[..n][m]).None?;
      assert bound(events[k]) == r;
      assert forall m :: k < m < n ==> events[m] == events[..n][m];
    }
  }

  /** Of several events naming a bound the last one counts, bound by bound. */
  lemma {:induction false} BoundsAreLast(events: seq<Event>)
    ensures LastNamed(events, Introduced, BoundsOf(events).introduced)
    ensures LastNamed(events, Fixed, BoundsOf(events).fixed)
    ensures LastNamed(events, LastAffected, BoundsOf(events).lastAffected)
  {
    if events != [] {
      var b := BoundsOf(events[..|events| - 1]);
      BoundsAreLast(events[..|events| - 1]);
      LastNamedExtends(events, Introduced, b.introduced);
      LastNamedExtends(events, Fixed, b.fixed);
      LastNamedExtends(events, LastAffected, b.lastAffected);
    }
  }

  /** Which versions a range contains: from `introduced` on, before `fixed`, up to `lastAffected`. */
  lemma RangeLaw(cmp: Compare, version: string, r: Range)
    ensures var b := BoundsOf(r.events);
            RangeContains(cmp, version, r) <==>
              && (b.introduced.GetOr("") == "" || b.introduced.value == "0" || cmp(version, b.introduced.value) >= 0)
              && (b.fixed.GetOr("") == "" || cmp(version, b.fixed.value) < 0)
              && (b.lastAffected.GetOr("") == "" || cmp(version, b.lastAffected.value) <= 0)
  {}

  /** One entry about the component with one range: the range's inequalities alone decide. */
  lemma SoleRangeVerdict(cmp: Compare, c: Component, adv: Advisory, a: Affected, r: Range, second: bool, vex: Option<string>)
    requires vex !in {Some("affected"), Some("not_affected")}
    requires Given(c.purl) && Given(c.rawVersion) && SupportsEcosystem(NormalizeEcosystem(c.ecosystem))
    requires adv.affected == [a] && Considered(c, a) && a.ranges == [r] && a.versions == []
    ensures var v, b := c.rawVersion.value, BoundsOf(r.events);
            Judge(cmp, c, adv, second, false, vex).matchClass ==
            if && (b.introduced.GetOr("") == "" || b.introduced.value == "0" || cmp(v, b.introduced.value) >= 0)
               && (b.fixed.GetOr("") == "" || cmp(v, b.fixed.value) < 0)
               && (b.lastAffected.GetOr("") == "" || cmp(v, b.lastAffected.value) <= 0)
            then Deterministic else NotAffected
  {
    PackageVerdict(cmp, c, adv, second, vex);
    RangeLaw(cmp, c.rawVersion.value, r);
    assert a in adv.affected && r in a.ranges;
  }

  /** The last segment of a namespaced name, or the whole of another. */
  lemma LastSegmentLaw(namespace: string, name: string)
    requires '/' !in name
    ensures LastSegment(namespace + "/" + name) == name && LastSegment(name) == name
  {
    assert namespace + "/" + name == namespace + ['/'] + name;
    PurlDerivation.PastLastAt(namespace, '/', name);
    assert PastLast(name, '/') == 0;
  }

  /** Two names agree as they are, or one or both without their namespace. */
  predicate NamesAgree(a: string, b: string) {
    a == b || LastSegment(a) == b || a == LastSegment(b) || LastSegment(a) == LastSegment(b)
  }

  /** Which entries are about a component: of its ecosystem, a generic one or none, where Debian and
      deb are one; and with its package URL up to version and letter case, or, unless both have a
      package URL, with its name. */
  lemma ConsideredExactly(c: Component, a: Affected)
    ensures var eco := Lower(a.package.ecosystem.GetOr(""));
            var mine := Lower(c.ecosystem.GetOr(""));
            var name := Strip(Lower(if c.normalizedName.GetOr("") != "" then c.normalizedName.value else c.rawName));
            Considered(c, a) <==>
              && (eco == "" || eco == "generic" || eco == mine || {eco, mine} == {"deb", "debian"})
              && (if a.package.purl.GetOr("") != "" && c.purl.GetOr("") != "" then
                    && PurlDerivation.StripIdentity(c.purl.value) == PurlDerivation.StripIdentity(a.package.purl.value)
                    && PurlDerivation.StripIdentity(c.purl.value) != ""
                  else
                    a.package.name.GetOr("") != "" && NamesAgree(name, Strip(Lower(a.package.name.value))))
  {
    EcosystemExactly(c, a.package);
    NameExactly(ComponentName(c), Strip(Lower(a.package.name.GetOr(""))));
  }

  lemma NameExactly(a: string, b: string)
    ensures NameForms(a) * NameForms(b) != {} <==> NamesAgree(a, b)
  {
    var both := NameForms(a) * NameForms(b);
    if NamesAgree(a, b) {
      assert a in both || LastSegment(a) in both;
    } else {
      assert both == {};
    }
  }

  lemma EcosystemExactly(c: Component, p: Package)
    ensures var eco, mine := Lower(p.ecosystem.GetOr("")), Lower(c.ecosystem.GetOr(""));
            EcosystemCompatible(c, p) <==>
              eco == "" || eco == "generic" || eco == mine || {eco, mine} == {"deb", "debian"}
  {
    var eco, mine := Lower(p.ecosystem.GetOr("")), Lower(c.ecosystem.GetOr(""));
    assert Given(p.ecosystem) ==> |eco| == |p.ecosystem.value|;
    assert Given(c.ecosystem) ==> |mine| == |c.ecosystem.value|;
    assert {eco, mine} == {"deb", "debian"} <==> (eco == "deb" && mine == "debian") || (eco == "debian" && mine == "deb") by {
      if {eco, mine} == {"deb", "debian"} {
        assert "deb" in {eco, mine} && "debian" in {eco, mine};
      }
    }
  }

  /** The ecosystems whose versions are compared at all. */
  lemma SupportedExactly(ecosystem: Option<string>)
    ensures SupportsEcosystem(NormalizeEcosystem(ecosystem)) <==>
            Lower(ecosystem.GetOr("")) in {"pypi", "deb", "debian", "maven", "npm", "golang", "generic"}
  {
    if Given(ecosystem) {
      LowerTwice(ecosystem.value);
      assert Lower("deb") == "deb";
      assert |Lower(ecosystem.value)| == |ecosystem.value|;
    }
  }

  lemma LowerTwice(s: string)
    ensures Lower(Lower(s)) == Lower(s)
  {}

  /** Evidence overrides inspection, in this order: the scanner, VEX, an unsupported ecosystem; and what
      nothing settles stays a candidate, or is corroborated by a second signal beside a CPE. */
  lemma VerdictOrder(cmp: Compare, c: Component, adv: Advisory, second: bool, scanner: bool, vex: Option<string>)
    ensures var v := Judge(cmp, c, adv, second, scanner, vex);
            var hasPurl, hasCpe := c.purl.GetOr("") != "", c.cpe.GetOr("") != "";
            var versioned := hasPurl && c.rawVersion.GetOr("") != "";
            var supported := Lower(c.ecosystem.GetOr("")) in {"pypi", "deb", "debian", "maven", "npm", "golang", "generic"};
            && (v.matchClass == Confirmed <==> scanner || vex == Some("affected"))
            && (scanner ==> v.confidence == 0.99)
            && (!scanner && vex == Some("affected") ==> v.confidence == 0.98)
            && (!scanner && vex == Some("not_affected") ==> v.matchClass == NotAffected && v.confidence == 0.95)
            && (!scanner && vex !in {Some("affected"), Some("not_affected")} ==>
                  && (v.matchClass in {Deterministic, NotAffected} ==> versioned && supported)
                  && (v.matchClass == Deterministic ==> v.confidence == 0.93)
                  && (v.matchClass == NotAffected ==> v.confidence == 0.85)
                  && (versioned && !supported ==> v.matchClass == Candidate && v.confidence == 0.4)
                  && (v.matchClass == Corroborated <==> !hasPurl && hasCpe && second)
                  && (v.matchClass == Corroborated ==> v.confidence == 0.65)
                  && (!hasPurl && hasCpe && !second ==> v.confidence == 0.35)
                  && (!hasPurl && !hasCpe ==> v.confidence == 0.3)
                  && (hasPurl && v.matchClass == Candidate ==> v.confidence == 0.4))
  {
    SupportedExactly(c.ecosystem);
  }
}
