/**
 * From an OSV document to the advisory the matcher sees: the adapter flattens every range of every
 * affected entry into one row, the orchestrator turns each row back into an entry of one range.
 */
module Normalisation {
  import opened Domain
  import opened Matching
  import opened Text
  import PurlDerivation

  /** One row of an advisory record's `affected_ranges`. */
  datatype FlatRange = FlatRange(
    ecosystem: Option<string>,
    purl: Option<string>,
    kind: Option<string>,
    introduced: Option<string>,
    fixed: Option<string>)

  function Flatten(p: Package, r: Range): FlatRange {
    var b := BoundsOf(r.events);
    FlatRange(p.ecosystem, p.purl, r.kind, b.introduced, b.fixed)
  }

  function FlattenEntry(a: Affected): seq<FlatRange> {
    seq(|a.ranges|, i requires 0 <= i < |a.ranges| => Flatten(a.package, a.ranges[i]))
  }

  function FlattenAll(affected: seq<Affected>): seq<FlatRange> {
    if affected == [] then []
    else FlattenAll(affected[..|affected| - 1]) + FlattenEntry(affected[|affected| - 1])
  }

  /** The adapter's nested loops. */
  method FlattenAffected(affected: seq<Affected>) returns (rows: seq<FlatRange>)
    ensures rows == FlattenAll(affected)
  {
    rows := [];
    for i := 0 to |affected|
      invariant rows == FlattenAll(affected[..i])
    {
      var a := affected[i];
      ghost var before := rows;
      for j := 0 to |a.ranges|
        invariant rows == before + FlattenEntry(a)[..j]
      {
        var b := CollectBounds(a.ranges[j].events);
        rows := rows + [FlatRange(a.package.ecosystem, a.package.purl, a.ranges[j].kind, b.introduced, b.fixed)];
      }
      assert FlattenEntry(a)[..|a.ranges|] == FlattenEntry(a);
      assert affected[..i + 1][..i] == affected[..i];
    }
    assert affected[..|affected|] == affected;
  }

  predicate Usable(row: FlatRange) {
    Given(row.introduced) || Given(row.fixed)
  }

  function EventsOf(row: FlatRange): seq<Event> {
    (if Given(row.introduced) then [Event(row.introduced, None, None)] else [])
    + (if Given(row.fixed) then [Event(None, row.fixed, None)] else [])
  }

  function EntryOf(row: FlatRange): Affected {
    Affected(
      Package(row.ecosystem, row.purl, None),
      [Range(Some(if Given(row.kind) then row.kind.value else "ECOSYSTEM"), EventsOf(row))],
      [])
  }

  function EntriesOf(rows: seq<FlatRange>): seq<Affected> {
    if rows == [] then []
    else
      EntriesOf(rows[..|rows| - 1]) + if Usable(rows[|rows| - 1]) then [EntryOf(rows[|rows| - 1])] else []
  }

  /** The orchestrator's loop: rows without any bound are dropped. */
  method AdvisoryFromRecord(id: string, aliases: seq<string>, rows: seq<FlatRange>) returns (adv: Advisory)
    ensures adv == Advisory(id, aliases, EntriesOf(rows))
  {
    var affected := [];
    for i := 0 to |rows|
      invariant affected == EntriesOf(rows[..i])
    {
      assert rows[..i + 1][..i] == rows[..i];
      var events := [];
      if Given(rows[i].introduced) { events := events + [Event(rows[i].introduced, None, None)]; }
      if Given(rows[i].fixed) { events := events + [Event(None, rows[i].fixed, None)]; }
      assert events == EventsOf(rows[i]);
      if events == [] { continue; }
      affected := affected + [EntryOf(rows[i])];
    }
    assert rows[..|rows|] == rows;
    adv := Advisory(id, aliases, affected);
  }

  /** The advisory the matcher is given for an OSV document. */
  function Normalise(doc: Advisory): Advisory {
    Advisory(doc.id, doc.aliases, EntriesOf(FlattenAll(doc.affected)))
  }

  // -- what the normalised advisory contains ------------------------------------------------------

  ghost predicate Stems(e: Affected, a: Affected) {
    exists r :: r in a.ranges && Usable(Flatten(a.package, r)) && e == EntryOf(Flatten(a.package, r))
  }

  lemma {:induction false} FlattenAllRows(affected: seq<Affected>, row: FlatRange)
    ensures row in FlattenAll(affected) <==> exists a, r :: a in affected && r in a.ranges && row == Flatten(a.package, r)
  {
    if affected != [] {
      var init, last := affected[..|affected| - 1], affected[|affected| - 1];
      FlattenAllRows(init, row);
      assert affected == init + [last];
      if row in FlattenEntry(last) {
        var i :| 0 <= i < |FlattenEntry(last)| && FlattenEntry(last)[i] == row;
        assert last.ranges[i] in last.ranges;
      }
      forall r | r in last.ranges && row == Flatten(last.package, r) ensures row in FlattenEntry(last) {
        var i :| 0 <= i < |last.ranges| && last.ranges[i] == r;
        assert FlattenEntry(last)[i] == row;
      }
    }
  }

  lemma {:induction false} EntriesOfRows(rows: seq<FlatRange>, e: Affected)
    ensures e in EntriesOf(rows) <==> exists row :: row in rows && Usable(row) && e == EntryOf(row)
  {
    if rows != [] {
      EntriesOfRows(rows[..|rows| - 1], e);
      assert rows == rows[..|rows| - 1] + [rows[|rows| - 1]];
    }
  }

  /** An entry of the normalised advisory is exactly one usable range of one original entry. */
  lemma NormalisedEntries(doc: Advisory, e: Affected)
    ensures e in Normalise(doc).affected <==> exists a :: a in doc.affected && Stems(e, a)
  {
    var rows := FlattenAll(doc.affected);
    EntriesOfRows(rows, e);
    if e in Normalise(doc).affected {
      var row :| row in rows && Usable(row) && e == EntryOf(row);
      FlattenAllRows(doc.affected, row);
      var a, r :| a in doc.affected && r in a.ranges && row == Flatten(a.package, r);
      assert Stems(e, a);
    }
    forall a | a in doc.affected && Stems(e, a) ensures e in Normalise(doc).affected {
      var r :| r in a.ranges && Usable(Flatten(a.package, r)) && e == EntryOf(Flatten(a.package, r));
      FlattenAllRows(doc.affected, Flatten(a.package, r));
    }
  }

  lemma BoundsOfOne(e: Event)
    ensures BoundsOf([e]) == Bounds(e.introduced, e.fixed, e.lastAffected)
  {
    assert [e][..0] == [];
  }

  /** Reading a row's events back gives its bounds, up to the truthiness the range test looks at. */
  lemma EventsReadBack(cmp: Compare, version: string, row: FlatRange)
    ensures RangeContains(cmp, version, EntryOf(row).ranges[0])
            <==> VersionInRange(cmp, version, row.introduced, row.fixed, None)
  {
    var es := EventsOf(row);
    if |es| == 2 {
      assert es[..1] == [es[0]];
      BoundsOfOne(es[0]);
    } else if |es| == 1 {
      assert es == [es[0]];
      BoundsOfOne(es[0]);
    }
  }

  // -- exactly when the verdict survives ----------------------------------------------------------

  lemma StemConsidered(c: Component, a: Affected, e: Affected)
    requires Given(c.purl) && Stems(e, a)
    ensures Considered(c, e) ==> Considered(c, a)
    ensures Given(a.package.purl) ==> (Considered(c, e) <==> Considered(c, a))
  {}

  /** The range belongs to an entry about the component and is still about it once flattened. */
  predicate Survives(c: Component, a: Affected, r: Range) {
    r in a.ranges && Given(a.package.purl) && Considered(c, a) && Usable(Flatten(a.package, r))
  }

  /** The range as flattened, without its `lastAffected`. */
  predicate Reaches(cmp: Compare, version: string, r: Range) {
    var b := BoundsOf(r.events);
    VersionInRange(cmp, version, b.introduced, b.fixed, None)
  }

  ghost predicate SomeRangeSurvives(c: Component, doc: Advisory) {
    exists a, r :: a in doc.affected && Survives(c, a, r)
  }

  ghost predicate SomeRangeReaches(cmp: Compare, c: Component, version: string, doc: Advisory) {
    exists a, r :: a in doc.affected && Survives(c, a, r) && Reaches(cmp, version, r)
  }

  lemma SurvivorToStem(cmp: Compare, c: Component, version: string, doc: Advisory, a: Affected, r: Range)
    requires Given(c.purl) && a in doc.affected && Survives(c, a, r)
    ensures SomeEntryConsidered(c, Normalise(doc).affected)
    ensures Reaches(cmp, version, r) ==> SomeEntryContains(cmp, c, version, Normalise(doc).affected)
  {
    var e := EntryOf(Flatten(a.package, r));
    assert Stems(e, a);
    NormalisedEntries(doc, e);
    StemConsidered(c, a, e);
    EventsReadBack(cmp, version, Flatten(a.package, r));
    assert e.ranges[0] in e.ranges;
  }

  lemma StemToSurvivor(cmp: Compare, c: Component, version: string, doc: Advisory, e: Affected)
    requires Given(c.purl) && e in Normalise(doc).affected && Considered(c, e)
    ensures SomeRangeSurvives(c, doc)
    ensures EntryContains(cmp, version, e) ==> SomeRangeReaches(cmp, c, version, doc)
  {
    NormalisedEntries(doc, e);
    var a :| a in doc.affected && Stems(e, a);
    var r :| r in a.ranges && Usable(Flatten(a.package, r)) && e == EntryOf(Flatten(a.package, r));
    StemConsidered(c, a, e);
    assert Survives(c, a, r);
    EventsReadBack(cmp, version, Flatten(a.package, r));
  }

  /** What the matcher finds in the normalised advisory, read off the original document. */
  lemma NormalisedFacts(cmp: Compare, c: Component, version: string, doc: Advisory)
    requires Given(c.purl)
    ensures SomeEntryConsidered(c, Normalise(doc).affected) <==> SomeRangeSurvives(c, doc)
    ensures SomeEntryContains(cmp, c, version, Normalise(doc).affected) <==> SomeRangeReaches(cmp, c, version, doc)
  {
    forall a, r | a in doc.affected && Survives(c, a, r)
      ensures SomeEntryConsidered(c, Normalise(doc).affected)
      ensures Reaches(cmp, version, r) ==> SomeEntryContains(cmp, c, version, Normalise(doc).affected)
    {
      SurvivorToStem(cmp, c, version, doc, a, r);
    }
    forall e | e in Normalise(doc).affected && Considered(c, e)
      ensures SomeRangeSurvives(c, doc)
      ensures EntryContains(cmp, version, e) ==> SomeRangeReaches(cmp, c, version, doc)
    {
      StemToSurvivor(cmp, c, version, doc, e);
    }
  }

  lemma {:induction false} NormalisedCarry(rows: seq<FlatRange>)
    ensures forall e :: e in EntriesOf(rows) ==> e.ranges != []
  {
    if rows != [] {
      NormalisedCarry(rows[..|rows| - 1]);
    }
  }

  /**
   * Exactly when flattening a document keeps the verdict on a versioned package that neither scanner
   * nor VEX settles: an affected component is still reached by a surviving range, an unaffected one
   * is reached by none, and it was known to the document exactly if a range about it survives.
   */
  lemma PreservedExactly(cmp: Compare, c: Component, doc: Advisory, second: bool, vex: Option<string>)
    requires vex !in {Some("affected"), Some("not_affected")}
    requires Given(c.purl) && Given(c.rawVersion) && SupportsEcosystem(NormalizeEcosystem(c.ecosystem))
    ensures Judge(cmp, c, Normalise(doc), second, false, vex) == Judge(cmp, c, doc, second, false, vex) <==>
            if SomeEntryContains(cmp, c, c.rawVersion.value, doc.affected)
            then SomeRangeReaches(cmp, c, c.rawVersion.value, doc)
            else
              && !SomeRangeReaches(cmp, c, c.rawVersion.value, doc)
              && (SomeEntryConsidered(c, doc.affected) && SomeEntryCarriesVersions(doc.affected)
                  <==> SomeRangeSurvives(c, doc))
  {
    var norm := Normalise(doc).affected;
    NormalisedFacts(cmp, c, c.rawVersion.value, doc);
    NormalisedCarry(FlattenAll(doc.affected));
    assert SomeEntryConsidered(c, norm) ==> SomeEntryCarriesVersions(norm);
    assert SomeEntryContains(cmp, c, c.rawVersion.value, norm) ==> SomeEntryConsidered(c, norm);
    assert LaterStages(c, second).matchClass == Candidate;
  }

  // -- preservation -------------------------------------------------------------------------------

  /** The entries for which nothing the flattening drops is present. */
  predicate Flattenable(a: Affected) {
    && Given(a.package.purl)
    && a.ranges != []
    && a.versions == []
    && forall r :: r in a.ranges ==>
         && Usable(Flatten(a.package, r))
         && !Given(BoundsOf(r.events).lastAffected)
  }

  /** A flattenable entry contains a version exactly when one of its surviving ranges reaches it. */
  lemma FlattenableContains(cmp: Compare, c: Component, version: string, a: Affected)
    requires Considered(c, a) && Flattenable(a)
    ensures exists r :: Survives(c, a, r)
    ensures EntryContains(cmp, version, a) <==> exists r :: Survives(c, a, r) && Reaches(cmp, version, r)
  {
    assert Survives(c, a, a.ranges[0]);
    if EntryContains(cmp, version, a) {
      var r :| r in a.ranges && RangeContains(cmp, version, r);
      assert Survives(c, a, r) && Reaches(cmp, version, r);
    }
    forall r | Survives(c, a, r) && Reaches(cmp, version, r) ensures RangeContains(cmp, version, r) {}
  }

  /**
   * Normalisation preserves the verdict. Only the entries about the component itself must be
   * flattenable; entries about other packages may carry anything.
   */
  lemma VerdictPreserved(cmp: Compare, c: Component, doc: Advisory, second: bool, scanner: bool, vex: Option<string>)
    requires forall a :: a in doc.affected && Considered(c, a) ==> Flattenable(a)
    ensures Judge(cmp, c, Normalise(doc), second, scanner, vex) == Judge(cmp, c, doc, second, scanner, vex)
  {
    if Given(c.purl) {
      var v := c.rawVersion.GetOr("");
      NormalisedFacts(cmp, c, v, doc);
      NormalisedCarry(FlattenAll(doc.affected));
      forall a | a in doc.affected && Considered(c, a)
        ensures exists r :: Survives(c, a, r)
        ensures EntryContains(cmp, v, a) <==> exists r :: Survives(c, a, r) && Reaches(cmp, v, r)
        ensures a.ranges != []
      {
        FlattenableContains(cmp, c, v, a);
      }
      SameScanSameVerdict(cmp, c, doc, Normalise(doc), second, scanner, vex);
    }
  }

  lemma SameScanSameVerdict(cmp: Compare, c: Component, x: Advisory, y: Advisory, second: bool, scanner: bool,
                            vex: Option<string>)
    requires SomeEntryContains(cmp, c, c.rawVersion.GetOr(""), x.affected)
             <==> SomeEntryContains(cmp, c, c.rawVersion.GetOr(""), y.affected)
    requires SomeEntryConsidered(c, x.affected) <==> SomeEntryConsidered(c, y.affected)
    requires SomeEntryConsidered(c, x.affected) ==>
               SomeEntryCarriesVersions(x.affected) && SomeEntryCarriesVersions(y.affected)
    ensures Judge(cmp, c, x, second, scanner, vex) == Judge(cmp, c, y, second, scanner, vex)
  {}

  // -- every condition is needed ------------------------------------------------------------------

  /** The verdict of an advisory with a single entry about the component. */
  lemma SoleEntry(cmp: Compare, c: Component, doc: Advisory, a: Affected)
    requires Given(c.purl) && Given(c.rawVersion) && SupportsEcosystem(NormalizeEcosystem(c.ecosystem))
    requires doc.affected == [a] && Considered(c, a) && (a.ranges != [] || a.versions != [])
    ensures Judge(cmp, c, doc, false, false, None).matchClass ==
            if EntryContains(cmp, c.rawVersion.value, a) then Deterministic else NotAffected
  {
    PackageVerdict(cmp, c, doc, false, None);
    assert a in doc.affected;
  }

  lemma NothingConsidered(cmp: Compare, c: Component, doc: Advisory)
    requires Given(c.purl) && Given(c.rawVersion) && SupportsEcosystem(NormalizeEcosystem(c.ecosystem))
    requires !SomeEntryConsidered(c, doc.affected)
    ensures Judge(cmp, c, doc, false, false, None).matchClass == Candidate
  {
    PackageVerdict(cmp, c, doc, false, None);
  }

  function NameOf(c: Component): string {
    if Given(c.normalizedName) then c.normalizedName.value else c.rawName
  }

  /** An advisory about exactly the package of `c`, by package URL unless `byName`. */
  function AboutComponent(c: Component, byName: bool, ranges: seq<Range>, versions: seq<string>): Advisory {
    var package := if byName then Package(None, None, Some(NameOf(c))) else Package(None, c.purl, None);
    Advisory("CVE", [], [Affected(package, ranges, versions)])
  }

  lemma AboutConsidered(c: Component, byName: bool, ranges: seq<Range>, versions: seq<string>)
    requires Given(c.purl) && PurlDerivation.StripIdentity(c.purl.value) != ""
    requires byName ==> NameOf(c) != ""
    ensures Considered(c, AboutComponent(c, byName, ranges, versions).affected[0])
  {
    var n := ComponentName(c);
    assert n in NameForms(n) * NameForms(n);
  }

  lemma FlattenSingle(a: Affected, r: Range)
    requires a.ranges == [r]
    ensures FlattenAll([a]) == [Flatten(a.package, r)]
  {
    assert [a][..0] == [];
    assert FlattenAll([a]) == FlattenAll([]) + FlattenEntry(a);
  }

  lemma EntriesOfSingle(row: FlatRange)
    ensures EntriesOf([row]) == if Usable(row) then [EntryOf(row)] else []
  {
    assert [row][..0] == [];
    assert EntriesOf([row]) == EntriesOf([]) + if Usable(row) then [EntryOf(row)] else [];
  }

  lemma SoleRangeNormalised(c: Component, r: Range, versions: seq<string>)
    ensures var p := Package(None, c.purl, None);
            Normalise(AboutComponent(c, false, [r], versions)).affected ==
            if Usable(Flatten(p, r)) then [EntryOf(Flatten(p, r))] else []
  {
    var a := AboutComponent(c, false, [r], versions).affected[0];
    FlattenSingle(a, r);
    EntriesOfSingle(Flatten(a.package, r));
  }

  /** A versioned package component the package stage can settle. */
  predicate Settleable(c: Component) {
    && Given(c.purl) && Given(c.rawVersion) && SupportsEcosystem(NormalizeEcosystem(c.ecosystem))
    && PurlDerivation.StripIdentity(c.purl.value) != ""
  }

  /** Dropped name, dropped unbounded range. */
  lemma LostEntry(cmp: Compare, c: Component, byName: bool, ranges: seq<Range>, versions: seq<string>)
    requires Settleable(c) && (byName ==> NameOf(c) != "")
    requires byName || forall r :: r in ranges ==> !Usable(Flatten(Package(None, c.purl, None), r))
    requires EntryContains(cmp, c.rawVersion.value, AboutComponent(c, byName, ranges, versions).affected[0])
    ensures var doc := AboutComponent(c, byName, ranges, versions);
            && Judge(cmp, c, doc, false, false, None).matchClass == Deterministic
            && Judge(cmp, c, Normalise(doc), false, false, None).matchClass == Candidate
  {
    var doc := AboutComponent(c, byName, ranges, versions);
    AboutConsidered(c, byName, ranges, versions);
    SoleEntry(cmp, c, doc, doc.affected[0]);
    forall e ensures e in Normalise(doc).affected ==> !Considered(c, e) {
      NormalisedEntries(doc, e);
    }
    NothingConsidered(cmp, c, Normalise(doc));
  }

  /** Dropped versions, dropped `lastAffected`. */
  lemma ChangedEntry(cmp: Compare, c: Component, r: Range, versions: seq<string>)
    requires Settleable(c) && Usable(Flatten(Package(None, c.purl, None), r))
    ensures var doc, b := AboutComponent(c, false, [r], versions), BoundsOf(r.events);
            && Judge(cmp, c, doc, false, false, None).matchClass ==
               (if RangeContains(cmp, c.rawVersion.value, r) || c.rawVersion.value in versions
                then Deterministic else NotAffected)
            && Judge(cmp, c, Normalise(doc), false, false, None).matchClass ==
               (if VersionInRange(cmp, c.rawVersion.value, b.introduced, b.fixed, None)
                then Deterministic else NotAffected)
  {
    var doc := AboutComponent(c, false, [r], versions);
    var a := doc.affected[0];
    var e := EntryOf(Flatten(a.package, r));
    AboutConsidered(c, false, [r], versions);
    SoleEntry(cmp, c, doc, a);
    SoleRangeNormalised(c, r, versions);
    EventsReadBack(cmp, c.rawVersion.value, Flatten(a.package, r));
    assert Stems(e, a) by { assert r in a.ranges; }
    StemConsidered(c, a, e);
    assert e.ranges == [e.ranges[0]];
    SoleEntry(cmp, c, Normalise(doc), e);
  }

  /** An empty entry about the component beside an anonymous entry that carries a range. */
  lemma LostEmptyEntry(cmp: Compare, c: Component, doc: Advisory, anonymous: Affected)
    requires Settleable(c)
    requires doc.affected == AboutComponent(c, false, [], []).affected + [anonymous]
    requires anonymous.package == Package(None, None, None) && anonymous.ranges != []
    ensures !Considered(c, anonymous)
    ensures Judge(cmp, c, doc, false, false, None).matchClass == NotAffected
    ensures Judge(cmp, c, Normalise(doc), false, false, None).matchClass == Candidate
  {
    var a := doc.affected[0];
    AboutConsidered(c, false, [], []);
    PackageVerdict(cmp, c, doc, false, None);
    assert a in doc.affected && anonymous in doc.affected;
    forall e ensures e in Normalise(doc).affected ==> !Considered(c, e) {
      NormalisedEntries(doc, e);
    }
    NothingConsidered(cmp, c, Normalise(doc));
  }

  /**
   * Every clause of `Flattenable` is needed, whatever the version comparison: for every settleable
   * component and every clause there is an advisory whose entries about the component satisfy all the
   * other clauses, and whose verdict the flattening changes. The clause on purls needs a component
   * with a name, the one on versions a comparison under which a version equals itself, the one on
   * `lastAffected` some version `older` than the component's.
   */
  lemma EachClauseNeeded(cmp: Compare, c: Component, which: nat, older: string) returns (doc: Advisory)
    requires which < 5 && Settleable(c)
    requires which == 0 ==> NameOf(c) != ""
    requires which == 2 ==> cmp(c.rawVersion.value, c.rawVersion.value) == 0
    requires which == 4 ==> older != "" && cmp(c.rawVersion.value, older) > 0
    ensures Judge(cmp, c, Normalise(doc), false, false, None) != Judge(cmp, c, doc, false, false, None)
    ensures forall a :: a in doc.affected && Considered(c, a) ==>
              && (which != 0 ==> Given(a.package.purl))
              && (which != 1 ==> a.ranges != [])
              && (which != 2 ==> a.versions == [])
              && (which != 3 ==> forall r :: r in a.ranges ==> Usable(Flatten(a.package, r)))
              && (which != 4 ==> forall r :: r in a.ranges ==> !Given(BoundsOf(r.events).lastAffected))
  {
    if which == 0 || which == 3 {
      doc := LostExample(cmp, c, which == 0);
    } else if which == 1 {
      doc := EmptyExample(cmp, c);
    } else if which == 2 {
      doc := VersionsExample(cmp, c);
    } else {
      doc := LastAffectedExample(cmp, c, older);
    }
  }

  /** A range of one event. */
  function Only(e: Event): Range {
    Range(None, [e])
  }

  lemma LostExample(cmp: Compare, c: Component, byName: bool) returns (doc: Advisory)
    requires Settleable(c) && (byName ==> NameOf(c) != "")
    ensures Judge(cmp, c, Normalise(doc), false, false, None) != Judge(cmp, c, doc, false, false, None)
    ensures forall a :: a in doc.affected ==>
              && (if byName then forall r :: r in a.ranges ==> Usable(Flatten(a.package, r)) else Given(a.package.purl))
              && a.ranges != [] && a.versions == []
              && forall r :: r in a.ranges ==> !Given(BoundsOf(r.events).lastAffected)
  {
    var event := if byName then Event(Some("0"), None, None) else Event(None, None, None);
    BoundsOfOne(event);
    var r := Only(event);
    assert r in [r] && RangeContains(cmp, c.rawVersion.value, r);
    doc := AboutComponent(c, byName, [r], []);
    LostEntry(cmp, c, byName, [r], []);
  }

  lemma EmptyExample(cmp: Compare, c: Component) returns (doc: Advisory)
    requires Settleable(c)
    ensures Judge(cmp, c, Normalise(doc), false, false, None) != Judge(cmp, c, doc, false, false, None)
    ensures forall a :: a in doc.affected && Considered(c, a) ==> Given(a.package.purl) && a.ranges == [] && a.versions == []
  {
    var anonymous := Affected(Package(None, None, None), [Only(Event(Some("0"), None, None))], []);
    var empty := AboutComponent(c, false, [], []);
    doc := empty.(affected := empty.affected + [anonymous]);
    LostEmptyEntry(cmp, c, doc, anonymous);
  }

  /** The component's own version is listed as affected and is where the range ends. */
  lemma VersionsExample(cmp: Compare, c: Component) returns (doc: Advisory)
    requires Settleable(c) && cmp(c.rawVersion.value, c.rawVersion.value) == 0
    ensures Judge(cmp, c, Normalise(doc), false, false, None) != Judge(cmp, c, doc, false, false, None)
    ensures forall a :: a in doc.affected ==>
              && Given(a.package.purl) && a.ranges != []
              && forall r :: r in a.ranges ==> Usable(Flatten(a.package, r)) && !Given(BoundsOf(r.events).lastAffected)
  {
    var event := Event(None, c.rawVersion, None);
    BoundsOfOne(event);
    doc := AboutComponent(c, false, [Only(event)], [c.rawVersion.value]);
    ChangedEntry(cmp, c, Only(event), [c.rawVersion.value]);
  }

  /** The range ends with an older version. */
  lemma LastAffectedExample(cmp: Compare, c: Component, older: string) returns (doc: Advisory)
    requires Settleable(c) && older != "" && cmp(c.rawVersion.value, older) > 0
    ensures Judge(cmp, c, Normalise(doc), false, false, None) != Judge(cmp, c, doc, false, false, None)
    ensures forall a :: a in doc.affected ==>
              && Given(a.package.purl) && a.ranges != [] && a.versions == []
              && forall r :: r in a.ranges ==> Usable(Flatten(a.package, r))
  {
    var event := Event(Some("0"), None, Some(older));
    BoundsOfOne(event);
    doc := AboutComponent(c, false, [Only(event)], []);
    ChangedEntry(cmp, c, Only(event), []);
  }
}
