/**
 * The three evidence handlers, as plans: which exposures an event asks for, given the answers of the
 * OSV, VEX, KEV and EPSS feeds. `None` is a handler that raises before writing anything.
 */
module Handlers {
  import opened Domain
  import opened Text
  import opened Matching
  import opened Exposures
  import Normalisation
  import opened Cases
  import PurlDerivation
  import RiskPolicy

  datatype Occurrence = Occurrence(id: string, component: Component, assetId: Option<string>)

  datatype OutboxEvent =
    | SbomProcessed(sbomId: string, organization: string)
    | DefectDojoIngested(findingId: string, ambiguous: bool, cve: Option<string>, organization: string,
                         purl: Option<string>, componentName: Option<string>, componentVersion: Option<string>,
                         verified: bool, assetId: Option<string>, jiraKey: Option<string>)
    | WazuhIngested(agentId: string, cve: Option<string>, organization: string, purl: Option<string>,
                    name: Option<string>, version: Option<string>, derived: bool, assetId: Option<string>)
    /** Any event type without a registered handler. */
    | Unhandled(eventType: string)

  predicate Handled(e: OutboxEvent) {
    !e.Unhandled?
  }

  /** The answers of everything outside the database; `osv` is `None` when the query fails. */
  datatype World = World(
    osv: (string, Option<string>) -> Option<seq<Advisory>>,
    vex: string -> Option<string>,
    enrich: string -> RiskPolicy.Enrichment,
    occurrences: string -> seq<Occurrence>,
    compare: Compare)

  const POLICY_VERSION: string := "risk-2026-09-01"

  /** One component's query: the bare package URL with the version beside it. */
  function Query(w: World, purl: string, version: Option<string>): Option<seq<Advisory>> {
    w.osv(PurlDerivation.StripVersion(purl), if Given(version) then version else None)
  }

  function TaskOf(w: World, key: Key, assetId: Option<string>, v: Verdict, reference: nat, wantsCase: bool,
                  ticket: Option<string>): Task {
    Task(key, assetId, v.limitations, v.matchClass, v.confidence, v.matchedRules,
         RiskPolicy.PriorityFor(w.enrich(key.vulnerability), v.matchClass, v.confidence),
         POLICY_VERSION, reference, wantsCase, ticket)
  }

  // -- SBOM ---------------------------------------------------------------------------------------

  /** Only an occurrence with a package URL and a version is looked up. */
  predicate Queryable(o: Occurrence) {
    Given(o.component.purl) && Given(o.component.rawVersion)
  }

  function Answer(w: World, o: Occurrence): Option<seq<Advisory>> {
    Query(w, o.component.purl.GetOr(""), o.component.rawVersion)
  }

  function OccurrenceTask(w: World, id: nat, e: OutboxEvent, o: Occurrence, doc: Advisory): Task
    requires e.SbomProcessed?
  {
    var v := Judge(w.compare, o.component, Normalisation.Normalise(doc), false, false, w.vex(doc.id));
    TaskOf(w, Key(e.organization, doc.id, "sbom:" + e.sbomId, Some(o.id)), o.assetId, v, id, true, None)
  }

  function DocTasks(w: World, id: nat, e: OutboxEvent, o: Occurrence, docs: seq<Advisory>): seq<Task>
    requires e.SbomProcessed?
  {
    seq(|docs|, i requires 0 <= i < |docs| => OccurrenceTask(w, id, e, o, docs[i]))
  }

  /** A failed query leaves its component without advisories. */
  function TasksFor(w: World, id: nat, e: OutboxEvent, o: Occurrence): seq<Task>
    requires e.SbomProcessed?
  {
    if Queryable(o) then DocTasks(w, id, e, o, Answer(w, o).GetOr([])) else []
  }

  function Flat<T>(parts: seq<seq<T>>): seq<T> {
    if parts == [] then [] else Flat(parts[..|parts| - 1]) + parts[|parts| - 1]
  }

  function Parts(w: World, id: nat, e: OutboxEvent, occurrences: seq<Occurrence>): seq<seq<Task>>
    requires e.SbomProcessed?
  {
    seq(|occurrences|, i requires 0 <= i < |occurrences| => TasksFor(w, id, e, occurrences[i]))
  }

  function SbomTasks(w: World, id: nat, e: OutboxEvent, occurrences: seq<Occurrence>): seq<Task>
    requires e.SbomProcessed?
  {
    Flat(Parts(w, id, e, occurrences))
  }

  // -- single findings ----------------------------------------------------------------------------

  predicate NamesCve(cve: Option<string>) {
    Given(cve) && cve.value != "unknown"
  }

  function FieldsComponent(name: Option<string>, version: Option<string>, purl: Option<string>): Component {
    var rawName := if Given(name) then name.value else "unknown";
    var ecosystem :=
      if Given(purl) && "pkg:" <= purl.value then Some(Lower(Before(purl.value[4..], '/'))) else None;
    Component(rawName, version, purl, ecosystem, Some(rawName), None)
  }

  function DojoVerdict(w: World, e: OutboxEvent, docs: seq<Advisory>): Verdict
    requires e.DefectDojoIngested? && NamesCve(e.cve)
  {
    var advisory := if docs == [] then Advisory(e.cve.value, [], []) else Normalisation.Normalise(docs[0]);
    Judge(w.compare, FieldsComponent(e.componentName, e.componentVersion, e.purl), advisory, false,
          e.verified, if e.verified then None else w.vex(e.cve.value))
  }

  function DojoTask(w: World, id: nat, e: OutboxEvent, docs: seq<Advisory>): Task
    requires e.DefectDojoIngested? && NamesCve(e.cve)
  {
    TaskOf(w, Key(e.organization, e.cve.value, "defectdojo:" + e.findingId, None), e.assetId,
           DojoVerdict(w, e, docs), id, Given(e.purl), if Given(e.jiraKey) then e.jiraKey else None)
  }

  predicate MatchesCve(doc: Advisory, cve: string) {
    Upper(doc.id) == Upper(cve) || exists a | a in doc.aliases :: Upper(a) == Upper(cve)
  }

  /** The first document whose id or alias is the reported CVE. */
  function SelectForCve(docs: seq<Advisory>, cve: string): (r: Option<Advisory>)
    ensures r.Some? ==>
              exists n :: 0 <= n < |docs| && docs[n] == r.value && MatchesCve(docs[n], cve)
                && forall m :: 0 <= m < n ==> !MatchesCve(docs[m], cve)
    ensures r.None? ==> forall d :: d in docs ==> !MatchesCve(d, cve)
  {
    if docs == [] then None
    else if MatchesCve(docs[0], cve) then
      assert docs[0] == docs[0];
      Some(docs[0])
    else
      var rest := SelectForCve(docs[1..], cve);
      assert forall n :: 0 < n < |docs| ==> docs[n] == docs[1..][n - 1];
      rest
  }

  const UNBOUND: string :=
    "osv lookup did not confirm the Wazuh CVE; package-version match alone is insufficient"

  function WazuhVerdict(w: World, e: OutboxEvent, bound: Option<Advisory>): Verdict
    requires e.WazuhIngested? && NamesCve(e.cve)
  {
    var advisory := match bound case None => Advisory(e.cve.value, [], []) case Some(doc) => Normalisation.Normalise(doc);
    var v := Judge(w.compare, FieldsComponent(e.name, e.version, e.purl), advisory, false, false, w.vex(e.cve.value));
    var noted := v.limitations +
      if !Given(e.purl) then ["package inventory without purl; review required"]
      else if e.derived then ["purl derived from Wazuh package metadata (best-effort)"]
      else [];
    if Given(e.purl) && bound.None? then
      if CaseClass(v.matchClass) then
        Verdict(Candidate, if v.confidence < 0.4 then v.confidence else 0.4, ["wazuh.osv-cve-unbound"], noted + [UNBOUND])
      else v.(limitations := noted + [UNBOUND])
    else v.(limitations := noted)
  }

  function WazuhTask(w: World, id: nat, e: OutboxEvent, docs: seq<Advisory>): Task
    requires e.WazuhIngested? && NamesCve(e.cve)
  {
    var bound := SelectForCve(docs, e.cve.value);
    TaskOf(w, Key(e.organization, e.cve.value, "wazuh:" + e.agentId, None), e.assetId,
           WazuhVerdict(w, e, bound), id, Given(e.purl) && bound.Some?, None)
  }

  /** What a handler does with its event. */
  function Plan(w: World, id: nat, e: OutboxEvent): Option<seq<Task>> {
    match e
    case Unhandled(_) => Some([])
    case SbomProcessed(sbomId, _) =>
      var occurrences := w.occurrences(sbomId);
      if && (exists o | o in occurrences :: Queryable(o))
         && (forall o | o in occurrences && Queryable(o) :: Answer(w, o).None?) then None
      else Some(SbomTasks(w, id, e, occurrences))
    case DefectDojoIngested(_, ambiguous, cve, _, purl, _, version, _, _, _) =>
      if ambiguous || !NamesCve(cve) then Some([])
      else if !Given(purl) then Some([DojoTask(w, id, e, [])])
      else (match Query(w, purl.value, version)
            case None => None
            case Some(docs) => Some([DojoTask(w, id, e, docs)]))
    case WazuhIngested(_, cve, _, purl, _, version, _, _) =>
      if !NamesCve(cve) then Some([])
      else if !Given(purl) then Some([WazuhTask(w, id, e, [])])
      else (match Query(w, purl.value, version)
            case None => None
            case Some(docs) => Some([WazuhTask(w, id, e, docs)]))
  }

  // -- what an event asks for ---------------------------------------------------------------------

  /** The task carries the verdict, and the priority of its class and confidence under the feeds. */
  predicate Carries(w: World, t: Task, v: Verdict) {
    && t.matchClass == v.matchClass && t.confidence == v.confidence
    && t.matchedRules == v.matchedRules && t.limitations == v.limitations
    && t.priority == RiskPolicy.PriorityFor(w.enrich(t.key.vulnerability), v.matchClass, v.confidence)
    && t.policyVersion == "risk-2026-09-01"
  }

  /** The task of one document about one occurrence of an SBOM. */
  predicate SbomTask(w: World, id: nat, e: OutboxEvent, o: Occurrence, doc: Advisory, t: Task)
    requires e.SbomProcessed?
  {
    && t.key == Key(e.organization, doc.id, "sbom:" + e.sbomId, Some(o.id))
    && t.assetId == o.assetId && t.reference == id && t.wantsCase && t.ticket == None
    && Carries(w, t, Judge(w.compare, o.component, Normalisation.Normalise(doc), false, false, w.vex(doc.id)))
  }

  /** The component has a package URL and a version. */
  predicate Identified(c: Component) {
    c.purl.GetOr("") != "" && c.rawVersion.GetOr("") != ""
  }

  /** OSV is asked for the bare package; an empty version is no version. */
  lemma QueryAsksBare(w: World, format: string, namespace: string, name: PurlDerivation.Octets,
                      version: PurlDerivation.Octets, arch: Option<PurlDerivation.Octets>, asked: Option<string>)
    requires PurlDerivation.Word(format) && PurlDerivation.Word(namespace) && name != []
    ensures Query(w, PurlDerivation.Print(format, namespace, name, version, arch), asked) ==
            w.osv("pkg:" + format + "/" + namespace + "/" + PurlDerivation.Quote(name, true),
                  if asked == Some("") then None else asked)
  {
    PurlDerivation.PrintRoundTrip(format, namespace, name, version, arch);
  }

  ghost predicate InOrder(at: seq<(int, int)>) {
    forall m, n :: 0 <= m < n < |at| ==> at[m].0 < at[n].0 || (at[m].0 == at[n].0 && at[m].1 < at[n].1)
  }

  predicate Within<T>(parts: seq<seq<T>>, i: int, j: int) {
    0 <= i < |parts| && 0 <= j < |parts[i]|
  }

  /** `at[n]` says which part the `n`th element comes from and where it stands there. */
  ghost predicate Locates<T>(parts: seq<seq<T>>, at: seq<(int, int)>) {
    && |at| == |Flat(parts)| && InOrder(at)
    && (forall n :: 0 <= n < |at| ==> Within(parts, at[n].0, at[n].1) && Flat(parts)[n] == parts[at[n].0][at[n].1])
    && (forall i, j :: Within(parts, i, j) ==> (i, j) in at)
  }

  /** A flat sequence holds every element of every part once, in order. */
  lemma {:induction false} FlatLocates<T>(parts: seq<seq<T>>) returns (at: seq<(int, int)>)
    ensures Locates(parts, at)
  {
    at := [];
    if parts != [] {
      var i := |parts| - 1;
      var init := FlatLocates(parts[..i]);
      var here := seq(|parts[i]|, j requires 0 <= j < |parts[i]| => (i, j));
      assert forall n :: 0 <= n < |init| ==> Within(parts[..i], init[n].0, init[n].1);
      at := init + here;
      forall k, j | Within(parts, k, j) ensures (k, j) in at {
        if k < i {
          assert Within(parts[..i], k, j);
        } else {
          assert here[j] == (k, j);
        }
      }
    }
  }

  /** Occurrence `i` is looked up, and document `j` is in the answer. */
  predicate Answers(w: World, occurrences: seq<Occurrence>, i: int, j: int) {
    && 0 <= i < |occurrences| && Identified(occurrences[i].component)
    && var c := occurrences[i].component;
       Query(w, c.purl.value, c.rawVersion).Some? && 0 <= j < |Query(w, c.purl.value, c.rawVersion).value|
  }

  /** The task of document `j` of the answer about occurrence `i`. */
  predicate TaskAt(w: World, id: nat, e: OutboxEvent, occurrences: seq<Occurrence>, i: int, j: int, t: Task)
    requires e.SbomProcessed?
  {
    && Answers(w, occurrences, i, j)
    && var o := occurrences[i];
       SbomTask(w, id, e, o, Query(w, o.component.purl.value, o.component.rawVersion).value[j], t)
  }

  /** `at[n]` says which occurrence and which document of its answer the `n`th task is about: all of
      them, each once, in the order of the occurrences and of the answers. */
  ghost predicate Enumerates(w: World, id: nat, e: OutboxEvent, occurrences: seq<Occurrence>, ts: seq<Task>,
                             at: seq<(int, int)>)
    requires e.SbomProcessed?
  {
    && |at| == |ts| && InOrder(at)
    && (forall n :: 0 <= n < |at| ==> TaskAt(w, id, e, occurrences, at[n].0, at[n].1, ts[n]))
    && (forall i, j :: Answers(w, occurrences, i, j) ==> (i, j) in at)
  }

  lemma WithinAnswers(w: World, id: nat, e: OutboxEvent, occurrences: seq<Occurrence>, i: int, j: int)
    requires e.SbomProcessed?
    ensures Within(Parts(w, id, e, occurrences), i, j) <==> Answers(w, occurrences, i, j)
  {}

  lemma PartTask(w: World, id: nat, e: OutboxEvent, occurrences: seq<Occurrence>, i: int, j: int)
    requires e.SbomProcessed? && Within(Parts(w, id, e, occurrences), i, j)
    ensures TaskAt(w, id, e, occurrences, i, j, Parts(w, id, e, occurrences)[i][j])
  {}

  lemma SbomTasksEnumerate(w: World, id: nat, e: OutboxEvent, occurrences: seq<Occurrence>) returns (at: seq<(int, int)>)
    requires e.SbomProcessed?
    ensures Enumerates(w, id, e, occurrences, SbomTasks(w, id, e, occurrences), at)
  {
    var parts, ts := Parts(w, id, e, occurrences), SbomTasks(w, id, e, occurrences);
    at := FlatLocates(parts);
    forall n | 0 <= n < |at| ensures TaskAt(w, id, e, occurrences, at[n].0, at[n].1, ts[n]) {
      PartTask(w, id, e, occurrences, at[n].0, at[n].1);
    }
    forall i, j | Answers(w, occurrences, i, j) ensures (i, j) in at {
      WithinAnswers(w, id, e, occurrences, i, j);
    }
  }

  /**
   * What a processed SBOM asks for. Its handler raises exactly when some occurrence has a package URL
   * and a version and OSV fails for all of these; otherwise there is exactly one task for each of them
   * and each document of its answer, in order.
   */
  lemma SbomPlan(w: World, id: nat, e: OutboxEvent) returns (at: seq<(int, int)>)
    requires e.SbomProcessed?
    ensures var occurrences := w.occurrences(e.sbomId);
            Plan(w, id, e).None? <==>
              && (exists o :: o in occurrences && Identified(o.component))
              && (forall o :: o in occurrences && Identified(o.component) ==>
                    Query(w, o.component.purl.value, o.component.rawVersion).None?)
    ensures Plan(w, id, e).Some? ==> Enumerates(w, id, e, w.occurrences(e.sbomId), Plan(w, id, e).value, at)
  {
    assert forall o: Occurrence :: Queryable(o) <==> Identified(o.component);
    assert forall o: Occurrence :: Queryable(o) ==> Answer(w, o) == Query(w, o.component.purl.value, o.component.rawVersion);
    at := SbomTasksEnumerate(w, id, e, w.occurrences(e.sbomId));
  }

  /** The advisory a reported vulnerability is matched against when OSV contributes nothing. */
  function Bare(cve: string): Advisory {
    Advisory(cve, [], [])
  }

  /** The component a finding's fields describe; only a package URL names an ecosystem. */
  lemma FindingComponent(name: Option<string>, version: Option<string>, kind: string, rest: string)
    requires '/' !in kind
    ensures var c := FieldsComponent(name, version, Some("pkg:" + kind + "/" + rest));
            && c.purl == Some("pkg:" + kind + "/" + rest) && c.rawVersion == version && c.cpe == None
            && c.ecosystem == Some(Lower(kind))
            && c.rawName == (if name.GetOr("") == "" then "unknown" else name.value)
            && c.normalizedName == Some(c.rawName)
    ensures FieldsComponent(name, version, None).ecosystem == None
  {
    var purl := "pkg:" + kind + "/" + rest;
    assert purl[4..] == kind + ['/'] + rest;
    SplitFirst(kind, '/', rest);
  }

  /**
   * What a DefectDojo finding asks for. An ambiguous mapping or a finding without a CVE asks for
   * nothing, a failing OSV query raises, and every other finding yields one task: confirmed when the
   * scanner verified it, else the matcher's verdict on the first document OSV returned.
   */
  lemma DojoPlan(w: World, id: nat, e: OutboxEvent)
    requires e.DefectDojoIngested?
    ensures var asks := !e.ambiguous && e.cve.GetOr("") != "" && e.cve != Some("unknown");
            var hasPurl := e.purl.GetOr("") != "";
            var answer := if hasPurl then Query(w, e.purl.value, e.componentVersion) else Some([]);
            && (!asks ==> Plan(w, id, e) == Some([]))
            && (Plan(w, id, e).None? <==> asks && answer.None?)
            && (asks && Plan(w, id, e).Some? ==>
                  && |Plan(w, id, e).value| == 1
                  && var t, docs := Plan(w, id, e).value[0], answer.value;
                     && t.key == Key(e.organization, e.cve.value, "defectdojo:" + e.findingId, None)
                     && t.assetId == e.assetId && t.reference == id && (t.wantsCase <==> hasPurl)
                     && t.ticket == (if e.jiraKey == Some("") then None else e.jiraKey)
                     && (e.verified ==> t.matchClass == Confirmed && t.confidence == 0.99)
                     && Carries(w, t, Judge(
                          w.compare,
                          FieldsComponent(e.componentName, e.componentVersion, e.purl),
                          if docs == [] then Bare(e.cve.value) else Normalisation.Normalise(docs[0]),
                          false, e.verified, if e.verified then None else w.vex(e.cve.value))))
  {
    if !e.ambiguous && e.cve.GetOr("") != "" && e.cve != Some("unknown") {
      if e.purl.GetOr("") == "" {
        assert Plan(w, id, e) == Some([DojoTask(w, id, e, [])]);
      } else if Query(w, e.purl.value, e.componentVersion).Some? {
        assert Plan(w, id, e) == Some([DojoTask(w, id, e, Query(w, e.purl.value, e.componentVersion).value)]);
      }
    }
  }

  lemma UpperAsLower(s: string, t: string)
    ensures Upper(s) == Upper(t) <==> Lower(s) == Lower(t)
  {
    if Upper(s) == Upper(t) || Lower(s) == Lower(t) {
      assert |s| == |Upper(s)| == |Lower(s)| && |t| == |Upper(t)| == |Lower(t)|;
      forall k | 0 <= k < |s| ensures UpperChar(s[k]) == UpperChar(t[k]) && LowerChar(s[k]) == LowerChar(t[k]) {
        assert Upper(s)[k] == UpperChar(s[k]) && Upper(t)[k] == UpperChar(t[k]);
      }
    }
  }

  /** A document names a CVE by its id or by any alias, in any letter case. */
  lemma NamesInAnyCase(doc: Advisory, cve: string)
    ensures MatchesCve(doc, cve) <==> exists name :: (name == doc.id || name in doc.aliases) && Lower(name) == Lower(cve)
  {
    forall name: string ensures Upper(name) == Upper(cve) <==> Lower(name) == Lower(cve) {
      UpperAsLower(name, cve);
    }
  }

  /** When a Wazuh event asks for anything, and when its handler raises. */
  lemma WazuhAsks(w: World, id: nat, e: OutboxEvent)
    requires e.WazuhIngested?
    ensures var asks := e.cve.GetOr("") != "" && e.cve != Some("unknown");
            && (!asks ==> Plan(w, id, e) == Some([]))
            && (Plan(w, id, e).None? <==> asks && e.purl.GetOr("") != "" && Query(w, e.purl.value, e.version).None?)
            && (asks && Plan(w, id, e).Some? ==>
                  && |Plan(w, id, e).value| == 1
                  && var t := Plan(w, id, e).value[0];
                     && t.key == Key(e.organization, e.cve.value, "wazuh:" + e.agentId, None)
                     && t.assetId == e.assetId && t.reference == id && t.ticket == None)
  {}

  /** A Wazuh event whose CVE some document names: the matcher's verdict on the first such document. */
  lemma WazuhBound(w: World, id: nat, e: OutboxEvent, n: nat)
    requires e.WazuhIngested? && e.cve.GetOr("") != "" && e.cve != Some("unknown") && e.purl.GetOr("") != ""
    requires Query(w, e.purl.value, e.version).Some? && n < |Query(w, e.purl.value, e.version).value|
    requires MatchesCve(Query(w, e.purl.value, e.version).value[n], e.cve.value)
    requires forall m :: 0 <= m < n ==> !MatchesCve(Query(w, e.purl.value, e.version).value[m], e.cve.value)
    ensures Plan(w, id, e).Some? && |Plan(w, id, e).value| == 1
    ensures var t, doc := Plan(w, id, e).value[0], Query(w, e.purl.value, e.version).value[n];
            var v := Judge(w.compare, FieldsComponent(e.name, e.version, e.purl), Normalisation.Normalise(doc),
                           false, false, w.vex(e.cve.value));
            && t.wantsCase
            && Carries(w, t, v.(limitations := v.limitations +
                 if e.derived then ["purl derived from Wazuh package metadata (best-effort)"] else []))
  {
    assert SelectForCve(Query(w, e.purl.value, e.version).value, e.cve.value) == Some(Query(w, e.purl.value, e.version).value[n]);
  }

  /** One whose CVE no document names, or that has no package URL, never asks for a case. With a package
      URL it is never confirmed or deterministic: where the matcher was that sure, it becomes a
      candidate of confidence at most 0.4. */
  lemma WazuhUnbound(w: World, id: nat, e: OutboxEvent)
    requires e.WazuhIngested? && e.cve.GetOr("") != "" && e.cve != Some("unknown")
    requires e.purl.GetOr("") != "" ==>
               Query(w, e.purl.value, e.version).Some? && forall d :: d in Query(w, e.purl.value, e.version).value ==> !MatchesCve(d, e.cve.value)
    ensures Plan(w, id, e).Some? && |Plan(w, id, e).value| == 1 && !Plan(w, id, e).value[0].wantsCase
    ensures var t := Plan(w, id, e).value[0];
            var v := Judge(w.compare, FieldsComponent(e.name, e.version, e.purl), Bare(e.cve.value),
                           false, false, w.vex(e.cve.value));
            var extra := if e.purl.GetOr("") == "" then ["package inventory without purl; review required"]
                         else
                           (if e.derived then ["purl derived from Wazuh package metadata (best-effort)"] else [])
                           + ["osv lookup did not confirm the Wazuh CVE; package-version match alone is insufficient"];
            if e.purl.GetOr("") != "" && v.matchClass in {Confirmed, Deterministic} then
              Carries(w, t, Verdict(Candidate, if v.confidence < 0.4 then v.confidence else 0.4,
                                    ["wazuh.osv-cve-unbound"], v.limitations + extra))
            else Carries(w, t, v.(limitations := v.limitations + extra))
  {
    if e.purl.GetOr("") != "" {
      assert SelectForCve(Query(w, e.purl.value, e.version).value, e.cve.value).None?;
      var v := Judge(w.compare, FieldsComponent(e.name, e.version, e.purl), Bare(e.cve.value), false, false, w.vex(e.cve.value));
      var derived := if e.derived then ["purl derived from Wazuh package metadata (best-effort)"] else [];
      assert v.limitations + derived + [UNBOUND] == v.limitations + (derived + [UNBOUND]);
    }
  }

  // -- what plans promise -------------------------------------------------------------------------

  predicate NormalWorld(w: World, t: Task) {
    RiskPolicy.Normal(w.enrich(t.key.vulnerability))
  }

  /** A task's class, confidence and priority come from one verdict and the feeds about its vulnerability. */
  predicate Derived(w: World, t: Task) {
    && RiskPolicy.InUnitRange(t.confidence)
    && t.priority == RiskPolicy.PriorityFor(w.enrich(t.key.vulnerability), t.matchClass, t.confidence)
    && t.matchedRules != []
  }

  lemma VerdictInRange(cmp: Compare, c: Component, adv: Advisory, second: bool, scanner: bool, vex: Option<string>)
    ensures var v := Judge(cmp, c, adv, second, scanner, vex);
            RiskPolicy.InUnitRange(v.confidence) && v.matchedRules != []
  {}

  lemma DocTasksDerived(w: World, id: nat, e: OutboxEvent, o: Occurrence, docs: seq<Advisory>)
    requires e.SbomProcessed?
    ensures forall t :: t in DocTasks(w, id, e, o, docs) ==> Derived(w, t)
  {
    forall i | 0 <= i < |docs| ensures Derived(w, OccurrenceTask(w, id, e, o, docs[i])) {
      VerdictInRange(w.compare, o.component, Normalisation.Normalise(docs[i]), false, false, w.vex(docs[i].id));
    }
  }

  lemma SbomTasksDerived(w: World, id: nat, e: OutboxEvent, occurrences: seq<Occurrence>)
    requires e.SbomProcessed?
    ensures forall t :: t in SbomTasks(w, id, e, occurrences) ==> Derived(w, t)
  {
    var parts, ts := Parts(w, id, e, occurrences), SbomTasks(w, id, e, occurrences);
    var at := FlatLocates(parts);
    forall n | 0 <= n < |ts| ensures Derived(w, ts[n]) {
      var o := occurrences[at[n].0];
      DocTasksDerived(w, id, e, o, Answer(w, o).GetOr([]));
      assert ts[n] in parts[at[n].0];
    }
  }

  lemma DojoTaskDerived(w: World, id: nat, e: OutboxEvent, docs: seq<Advisory>)
    requires e.DefectDojoIngested? && NamesCve(e.cve)
    ensures Derived(w, DojoTask(w, id, e, docs))
  {
    var advisory := if docs == [] then Advisory(e.cve.value, [], []) else Normalisation.Normalise(docs[0]);
    VerdictInRange(w.compare, FieldsComponent(e.componentName, e.componentVersion, e.purl), advisory, false,
                   e.verified, if e.verified then None else w.vex(e.cve.value));
  }

  lemma WazuhTaskDerived(w: World, id: nat, e: OutboxEvent, docs: seq<Advisory>)
    requires e.WazuhIngested? && NamesCve(e.cve)
    ensures Derived(w, WazuhTask(w, id, e, docs))
  {
    var bound := SelectForCve(docs, e.cve.value);
    var advisory := match bound case None => Advisory(e.cve.value, [], []) case Some(doc) => Normalisation.Normalise(doc);
    VerdictInRange(w.compare, FieldsComponent(e.name, e.version, e.purl), advisory, false, false, w.vex(e.cve.value));
  }

  lemma PlanDerived(w: World, id: nat, e: OutboxEvent)
    requires Plan(w, id, e).Some?
    ensures forall t :: t in Plan(w, id, e).value ==> Derived(w, t)
  {
    match e
    case Unhandled(_) =>
    case SbomProcessed(sbomId, _) => SbomTasksDerived(w, id, e, w.occurrences(sbomId));
    case DefectDojoIngested(_, _, cve, _, purl, _, version, _, _, _) =>
      if NamesCve(cve) {
        DojoTaskDerived(w, id, e, if Given(purl) then Query(w, purl.value, version).GetOr([]) else []);
      }
    case WazuhIngested(_, cve, _, purl, _, version, _, _) =>
      if NamesCve(cve) {
        WazuhTaskDerived(w, id, e, if Given(purl) then Query(w, purl.value, version).GetOr([]) else []);
      }
  }

  /** The case lists one exposure, the one the task is about, and has the task's priority. */
  predicate OpenedFor(c: Case, exposures: seq<Exposure>, t: Task) {
    && t.wantsCase && CaseClass(t.matchClass) && c.priority == t.priority
    && |c.exposures| == 1 && c.exposures[0] < |exposures| && exposures[c.exposures[0]].key == t.key
    && c.organization == t.key.organization
  }

  lemma WorkOpens(s: Settings, c: Core, t: Task)
    ensures var r := Work(s, c, t);
            && c.cases <= r.cases && |r.cases| <= |c.cases| + 1
            && (|r.cases| > |c.cases| ==> OpenedFor(r.cases[|c.cases|], r.exposures, t))
  {
    var x := IndexOf(c.exposures, t.key);
    var c' := Upsert(c, t);
    IndexIsFirst(c.exposures, t.key);
    IndexIsOnly(c'.exposures, t.key, x);
  }

  /** Each case beyond the first `n` was opened for one of the tasks. */
  ghost predicate AllOpenedFor(c: Core, n: nat, ts: seq<Task>) {
    forall i :: n <= i < |c.cases| ==> exists t :: t in ts && OpenedFor(c.cases[i], c.exposures, t)
  }

  lemma WorkOpensFor(s: Settings, c: Core, t: Task, n: nat, ts: seq<Task>)
    requires AllOpenedFor(c, n, ts) && n <= |c.cases| && t in ts
    ensures AllOpenedFor(Work(s, c, t), n, ts) && c.cases <= Work(s, c, t).cases
  {
    WorkOpens(s, c, t);
    WorkLater(s, c, t);
    var r := Work(s, c, t);
    forall i | n <= i < |r.cases| ensures exists u :: u in ts && OpenedFor(r.cases[i], r.exposures, u) {
      if i < |c.cases| {
        assert r.cases[i] == c.cases[i];
        var u :| u in ts && OpenedFor(c.cases[i], c.exposures, u);
        assert OpenedFor(r.cases[i], r.exposures, u);
      }
    }
  }

  /** Every case opened while running tasks is for one exposure, that of a case-class task which asked
      for a case, and has that task's priority. */
  lemma {:induction false} OpenedBy(s: Settings, c: Core, ts: seq<Task>, n: nat)
    requires n <= |ts|
    ensures c.cases <= RunTo(s, c, ts, n).cases && AllOpenedFor(RunTo(s, c, ts, n), |c.cases|, ts)
  {
    if n > 0 {
      OpenedBy(s, c, ts, n - 1);
      var before := RunTo(s, c, ts, n - 1);
      WorkOpensFor(s, before, ts[n - 1], |c.cases|, ts);
      assert RunTo(s, c, ts, n) == Work(s, before, ts[n - 1]);
    }
  }

  lemma Opener(s: Settings, c: Core, ts: seq<Task>, i: nat) returns (t: Task)
    requires |c.cases| <= i < |RunTasks(s, c, ts).cases|
    ensures t in ts && OpenedFor(RunTasks(s, c, ts).cases[i], RunTasks(s, c, ts).exposures, t)
  {
    OpenedBy(s, c, ts, |ts|);
    t :| t in ts && OpenedFor(RunTasks(s, c, ts).cases[i], RunTasks(s, c, ts).exposures, t);
  }

  lemma DerivedPriority(w: World, t: Task)
    requires Derived(w, t) && NormalWorld(w, t) && CaseClass(t.matchClass)
    ensures t.priority in {P0, P2, P3}
    ensures t.priority == P0 <==>
              && w.enrich(t.key.vulnerability).kev && t.matchClass == Confirmed
              && w.enrich(t.key.vulnerability).epssScore > 0.5
  {
    RiskPolicy.AutoCasePriority(w.enrich(t.key.vulnerability), t.matchClass, t.confidence);
  }

  /**
   * With enrichment scores in [0, 1], every automatically opened case is P0, P2 or P3. It lists one
   * exposure, and it is P0 exactly when the vulnerability of that exposure is in KEV, the match that
   * asked for the case is confirmed, and the EPSS score of that vulnerability exceeds 0.5.
   */
  lemma AutoCreatedPriorities(w: World, s: Settings, c: Core, id: nat, e: OutboxEvent, i: nat) returns (t: Task)
    requires Plan(w, id, e).Some?
    requires forall t :: t in Plan(w, id, e).value ==> NormalWorld(w, t)
    requires |c.cases| <= i < |RunTasks(s, c, Plan(w, id, e).value).cases|
    ensures t in Plan(w, id, e).value
    ensures var r := RunTasks(s, c, Plan(w, id, e).value);
            && OpenedFor(r.cases[i], r.exposures, t)
            && r.cases[i].priority in {P0, P2, P3}
            && var feeds := w.enrich(r.exposures[r.cases[i].exposures[0]].key.vulnerability);
               (r.cases[i].priority == P0 <==> feeds.kev && t.matchClass == Confirmed && feeds.epssScore > 0.5)
  {
    PlanDerived(w, id, e);
    t := Opener(s, c, Plan(w, id, e).value, i);
    DerivedPriority(w, t);
  }

  /** A Wazuh finding opens a case only on an advisory that names its CVE. */
  lemma WazuhCasesAreBound(w: World, id: nat, e: OutboxEvent, t: Task)
    requires e.WazuhIngested? && Plan(w, id, e).Some? && t in Plan(w, id, e).value && t.wantsCase
    ensures Given(e.purl) && NamesCve(e.cve)
    ensures exists doc :: doc in Query(w, e.purl.value, e.version).GetOr([]) && MatchesCve(doc, e.cve.value)
    ensures t.key == Key(e.organization, e.cve.value, "wazuh:" + e.agentId, None)
  {
    var bound := SelectForCve(Query(w, e.purl.value, e.version).GetOr([]), e.cve.value);
    assert bound.Some?;
  }
}
