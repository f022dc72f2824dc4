/**
 * Package URLs: the printer that derives one from a Wazuh package row, and the three functions
 * that take one apart again. Text is the sequence of its UTF-8 octets.
 */
module PurlDerivation {
  import opened Domain
  import opened Text

  type Octet = c: char | c as int < 256 witness 'a'
  type Octets = seq<Octet>

  // -- percent-encoding (section 2.1 of RFC 3986) ----------------------------------------------

  const HEX: string := "0123456789ABCDEF"

  predicate Unreserved(c: char) {
    '0' <= c <= '9' || 'A' <= c <= 'Z' || 'a' <= c <= 'z' || c == '-' || c == '.' || c == '_' || c == '~'
  }

  function EncodeOctet(c: Octet, keepPlus: bool): (r: string)
    ensures r != ""
  {
    if Unreserved(c) || (keepPlus && c == '+') then [c]
    else ['%', HEX[c as int / 16], HEX[c as int % 16]]
  }

  /** `urllib.parse.quote`; the only caller-supplied safe character that is not unreserved is '+'. */
  function Quote(s: Octets, keepPlus: bool): (r: string)
    ensures |r| >= |s|
  {
    if s == [] then "" else EncodeOctet(s[0], keepPlus) + Quote(s[1..], keepPlus)
  }

  function HexValue(c: char): int {
    if '0' <= c <= '9' then c as int - '0' as int
    else if 'A' <= c <= 'F' then c as int - 'A' as int + 10
    else if 'a' <= c <= 'f' then c as int - 'a' as int + 10
    else -1
  }

  /** The reference decoder: a triple "%HH" is one octet, anything else stands for itself. */
  function Unquote(s: string): string {
    if s == "" then ""
    else if s[0] == '%' && |s| >= 3 && HexValue(s[1]) >= 0 && HexValue(s[2]) >= 0 then
      [(16 * HexValue(s[1]) + HexValue(s[2])) as char] + Unquote(s[3..])
    else [s[0]] + Unquote(s[1..])
  }

  lemma HexDigits(n: nat)
    requires n < 16
    ensures HexValue(HEX[n]) == n && HexValue(LowerChar(HEX[n])) == n && HEX[n] != '%'
  {}

  lemma UnquoteOctet(c: Octet, keepPlus: bool, rest: string)
    ensures Unquote(EncodeOctet(c, keepPlus) + rest) == [c] + Unquote(rest)
  {
    var e := EncodeOctet(c, keepPlus);
    if |e| == 3 {
      var hi, lo := c as int / 16, c as int % 16;
      HexDigits(hi);
      HexDigits(lo);
      assert (e + rest)[3..] == rest;
    } else {
      assert (e + rest)[1..] == rest;
    }
  }

  /** Decoding recovers every octet of the original. */
  lemma {:induction false} UnquoteQuote(s: Octets, keepPlus: bool)
    ensures Unquote(Quote(s, keepPlus)) == s
  {
    if s != [] {
      UnquoteQuote(s[1..], keepPlus);
      UnquoteOctet(s[0], keepPlus, Quote(s[1..], keepPlus));
    }
  }

  /** The characters an encoded segment can hold: none of them delimits a part of a package URL. */
  predicate Inert(c: char) {
    Unreserved(c) || c == '+' || c == '%'
  }

  lemma {:induction false} QuoteInert(s: Octets, keepPlus: bool)
    ensures forall c :: c in Quote(s, keepPlus) ==> Inert(c)
  {
    if s != [] {
      QuoteInert(s[1..], keepPlus);
    }
  }

  // -- derivation -------------------------------------------------------------------------------

  datatype PackageRow = PackageRow(
    purl: Option<Octets>,
    name: Option<Octets>,
    version: Option<Octets>,
    format: Option<Octets>,
    architecture: Option<Octets>,
    vendor: Option<Octets>)

  datatype Derivation = Present(purl: string) | Derived(purl: string, format: string) | Skipped(reason: string)

  function Clean(value: Option<Octets>): Option<Octets> {
    match value
    case None => None
    case Some(v) => if Strip(v) == "" then None else (StripOctets(v); var t: Octets := Strip(v); Some(t))
  }

  lemma {:induction false} StripLeftSuffix(s: string)
    ensures |StripLeft(s)| <= |s| && StripLeft(s) == s[|s| - |StripLeft(s)|..]
  {
    if s != "" && IsSpace(s[0]) {
      StripLeftSuffix(s[1..]);
    }
  }

  lemma {:induction false} StripRightPrefix(s: string)
    ensures StripRight(s) <= s
  {
    if s != "" && IsSpace(s[|s| - 1]) {
      StripRightPrefix(s[..|s| - 1]);
    }
  }

  lemma StripOctets(s: Octets)
    ensures forall i :: 0 <= i < |Strip(s)| ==> Strip(s)[i] as int < 256
  {
    StripLeftSuffix(s);
    StripRightPrefix(StripLeft(s));
    var t := Strip(s);
    forall i | 0 <= i < |t| ensures t[i] as int < 256 {
      assert t[i] == StripLeft(s)[i] == s[|s| - |StripLeft(s)| + i];
    }
  }

  const INVALID_VERSIONS: set<string> := {"", "-", "(none)", "unknown", "n/a"}

  predicate Word(s: string) {
    s != "" && forall i :: 0 <= i < |s| ==> 'a' <= s[i] <= 'z'
  }

  /** The vendor words and the distributions they name, in the order in which they are tried. */
  const NEEDLES: seq<(string, string)> := [
    ("almalinux", "almalinux"), ("opensuse", "opensuse"), ("red hat", "redhat"), ("amazon", "amazon"),
    ("centos", "centos"), ("fedora", "fedora"), ("oracle", "oracle"), ("redhat", "redhat"), ("rocky", "rocky"),
    ("amzn", "amazon"), ("rhel", "redhat"), ("suse", "suse")]

  /** What the first needle found in the text names. */
  function FirstNeedle(text: string, needles: seq<(string, string)>): Option<string> {
    if needles == [] then None
    else if Contains(text, needles[0].0) then Some(needles[0].1)
    else FirstNeedle(text, needles[1..])
  }

  function RpmNamespace(vendor: string): Option<string> {
    FirstNeedle(vendor, NEEDLES)
  }

  /** The distribution segment, or the reason there is none. */
  function Namespace(format: string, vendor: Option<Octets>, distro: string): Result<string> {
    if format == "deb" then
      if Contains(distro, "ubuntu") then Ok("ubuntu")
      else if Contains(distro, "debian") then Ok("debian")
      else Err("deb_distro_unknown")
    else if format == "apk" then Ok("alpine")
    else if format == "rpm" then
      match vendor
      case None => Err("rpm_namespace_unknown")
      case Some(v) =>
        match RpmNamespace(Lower(v))
        case Some(n) => Ok(n)
        case None => Err("rpm_namespace_unknown")
    else if format != "" then Err("unsupported_format:" + format)
    else Err("missing_format")
  }

  function LowerOctets(s: Octets): (r: Octets)
    ensures r == Lower(s)
  {
    seq(|s|, i requires 0 <= i < |s| => LowerChar(s[i]))
  }

  function Print(format: string, namespace: string, name: Octets, version: Octets, arch: Option<Octets>): string {
    "pkg:" + format + "/" + namespace + "/" + Quote(name, true) + "@" + Quote(version, true)
    + if arch.Some? then "?arch=" + Quote(arch.value, false) else ""
  }

  /** `distro` is the agent's operating-system text, already joined and lower-cased. */
  function Derive(p: PackageRow, distro: string): Derivation {
    var name, version, arch := Clean(p.name), Clean(p.version), Clean(p.architecture);
    var format := match Clean(p.format) case None => "" case Some(f) => Lower(f);
    if Clean(p.purl).Some? then Present(Clean(p.purl).value)
    else if name.None? || version.None? then Skipped("missing_name_or_version")
    else if Lower(version.value) in INVALID_VERSIONS then Skipped("invalid_version")
    else match Namespace(format, Clean(p.vendor), distro)
    case Err(reason) => Skipped(reason)
    case Ok(namespace) =>
      var lowered := if arch.Some? then Some(LowerOctets(arch.value)) else None;
      Derived(Print(format, namespace, name.value, version.value, lowered), format)
  }

  // -- the three parsers ------------------------------------------------------------------------

  /** The SBOM parser's reading: package type and normalized name. */
  function ParsePurl(purl: string): (Option<string>, Option<string>) {
    if purl == "" then (None, None)
    else if !("pkg:" <= purl) || '/' !in purl[4..] || Before(purl[4..], '/') == "" then (None, Some(purl))
    else
      var tail := After(purl[4..], '/');
      // `.+$` stops before one final newline and matches no other newline.
      var rest := if tail != "" && tail[|tail| - 1] == '\n' then tail[..|tail| - 1] else tail;
      if rest == "" || '\n' in rest then (None, Some(purl))
      else (Some(Lower(Before(purl[4..], '/'))), Some(Before(Before(Before(rest, '@'), '?'), '#')))
  }

  /** The OSV adapter's reading: the bare package, cut in the last path segment only. */
  function StripVersion(purl: string): string {
    var base := Before(Before(purl, '?'), '#');
    var segment := PastLast(base, '/');
    base[..segment] + Before(base[segment..], '@')
  }

  /** The matcher's reading: identity without version or qualifiers, lower-cased. */
  function StripIdentity(purl: string): string {
    TrimSlashes(Lower(Before(Before(Before(purl, '?'), '#'), '@')))
  }

  // -- round trip -------------------------------------------------------------------------------

  lemma {:induction false} FirstNeedleIsFirst(text: string, needles: seq<(string, string)>)
    ensures var r := FirstNeedle(text, needles);
            if r.None? then forall n :: 0 <= n < |needles| ==> !Contains(text, needles[n].0)
            else
              exists n :: 0 <= n < |needles| && r.value == needles[n].1 && Contains(text, needles[n].0)
                && forall m :: 0 <= m < n ==> !Contains(text, needles[m].0)
  {
    if needles != [] && !Contains(text, needles[0].0) {
      FirstNeedleIsFirst(text, needles[1..]);
      assert forall n :: 1 <= n < |needles| ==> needles[n] == needles[1..][n - 1];
      if n :| 0 <= n < |needles| - 1 && FirstNeedle(text, needles) == Some(needles[1..][n].1) && Contains(text, needles[1..][n].0)
              && forall m :: 0 <= m < n ==> !Contains(text, needles[1..][m].0) {
        assert needles[n + 1] == needles[1..][n];
        assert forall m :: 0 < m <= n ==> !Contains(text, needles[m].0);
      }
    } else if needles != [] {
      assert FirstNeedle(text, needles) == Some(needles[0].1);
    }
  }

  lemma NeedlesNameWords(n: nat)
    requires n < |NEEDLES|
    ensures Word(NEEDLES[n].1)
  {}

  lemma NamespaceIsWord(format: string, vendor: Option<Octets>, distro: string)
    requires Namespace(format, vendor, distro).Ok?
    ensures Word(Namespace(format, vendor, distro).value) && Word(format)
  {
    if format == "rpm" {
      FirstNeedleIsFirst(Lower(vendor.value), NEEDLES);
      var n :| 0 <= n < |NEEDLES| && NEEDLES[n].1 == Namespace(format, vendor, distro).value;
      NeedlesNameWords(n);
    }
  }

  function Base(format: string, namespace: string, name: Octets): string {
    "pkg:" + format + "/" + namespace + "/" + Quote(name, true)
  }

  predicate Path(s: string) {
    forall c :: c in s ==> c == ':' || c == '/' || Inert(c)
  }

  lemma BaseIsPath(format: string, namespace: string, name: Octets)
    requires Word(format) && Word(namespace) && name != []
    ensures var b := Base(format, namespace, name);
            && Path(b) && |b| > 0 && b[|b| - 1] != '/'
  {
    QuoteInert(name, true);
    var q, b := Quote(name, true), Base(format, namespace, name);
    assert q[|q| - 1] in q && b[|b| - 1] == q[|q| - 1];
    forall c | c in b ensures c == ':' || c == '/' || Inert(c) {
      assert c in "pkg:" || c in format || c in namespace || c in "/" || c in q;
    }
  }

  lemma HeadIsPlain(format: string, namespace: string, name: Octets, version: Octets)
    requires Word(format) && Word(namespace) && name != []
    ensures var b, v := Base(format, namespace, name), Quote(version, true);
            && '@' !in b && '?' !in b && '#' !in b && '?' !in v && '#' !in v
  {
    BaseIsPath(format, namespace, name);
    QuoteInert(version, true);
  }

  function Qualifier(arch: Option<Octets>): Option<string> {
    if arch.Some? then Some("arch=" + Quote(arch.value, false)) else None
  }

  /** A base, a version and a qualifier behind their delimiters. */
  function Joined(b: string, v: string, tail: Option<string>): string {
    b + ['@'] + v + if tail.Some? then ['?'] + tail.value else []
  }

  lemma PrintIsJoined(format: string, namespace: string, name: Octets, version: Octets, arch: Option<Octets>)
    ensures Print(format, namespace, name, version, arch) ==
            Joined(Base(format, namespace, name), Quote(version, true), Qualifier(arch))
  {
    if arch.Some? {
      assert "?arch=" + Quote(arch.value, false) == ['?'] + ("arch=" + Quote(arch.value, false));
    }
  }

  lemma CutJoined(b: string, v: string, tail: Option<string>)
    requires '@' !in b && '?' !in b && '#' !in b && '?' !in v && '#' !in v
    ensures var p := Joined(b, v, tail);
            && Before(p, '?') == b + ['@'] + v && '#' !in Before(p, '?') && After(p, '?') == tail.GetOr("")
            && Before(Before(p, '?'), '@') == b && After(Before(p, '?'), '@') == v
  {
    var head := b + ['@'] + v;
    if tail.Some? {
      assert head + (['?'] + tail.value) == head + ['?'] + tail.value;
      SplitFirst(head, '?', tail.value);
    } else {
      assert head + [] == head;
      NothingToSplit(head, '?');
    }
    SplitFirst(b, '@', v);
  }

  /** How the delimiters cut a printed URL. */
  lemma PrintShape(format: string, namespace: string, name: Octets, version: Octets, arch: Option<Octets>)
    requires Word(format) && Word(namespace) && name != []
    ensures var p, b := Print(format, namespace, name, version, arch), Base(format, namespace, name);
            && Before(p, '?') == b + ['@'] + Quote(version, true) && '#' !in Before(p, '?')
            && After(p, '?') == Qualifier(arch).GetOr("")
            && Before(Before(p, '?'), '@') == b && After(Before(p, '?'), '@') == Quote(version, true)
  {
    PrintIsJoined(format, namespace, name, version, arch);
    HeadIsPlain(format, namespace, name, version);
    CutJoined(Base(format, namespace, name), Quote(version, true), Qualifier(arch));
  }

  lemma {:induction false} PastLastAt(a: string, c: char, b: string)
    requires c !in b
    ensures PastLast(a + [c] + b, c) == |a| + 1
  {
    var s := a + [c] + b;
    if b == "" {
      assert s[|s| - 1] == c;
    } else {
      assert b[|b| - 1] in b;
      assert s[..|s| - 1] == a + [c] + b[..|b| - 1];
      PastLastAt(a, c, b[..|b| - 1]);
    }
  }

  /**
   * Every derived package URL survives all three parsers: the SBOM parser finds the type and the
   * namespaced name, the OSV adapter finds exactly the base, the matcher its lower-cased form.
   */
  lemma DerivedRoundTrip(p: PackageRow, distro: string, format: string, namespace: string)
    requires Derive(p, distro).Derived? && format == Derive(p, distro).format
    requires Namespace(format, Clean(p.vendor), distro) == Ok(namespace)
    ensures var purl, name, version := Derive(p, distro).purl, Clean(p.name).value, Clean(p.version).value;
            && ParsePurl(purl) == (Some(format), Some(namespace + "/" + Quote(name, true)))
            && StripVersion(purl) == "pkg:" + format + "/" + namespace + "/" + Quote(name, true)
            && StripIdentity(purl) == Lower(StripVersion(purl))
            && Unquote(Quote(name, true)) == name
            && Unquote(After(Before(purl, '?'), '@')) == version
  {
    NamespaceIsWord(format, Clean(p.vendor), distro);
    var arch := DerivedPrints(p, distro, namespace);
    PrintRoundTrip(format, namespace, Clean(p.name).value, Clean(p.version).value, arch);
  }

  /** A derived URL is printed from the cleaned fields of its row. */
  lemma DerivedPrints(p: PackageRow, distro: string, namespace: string) returns (arch: Option<Octets>)
    requires Derive(p, distro).Derived?
    requires Namespace(Derive(p, distro).format, Clean(p.vendor), distro) == Ok(namespace)
    ensures Clean(p.name).Some? && Clean(p.name).value != [] && Clean(p.version).Some?
    ensures Derive(p, distro).purl ==
            Print(Derive(p, distro).format, namespace, Clean(p.name).value, Clean(p.version).value, arch)
    ensures arch.Some? <==> Clean(p.architecture).Some?
    ensures arch.Some? ==> arch.value == Lower(Clean(p.architecture).value)
  {
    arch := if Clean(p.architecture).Some? then Some(LowerOctets(Clean(p.architecture).value)) else None;
  }

  lemma PrintRoundTrip(format: string, namespace: string, name: Octets, version: Octets, arch: Option<Octets>)
    requires Word(format) && Word(namespace) && name != []
    ensures var purl, q := Print(format, namespace, name, version, arch), Quote(name, true);
            && ParsePurl(purl) == (Some(format), Some(namespace + "/" + q))
            && StripVersion(purl) == "pkg:" + format + "/" + namespace + "/" + q
            && StripIdentity(purl) == Lower(StripVersion(purl))
            && Unquote(q) == name
            && Unquote(After(Before(purl, '?'), '@')) == version
  {
    PrintShape(format, namespace, name, version, arch);
    PrintParses(format, namespace, name, version, arch);
    PrintStripsVersion(format, namespace, name, version, arch);
    StripIdentityReadsBase(Print(format, namespace, name, version, arch), format, namespace, name);
    UnquoteQuote(name, true);
    UnquoteQuote(version, true);
  }

  lemma PrintParses(format: string, namespace: string, name: Octets, version: Octets, arch: Option<Octets>)
    requires Word(format) && Word(namespace) && name != []
    ensures ParsePurl(Print(format, namespace, name, version, arch)) == (Some(format), Some(namespace + "/" + Quote(name, true)))
  {
    var purl, rest := Print(format, namespace, name, version, arch), namespace + "/" + Quote(name, true);
    PrintShape(format, namespace, name, version, arch);
    PrintHasNoNewline(format, namespace, name, version, arch);
    PathIsPlain(format, namespace, name);
    ParseReadsBase(purl, format, rest, Quote(version, true));
  }

  lemma PathIsPlain(format: string, namespace: string, name: Octets)
    requires Word(format) && Word(namespace)
    ensures var rest := namespace + "/" + Quote(name, true);
            && '@' !in rest && '?' !in rest && '#' !in rest
            && "pkg:" + format + "/" + rest == Base(format, namespace, name)
  {
    QuoteInert(name, true);
  }

  lemma PrintStripsVersion(format: string, namespace: string, name: Octets, version: Octets, arch: Option<Octets>)
    requires Word(format) && Word(namespace) && name != []
    ensures StripVersion(Print(format, namespace, name, version, arch)) == Base(format, namespace, name)
  {
    PrintShape(format, namespace, name, version, arch);
    QuoteInert(name, true);
    QuoteInert(version, true);
    StripVersionReadsBase(Print(format, namespace, name, version, arch), "pkg:" + format + "/" + namespace,
                          Quote(name, true), Quote(version, true));
  }

  lemma PrintHasNoNewline(format: string, namespace: string, name: Octets, version: Octets, arch: Option<Octets>)
    requires Word(format) && Word(namespace)
    ensures '\n' !in Print(format, namespace, name, version, arch)
  {
    QuoteInert(name, true);
    QuoteInert(version, true);
    var head, tail := Base(format, namespace, name), if arch.Some? then "?arch=" + Quote(arch.value, false) else "";
    if arch.Some? {
      QuoteInert(arch.value, false);
    }
    assert '\n' !in tail;
    assert '\n' !in head;
    assert Print(format, namespace, name, version, arch) == head + "@" + Quote(version, true) + tail;
  }

  lemma StripIdentityReadsBase(purl: string, format: string, namespace: string, name: Octets)
    requires Word(format) && Word(namespace) && name != [] && '#' !in Before(purl, '?')
    requires Before(Before(purl, '?'), '@') == Base(format, namespace, name)
    ensures StripIdentity(purl) == Lower(Base(format, namespace, name))
  {
    var b := Base(format, namespace, name);
    BaseIsPath(format, namespace, name);
    NothingToSplit(Before(purl, '?'), '#');
    assert Lower(b)[|b| - 1] != '/';
  }

  lemma WordIsLower(s: string)
    requires Word(s)
    ensures Lower(s) == s
  {
    assert forall i :: 0 <= i < |s| ==> s[i] in s;
  }

  lemma ParseReadsBase(purl: string, format: string, rest: string, version: string)
    requires Word(format) && rest != ""
    requires '@' !in rest && '?' !in rest && '#' !in rest
    requires Before(purl, '?') == "pkg:" + format + "/" + rest + ['@'] + version && '\n' !in purl
    ensures ParsePurl(purl) == (Some(format), Some(rest))
  {
    var beyond := version + purl[|Before(purl, '?')|..];
    var tail := rest + ['@'] + beyond;
    assert purl == "pkg:" + (format + ['/'] + tail) by {
      assert purl == Before(purl, '?') + purl[|Before(purl, '?')|..];
    }
    SplitFirst(format, '/', tail);
    assert purl[4..] == format + ['/'] + tail;
    assert '/' in purl[4..] && '\n' !in tail;
    ReadRest(rest, beyond);
    WordIsLower(format);
  }

  lemma ReadRest(rest: string, beyond: string)
    requires '@' !in rest && '?' !in rest && '#' !in rest
    ensures Before(Before(Before(rest + ['@'] + beyond, '@'), '?'), '#') == rest
  {
    SplitFirst(rest, '@', beyond);
    NothingToSplit(rest, '?');
    NothingToSplit(rest, '#');
  }

  lemma StripVersionReadsBase(purl: string, path: string, segment: string, version: string)
    requires '/' !in segment && '/' !in version && '@' !in segment && '@' !in version
    requires Before(purl, '?') == path + "/" + segment + ['@'] + version && '#' !in Before(purl, '?')
    ensures StripVersion(purl) == path + "/" + segment
  {
    var base := Before(purl, '?');
    var last := segment + ['@'] + version;
    NothingToSplit(base, '#');
    assert base == path + ['/'] + last;
    PastLastAt(path, '/', last);
    assert base[|path| + 1..] == last && base[..|path| + 1] == path + "/";
    SplitFirst(segment, '@', version);
  }

  /** Two rows with the same derived URL have the same type, namespace, name, version and architecture. */
  lemma DerivationInjective(p: PackageRow, d: string, p': PackageRow, d': string)
    requires Derive(p, d).Derived? && Derive(p', d').Derived?
    requires Derive(p, d).purl == Derive(p', d').purl
    ensures Derive(p, d).format == Derive(p', d').format
    ensures Namespace(Derive(p, d).format, Clean(p.vendor), d) == Namespace(Derive(p', d').format, Clean(p'.vendor), d')
    ensures Clean(p.name) == Clean(p'.name) && Clean(p.version) == Clean(p'.version)
    ensures Clean(p.architecture).Some? <==> Clean(p'.architecture).Some?
    ensures Clean(p.architecture).Some? ==> Lower(Clean(p.architecture).value) == Lower(Clean(p'.architecture).value)
  {
    var f, f' := Derive(p, d).format, Derive(p', d').format;
    var ns, ns' := Namespace(f, Clean(p.vendor), d).value, Namespace(f', Clean(p'.vendor), d').value;
    NamespaceIsWord(f, Clean(p.vendor), d);
    NamespaceIsWord(f', Clean(p'.vendor), d');
    var a := DerivedPrints(p, d, ns);
    var a' := DerivedPrints(p', d', ns');
    PrintInjective(f, ns, Clean(p.name).value, Clean(p.version).value, a,
                   f', ns', Clean(p'.name).value, Clean(p'.version).value, a');
  }

  lemma PrintInjective(f: string, ns: string, n: Octets, v: Octets, a: Option<Octets>,
                       f': string, ns': string, n': Octets, v': Octets, a': Option<Octets>)
    requires Word(f) && Word(ns) && n != [] && Word(f') && Word(ns') && n' != []
    requires Print(f, ns, n, v, a) == Print(f', ns', n', v', a')
    ensures f == f' && ns == ns' && n == n' && v == v' && a == a'
  {
    PrintShape(f, ns, n, v, a);
    PrintShape(f', ns', n', v', a');
    UnquoteQuote(v, true);
    UnquoteQuote(v', true);
    if a.Some? {
      assert ("arch=" + Quote(a.value, false))[5..] == Quote(a.value, false);
      assert ("arch=" + Quote(a'.value, false))[5..] == Quote(a'.value, false);
      UnquoteQuote(a.value, false);
      UnquoteQuote(a'.value, false);
    }
    BaseInjective(f, ns, n, f', ns', n');
  }

  /** The path of a package URL falls apart at its slashes. */
  lemma SplitPath(f: string, ns: string, q: string)
    requires Word(f) && Word(ns)
    ensures var tail := ("pkg:" + f + "/" + ns + "/" + q)[4..];
            && Before(tail, '/') == f
            && Before(After(tail, '/'), '/') == ns
            && After(After(tail, '/'), '/') == q
  {
    var rest := ns + ['/'] + q;
    assert ("pkg:" + f + "/" + ns + "/" + q)[4..] == f + ['/'] + rest;
    SplitFirst(f, '/', rest);
    SplitFirst(ns, '/', q);
  }

  lemma BaseParts(f: string, ns: string, n: Octets)
    requires Word(f) && Word(ns) && n != []
    ensures Before(Base(f, ns, n)[4..], '/') == f
    ensures Before(After(Base(f, ns, n)[4..], '/'), '/') == ns
    ensures After(After(Base(f, ns, n)[4..], '/'), '/') == Quote(n, true)
  {
    SplitPath(f, ns, Quote(n, true));
  }

  lemma BaseInjective(f: string, ns: string, n: Octets, f': string, ns': string, n': Octets)
    requires Word(f) && Word(ns) && n != [] && Word(f') && Word(ns') && n' != []
    requires Base(f, ns, n) == Base(f', ns', n')
    ensures f == f' && ns == ns' && n == n'
  {
    BaseParts(f, ns, n);
    BaseParts(f', ns', n');
    UnquoteQuote(n, true);
    UnquoteQuote(n', true);
  }

  // -- what the matcher's identity merges -------------------------------------------------------

  lemma LowerConcat(a: string, b: string)
    ensures Lower(a + b) == Lower(a) + Lower(b)
  {}

  lemma UnquoteLowerOctet(c: Octet, rest: string)
    ensures Unquote(Lower(EncodeOctet(c, true)) + rest) == [LowerChar(c)] + Unquote(rest)
  {
    var e := Lower(EncodeOctet(c, true));
    if |e| == 3 {
      var hi, lo := c as int / 16, c as int % 16;
      HexDigits(hi);
      HexDigits(lo);
      assert e[0] == '%' && HexValue(e[1]) == hi && HexValue(e[2]) == lo;
      assert (e + rest)[3..] == rest;
    } else {
      assert (e + rest)[1..] == rest;
    }
  }

  lemma {:induction false} UnquoteLowerQuote(s: Octets)
    ensures Unquote(Lower(Quote(s, true))) == Lower(s)
  {
    if s != [] {
      UnquoteLowerQuote(s[1..]);
      LowerConcat(EncodeOctet(s[0], true), Quote(s[1..], true));
      UnquoteLowerOctet(s[0], Lower(Quote(s[1..], true)));
    }
  }

  /** Lower-casing an encoded name loses the case of its letters and nothing else. */
  lemma {:induction false} LowerQuoteByLowerName(s: Octets, t: Octets)
    requires Lower(s) == Lower(t)
    ensures Lower(Quote(s, true)) == Lower(Quote(t, true))
  {
    assert |s| == |t| by { assert |Lower(s)| == |Lower(t)|; }
    if s != [] {
      assert Lower(s[1..]) == Lower(s)[1..] && Lower(t[1..]) == Lower(t)[1..];
      LowerQuoteByLowerName(s[1..], t[1..]);
      assert LowerChar(s[0]) == LowerChar(t[0]) by { assert Lower(s)[0] == Lower(t)[0]; }
      LowerConcat(EncodeOctet(s[0], true), Quote(s[1..], true));
      LowerConcat(EncodeOctet(t[0], true), Quote(t[1..], true));
      assert s[0] == t[0] || (EncodeOctet(s[0], true) == [s[0]] && EncodeOctet(t[0], true) == [t[0]]);
      assert Lower(EncodeOctet(s[0], true)) == Lower(EncodeOctet(t[0], true));
    }
  }

  lemma LowerBase(f: string, ns: string, n: Octets)
    requires Word(f) && Word(ns) && n != []
    ensures Lower(Base(f, ns, n)) == "pkg:" + f + "/" + ns + "/" + Lower(Quote(n, true))
  {
    WordIsLower(f);
    WordIsLower(ns);
    LowerConcat("pkg:" + f + "/" + ns + "/", Quote(n, true));
    LowerConcat("pkg:" + f + "/" + ns, "/");
    LowerConcat("pkg:" + f + "/", ns);
    LowerConcat("pkg:" + f, "/");
    LowerConcat("pkg:", f);
  }

  lemma LowerBaseParts(f: string, ns: string, n: Octets)
    requires Word(f) && Word(ns) && n != []
    ensures var tail := Lower(Base(f, ns, n))[4..];
            && Before(tail, '/') == f
            && Before(After(tail, '/'), '/') == ns
            && After(After(tail, '/'), '/') == Lower(Quote(n, true))
  {
    LowerBase(f, ns, n);
    SplitPath(f, ns, Lower(Quote(n, true)));
  }

  /** Two derived packages share a matching identity exactly when they differ at most in version,
      architecture and the letter case of the name. */
  lemma IdentityMergesOnlyCase(f: string, ns: string, n: Octets, v: Octets, a: Option<Octets>,
                               f': string, ns': string, n': Octets, v': Octets, a': Option<Octets>)
    requires Word(f) && Word(ns) && n != [] && Word(f') && Word(ns') && n' != []
    ensures StripIdentity(Print(f, ns, n, v, a)) == StripIdentity(Print(f', ns', n', v', a'))
            <==> f == f' && ns == ns' && Lower(n) == Lower(n')
  {
    PrintRoundTrip(f, ns, n, v, a);
    PrintRoundTrip(f', ns', n', v', a');
    LowerBaseParts(f, ns, n);
    LowerBaseParts(f', ns', n');
    UnquoteLowerQuote(n);
    UnquoteLowerQuote(n');
    if f == f' && ns == ns' && Lower(n) == Lower(n') {
      LowerQuoteByLowerName(n, n');
      LowerBase(f, ns, n);
      LowerBase(f', ns', n');
    }
  }

  // -- what is derived ----------------------------------------------------------------------------

  /** A longer word weighs more, and of two equally long ones the alphabetically first. */
  function Weight(word: string): int
    requires word != ""
  {
    1000 * |word| - word[0] as int
  }

  lemma NeedlesDescend(m: nat, n: nat)
    requires m < n < |NEEDLES|
    ensures NEEDLES[m].0 != "" && NEEDLES[n].0 != "" && Weight(NEEDLES[m].0) > Weight(NEEDLES[n].0)
  {
    var weights := [8903, 7889, 6886, 5903, 5901, 5898, 5889, 5886, 4886, 3903, 3886, 3885];
    assert forall k :: 0 <= k < 12 ==> NEEDLES[k].0 != "" && Weight(NEEDLES[k].0) == weights[k];
  }

  /** A vendor word names itself, but for two names of Red Hat and one of Amazon. */
  lemma NeedlesNameThemselves(n: nat)
    requires n < |NEEDLES|
    ensures NEEDLES[n].1 ==
            (match NEEDLES[n].0 case "red hat" => "redhat" case "rhel" => "redhat" case "amzn" => "amazon" case word => word)
  {}

  /** The heaviest vendor word found in the text decides, so openSUSE is never taken for SUSE; without
      any there is no distribution. */
  lemma LongestVendorWord(vendor: string)
    ensures RpmNamespace(vendor).None? ==> forall n :: 0 <= n < |NEEDLES| ==> !Contains(vendor, NEEDLES[n].0)
    ensures RpmNamespace(vendor).Some? ==>
              exists n :: 0 <= n < |NEEDLES| && Contains(vendor, NEEDLES[n].0) && RpmNamespace(vendor) == Some(NEEDLES[n].1)
                && forall m :: 0 <= m < |NEEDLES| && m != n && Contains(vendor, NEEDLES[m].0) ==>
                     NEEDLES[m].0 != "" && NEEDLES[n].0 != "" && Weight(NEEDLES[m].0) < Weight(NEEDLES[n].0)
  {
    FirstNeedleIsFirst(vendor, NEEDLES);
    if RpmNamespace(vendor).Some? {
      var n :| 0 <= n < |NEEDLES| && RpmNamespace(vendor).value == NEEDLES[n].1 && Contains(vendor, NEEDLES[n].0)
               && forall m :: 0 <= m < n ==> !Contains(vendor, NEEDLES[m].0);
      forall m | 0 <= m < |NEEDLES| && m != n && Contains(vendor, NEEDLES[m].0)
        ensures NEEDLES[m].0 != "" && NEEDLES[n].0 != "" && Weight(NEEDLES[m].0) < Weight(NEEDLES[n].0)
      {
        NeedlesDescend(n, m);
      }
    }
  }

  /** Exactly when a package URL is derived, and of which type and namespace: a row without one, with a
      name and a real version, from a Debian or Ubuntu agent, of Alpine's format, or from a known vendor. */
  lemma DerivedExactly(p: PackageRow, distro: string)
    ensures var name, version, format :=
              Strip(p.name.GetOr([])), Strip(p.version.GetOr([])), Lower(Strip(p.format.GetOr([])));
            var deb := format == "deb" && (Contains(distro, "ubuntu") || Contains(distro, "debian"));
            var rpm := format == "rpm" && RpmNamespace(Lower(Strip(p.vendor.GetOr([])))).Some? && Strip(p.vendor.GetOr([])) != "";
            && (Derive(p, distro).Derived? <==>
                  && Strip(p.purl.GetOr([])) == "" && name != "" && version != ""
                  && Lower(version) !in {"-", "(none)", "unknown", "n/a"}
                  && (deb || format == "apk" || rpm))
            && (Derive(p, distro).Present? <==> Strip(p.purl.GetOr([])) != "")
            && (Derive(p, distro).Present? ==> Derive(p, distro).purl == Strip(p.purl.GetOr([])))
            && (Derive(p, distro).Derived? ==>
                  && Derive(p, distro).format == format
                  && var namespace := Namespace(format, Clean(p.vendor), distro);
                     && (deb ==> namespace == Ok(if Contains(distro, "ubuntu") then "ubuntu" else "debian"))
                     && (format == "apk" ==> namespace == Ok("alpine"))
                     && (rpm ==> namespace == Ok(RpmNamespace(Lower(Strip(p.vendor.GetOr([])))).value)))
  {
    assert Strip("") == "";
    assert |Lower(Strip(p.version.GetOr([])))| == |Strip(p.version.GetOr([]))|;
  }

  /** A letter, a digit, or one of the punctuation marks a package URL keeps. */
  predicate Plain(c: char) {
    || 'a' <= c <= 'z' || 'A' <= c <= 'Z' || '0' <= c <= '9'
    || c == '.' || c == '_' || c == '-' || c == '~' || c == '+'
  }

  lemma OctetPrintedAsIs(c: Octet)
    ensures Plain(c) ==> EncodeOctet(c, true) == [c]
    ensures !Plain(c) ==> |EncodeOctet(c, true)| == 3
  {}

  /** Ordinary names and versions are printed as they are; nothing else is. */
  lemma {:induction false} PlainPrintedAsIs(s: Octets)
    ensures Quote(s, true) == s <==> forall k :: 0 <= k < |s| ==> Plain(s[k])
  {
    if s != [] {
      var e, rest := EncodeOctet(s[0], true), Quote(s[1..], true);
      PlainPrintedAsIs(s[1..]);
      OctetPrintedAsIs(s[0]);
      assert forall k :: 0 < k < |s| ==> s[k] == s[1..][k - 1];
      assert forall k :: 0 <= k < |s[1..]| ==> s[1..][k] == s[k + 1];
      if Plain(s[0]) {
        assert Quote(s, true)[1..] == rest;
        assert s == [s[0]] + s[1..];
      } else {
        assert |e + rest| > |s|;
      }
    }
  }

  /** Why a row without a package URL is skipped, in this order. */
  lemma SkipReasons(p: PackageRow, distro: string)
    requires Derive(p, distro).Skipped?
    ensures var name, version, format :=
              Strip(p.name.GetOr([])), Strip(p.version.GetOr([])), Lower(Strip(p.format.GetOr([])));
            Derive(p, distro).reason ==
            if name == "" || version == "" then "missing_name_or_version"
            else if Lower(version) in {"-", "(none)", "unknown", "n/a"} then "invalid_version"
            else if format == "deb" then "deb_distro_unknown"
            else if format == "rpm" then "rpm_namespace_unknown"
            else if format == "" then "missing_format"
            else "unsupported_format:" + format
  {
    assert Strip("") == "" && Lower("") == "";
    assert |Lower(Strip(p.version.GetOr([])))| == |Strip(p.version.GetOr([]))|;
  }

  /** What the SBOM parser makes of a well-formed package URL, one final newline allowed. */
  lemma ParsesWellFormed(kind: string, rest: string, newline: bool)
    requires kind != "" && '/' !in kind && rest != "" && '\n' !in rest
    ensures ParsePurl("pkg:" + kind + "/" + rest + if newline then "\n" else "") ==
            (Some(Lower(kind)), Some(Before(Before(Before(rest, '@'), '?'), '#')))
  {
    var tail := rest + if newline then "\n" else "";
    var purl := "pkg:" + kind + "/" + tail;
    assert purl == "pkg:" + kind + "/" + rest + if newline then "\n" else "";
    assert purl[4..] == kind + ['/'] + tail;
    SplitFirst(kind, '/', tail);
    if newline {
      assert tail[..|tail| - 1] == rest;
    } else {
      assert tail == rest;
    }
  }

  /** Anything else is kept whole as a name, and an empty text has none. */
  lemma ParsesMalformed(purl: string)
    requires !("pkg:" <= purl) || '/' !in purl[4..] || purl[4] == '/'
    ensures ParsePurl(purl) == if purl == "" then (None, None) else (None, Some(purl))
  {}

  /** A package URL that ends at its type, or breaks off in a line, is kept whole, too. */
  lemma ParsesBroken(kind: string, rest: string)
    requires kind != "" && '/' !in kind
    requires rest == "" || rest == "\n" || exists k :: 0 <= k < |rest| - 1 && rest[k] == '\n'
    ensures ParsePurl("pkg:" + kind + "/" + rest) == (None, Some("pkg:" + kind + "/" + rest))
  {
    var purl := "pkg:" + kind + "/" + rest;
    assert purl[4..] == kind + ['/'] + rest;
    SplitFirst(kind, '/', rest);
    if k :| 0 <= k < |rest| - 1 && rest[k] == '\n' {
      assert rest[..|rest| - 1][k] == '\n';
    }
  }
}
