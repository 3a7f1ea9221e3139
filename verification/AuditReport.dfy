/** Findings taken from a `pnpm audit` report and the normalisers applied to them
    (tools/check_pnpm_audit_exceptions.py, pick_advisory_id, iter_vulns, normalize_*). */
module AuditReport {
  import opened Wrappers
  import opened Text

  /** A JSON value where the report carries an identifier: absent, text or a number. */
  datatype Scalar = Missing | Text(text: string) | Number(n: int)

  predicate Truthy(s: Scalar) {
    match s
    case Missing => false
    case Text(t) => t != ""
    case Number(n) => n != 0
  }

  function Or(a: Scalar, b: Scalar): Scalar {
    if Truthy(a) then a else b
  }

  function Digits(n: nat): string {
    if n < 10 then [('0' as int + n) as char] else Digits(n / 10) + Digits(n % 10)
  }

  /** `str(value)`, with the empty string for None. */
  function Show(s: Scalar): string {
    match s
    case Missing => ""
    case Text(t) => t
    case Number(n) => if n < 0 then "-" + Digits(-n) else Digits(n)
  }

  datatype Advisory = Advisory(
    moduleName: Scalar, name: Scalar, severity: Option<string>,
    githubAdvisoryId: Scalar, url: Scalar, cves: seq<Scalar>, id: Scalar,
    title: Scalar, advisory: Scalar, overview: Scalar)

  datatype ViaItem =
    | ViaAdvisory(githubAdvisoryId: Scalar, url: Scalar, source: Scalar, title: Scalar, name: Scalar, advisory: Scalar)
    | ViaName(text: string)
    | ViaUnknown

  datatype Via = ViaList(items: seq<ViaItem>) | ViaText(text: string) | ViaNothing

  datatype Vulnerability = Vulnerability(name: string, severity: Option<string>, via: Via)

  /** Either section may be absent or of an unexpected type. */
  datatype Report = Report(advisories: Option<seq<Advisory>>, vulnerabilities: Option<seq<Vulnerability>>)

  datatype Finding = Finding(name: Scalar, severity: Option<string>, advisory: Scalar)

  function PickAdvisoryId(a: Advisory): (id: Scalar)
    ensures Truthy(id) <==>
            Truthy(a.githubAdvisoryId) || Truthy(a.url) || (a.cves != [] && Truthy(a.cves[0])) ||
            (a.id != Missing && a.id != Text("")) ||
            Truthy(a.title) || Truthy(a.advisory) || Truthy(a.overview)
  {
    var cve := if a.cves == [] then Missing else a.cves[0];
    var id := if a.id.Number? then Text(Show(a.id)) else a.id;
    ShowNonEmpty(a.id);
    Or(a.githubAdvisoryId, Or(a.url, Or(cve, Or(id, Or(a.title, Or(a.advisory, a.overview))))))
  }

  /** What an or-chain over some candidates is: the first usable one, or the last if none is usable. */
  ghost predicate FirstOf(cs: seq<Scalar>, x: Scalar) {
    exists k :: FirstAt(cs, k, x)
  }

  predicate FirstAt(cs: seq<Scalar>, k: int, x: Scalar) {
    0 <= k < |cs| && x == cs[k] && (forall j :: 0 <= j < k ==> !Truthy(cs[j])) && (Truthy(cs[k]) || k == |cs| - 1)
  }

  /** Where an identifier is looked for, the most stable one first. */
  function Candidates(a: Advisory): seq<Scalar> {
    [a.githubAdvisoryId, a.url, if a.cves == [] then Missing else a.cves[0],
     if a.id == Missing then Missing else Text(Show(a.id)), a.title, a.advisory, a.overview]
  }

  lemma FirstOfTwo(a: Scalar, b: Scalar)
    ensures FirstOf([a, b], Or(a, b))
  {
    assert FirstAt([a, b], if Truthy(a) then 0 else 1, Or(a, b));
  }

  /** One more candidate in front. */
  lemma FirstOfMore(a: Scalar, cs: seq<Scalar>, x: Scalar)
    requires FirstOf(cs, x)
    ensures FirstOf([a] + cs, Or(a, x))
  {
    var k :| FirstAt(cs, k, x);
    assert FirstAt([a] + cs, if Truthy(a) then 0 else k + 1, Or(a, x));
  }

  lemma FirstOfFour(a: Scalar, b: Scalar, c: Scalar, d: Scalar)
    ensures FirstOf([a, b, c, d], Or(a, Or(b, Or(c, d))))
  {
    FirstOfTwo(c, d);
    FirstOfMore(b, [c, d], Or(c, d));
    assert [b] + [c, d] == [b, c, d] && [a] + [b, c, d] == [a, b, c, d];
    FirstOfMore(a, [b, c, d], Or(b, Or(c, d)));
  }

  lemma FirstOfFive(a: Scalar, b: Scalar, c: Scalar, d: Scalar, e: Scalar)
    ensures FirstOf([a, b, c, d, e], Or(a, Or(b, Or(c, Or(d, e)))))
  {
    FirstOfFour(b, c, d, e);
    FirstOfMore(a, [b, c, d, e], Or(b, Or(c, Or(d, e))));
    assert [a] + [b, c, d, e] == [a, b, c, d, e];
  }

  /** The identifier of an advisory is the first usable candidate, in that order. */
  lemma PickIsFirst(a: Advisory)
    ensures FirstOf(Candidates(a), PickAdvisoryId(a))
  {
    var cs := Candidates(a);
    var last := [cs[2], cs[3], cs[4], cs[5], cs[6]];
    var x := Or(cs[2], Or(cs[3], Or(cs[4], Or(cs[5], cs[6]))));
    assert PickAdvisoryId(a) == Or(cs[0], Or(cs[1], x)) by {
      ShowNonEmpty(a.id);
    }
    FirstOfFive(cs[2], cs[3], cs[4], cs[5], cs[6]);
    FirstOfMore(cs[1], last, x);
    FirstOfMore(cs[0], [cs[1]] + last, Or(cs[1], x));
    assert [cs[0]] + ([cs[1]] + last) == cs;
  }

  lemma ShowNonEmpty(s: Scalar)
    ensures s.Number? ==> Show(s) != ""
  {
    if s.Number? {
      assert forall n: nat :: Digits(n) != "" by {
        forall n: nat ensures Digits(n) != "" { DigitsNonEmpty(n); }
      }
    }
  }

  lemma {:induction false} DigitsNonEmpty(n: nat)
    ensures Digits(n) != ""
  {
    if n >= 10 {
      DigitsNonEmpty(n / 10);
    }
  }

  function ViaId(item: ViaItem): Scalar {
    match item
    case ViaAdvisory(ghsa, url, source, title, name, _) => Or(ghsa, Or(url, Or(source, Or(title, name))))
    case ViaName(t) => Text(t)
    case ViaUnknown => Missing
  }

  /** Where the identifier of an object in `via` is looked for. */
  function ViaCandidates(item: ViaItem): seq<Scalar>
    requires item.ViaAdvisory?
  {
    [item.githubAdvisoryId, item.url, item.source, item.title, item.name]
  }

  /** The identifier of an object in `via` is the first usable candidate, in that order. */
  lemma ViaIsFirst(item: ViaItem)
    requires item.ViaAdvisory?
    ensures FirstOf(ViaCandidates(item), ViaId(item))
  {
    FirstOfFive(item.githubAdvisoryId, item.url, item.source, item.title, item.name);
  }

  function ViaIds(via: Via): seq<Scalar> {
    match via
    case ViaList(items) => seq(|items|, i requires 0 <= i < |items| => ViaId(items[i]))
    case ViaText(t) => [Text(t)]
    case ViaNothing => []
  }

  // ----- titles, which only text can be joined into -----

  /** `join` over titles raises at one that is neither empty nor text. */
  datatype ReportError = TitleNotText(vulnerability: string)

  function ViaTitle(item: ViaItem): Scalar {
    match item
    case ViaAdvisory(_, url, source, title, _, advisory) => Or(title, Or(url, Or(advisory, source)))
    case ViaName(t) => Text(t)
    case ViaUnknown => Missing
  }

  function ViaTitles(via: Via): seq<Scalar> {
    match via
    case ViaList(items) => seq(|items|, i requires 0 <= i < |items| => ViaTitle(items[i]))
    case ViaText(t) => [Text(t)]
    case ViaNothing => []
  }

  predicate Unjoinable(title: Scalar) {
    title.Number? && Truthy(title)
  }

  /** Some title of the vulnerability makes `join` raise. */
  predicate Raises(v: Vulnerability) {
    exists i :: 0 <= i < |ViaTitles(v.via)| && Unjoinable(ViaTitles(v.via)[i])
  }

  function FirstRaising(vs: seq<Vulnerability>): Option<string> {
    if vs == [] then None else if Raises(vs[0]) then Some(vs[0].name) else FirstRaising(vs[1..])
  }

  /** What the generator ends in: an exception, or all findings. */
  function Generated(report: Report): Result<seq<Finding>, ReportError> {
    var raising := FirstRaising(report.vulnerabilities.GetOr([]));
    if raising.Some? then Failure(TitleNotText(raising.value)) else Success(Findings(report))
  }

  lemma {:induction false} FirstRaisingExactly(vs: seq<Vulnerability>)
    ensures FirstRaising(vs).Some? <==> exists i :: 0 <= i < |vs| && Raises(vs[i])
  {
    if vs != [] {
      FirstRaisingExactly(vs[1..]);
      if i :| 0 <= i < |vs| && Raises(vs[i]) && i > 0 {
        assert vs[1..][i - 1] == vs[i];
      }
      if i :| 0 <= i < |vs[1..]| && Raises(vs[1..][i]) {
        assert vs[i + 1] == vs[1..][i];
      }
    }
  }

  lemma {:induction false} FirstRaisingAt(vs: seq<Vulnerability>, i: nat)
    requires i < |vs| && Raises(vs[i]) && forall j :: 0 <= j < i ==> !Raises(vs[j])
    ensures FirstRaising(vs) == Some(vs[i].name)
    decreases i
  {
    if i > 0 {
      assert !Raises(vs[0]);
      FirstRaisingAt(vs[1..], i - 1);
    }
  }

  lemma RaisesAt(v: Vulnerability)
    ensures Raises(v) <==>
            HasNumericTitle(v)
  {
    if Raises(v) {
      var j :| 0 <= j < |ViaTitles(v.via)| && Unjoinable(ViaTitles(v.via)[j]);
      assert v.via.ViaList? && ViaTitles(v.via)[j] == ViaTitle(v.via.items[j]);
      NumericExactly(v.via.items[j]);
    }
    if HasNumericTitle(v) {
      var j :| 0 <= j < |v.via.items| && NumericTitle(v.via.items[j]);
      NumericExactly(v.via.items[j]);
      assert Unjoinable(ViaTitles(v.via)[j]);
    }
  }

  ghost predicate HasNumericTitle(v: Vulnerability) {
    v.via.ViaList? && exists j :: 0 <= j < |v.via.items| && NumericTitle(v.via.items[j])
  }

  /** An object in `via` whose first usable title field is a number. */
  ghost predicate NumericTitle(item: ViaItem) {
    item.ViaAdvisory? &&
    exists n :: n != 0 && FirstOf([item.title, item.url, item.advisory, item.source], Number(n))
  }

  lemma FirstOfUnique(cs: seq<Scalar>, x: Scalar, y: Scalar)
    requires FirstOf(cs, x) && FirstOf(cs, y)
    ensures x == y
  {
  }

  lemma NumericExactly(item: ViaItem)
    ensures NumericTitle(item) <==> item.ViaAdvisory? && Unjoinable(ViaTitle(item))
  {
    if item.ViaAdvisory? {
      var cs := [item.title, item.url, item.advisory, item.source];
      FirstOfFour(item.title, item.url, item.advisory, item.source);
      forall x | FirstOf(cs, x) { FirstOfUnique(cs, x, ViaTitle(item)); }
      if Unjoinable(ViaTitle(item)) {
        assert FirstOf(cs, Number(ViaTitle(item).n));
      }
    }
  }

  ghost predicate FirstNumeric(vs: seq<Vulnerability>, i: int)
    requires 0 <= i < |vs|
  {
    HasNumericTitle(vs[i]) && forall j :: 0 <= j < i ==> !HasNumericTitle(vs[j])
  }

  /** The generator raises exactly when some vulnerability names a number where a title is looked
      for, whatever its severity; and then at the first. */
  lemma GeneratorRaisesExactly(report: Report)
    ensures Generated(report).Failure? <==>
            report.vulnerabilities.Some? &&
            exists i :: 0 <= i < |report.vulnerabilities.value| && HasNumericTitle(report.vulnerabilities.value[i])
    ensures forall i :: 0 <= i < |report.vulnerabilities.GetOr([])| && FirstNumeric(report.vulnerabilities.value, i) ==>
              Generated(report) == Failure(TitleNotText(report.vulnerabilities.value[i].name))
  {
    var vs := report.vulnerabilities.GetOr([]);
    FirstRaisingExactly(vs);
    forall i | 0 <= i < |vs| ensures Raises(vs[i]) <==> HasNumericTitle(vs[i]) {
      RaisesAt(vs[i]);
    }
    forall i: nat | i < |vs| && FirstNumeric(vs, i) { FirstRaisingAt(vs, i); }
  }

  // ----- findings -----

  function AdvisoryFinding(a: Advisory): Finding {
    Finding(Or(a.moduleName, a.name), a.severity, PickAdvisoryId(a))
  }

  /** One finding for every usable identifier, none when there is no such identifier. */
  function Usable(name: string, severity: Option<string>, ids: seq<Scalar>): seq<Finding> {
    if ids == [] then []
    else (if Truthy(ids[0]) then [Finding(Text(name), severity, ids[0])] else []) + Usable(name, severity, ids[1..])
  }

  function AdvisoryFindings(advisories: seq<Advisory>): seq<Finding> {
    if advisories == [] then [] else [AdvisoryFinding(advisories[0])] + AdvisoryFindings(advisories[1..])
  }

  function VulnerabilityFindings(vs: seq<Vulnerability>): seq<Finding> {
    if vs == [] then [] else Usable(vs[0].name, vs[0].severity, ViaIds(vs[0].via)) + VulnerabilityFindings(vs[1..])
  }

  function Findings(report: Report): seq<Finding> {
    AdvisoryFindings(report.advisories.GetOr([])) + VulnerabilityFindings(report.vulnerabilities.GetOr([]))
  }

  lemma {:induction false} AdvisoryFindingsAppend(a: seq<Advisory>, b: seq<Advisory>)
    ensures AdvisoryFindings(a + b) == AdvisoryFindings(a) + AdvisoryFindings(b)
  {
    if a == [] {
      assert a + b == b;
    } else {
      assert (a + b)[0] == a[0] && (a + b)[1..] == a[1..] + b;
      AdvisoryFindingsAppend(a[1..], b);
    }
  }

  lemma {:induction false} VulnerabilityFindingsAppend(a: seq<Vulnerability>, b: seq<Vulnerability>)
    ensures VulnerabilityFindings(a + b) == VulnerabilityFindings(a) + VulnerabilityFindings(b)
  {
    if a == [] {
      assert a + b == b;
    } else {
      assert (a + b)[0] == a[0] && (a + b)[1..] == a[1..] + b;
      VulnerabilityFindingsAppend(a[1..], b);
    }
  }

  lemma OneMoreAdvisory(all: seq<Advisory>, i: nat)
    requires i < |all|
    ensures AdvisoryFindings(all[..i + 1]) == AdvisoryFindings(all[..i]) + [AdvisoryFinding(all[i])]
  {
    AdvisoryFindingsAppend(all[..i], [all[i]]);
    assert all[..i + 1] == all[..i] + [all[i]];
    assert AdvisoryFindings([all[i]]) == [AdvisoryFinding(all[i])];
  }

  lemma OneMoreVulnerability(all: seq<Vulnerability>, i: nat)
    requires i < |all|
    ensures VulnerabilityFindings(all[..i + 1]) ==
            VulnerabilityFindings(all[..i]) + Usable(all[i].name, all[i].severity, ViaIds(all[i].via))
  {
    VulnerabilityFindingsAppend(all[..i], [all[i]]);
    assert all[..i + 1] == all[..i] + [all[i]];
    assert VulnerabilityFindings([all[i]]) == Usable(all[i].name, all[i].severity, ViaIds(all[i].via));
  }

  lemma {:induction false} UsableAppend(name: string, severity: Option<string>, a: seq<Scalar>, b: seq<Scalar>)
    ensures Usable(name, severity, a + b) == Usable(name, severity, a) + Usable(name, severity, b)
  {
    if a == [] {
      assert a + b == b;
    } else {
      assert (a + b)[0] == a[0] && (a + b)[1..] == a[1..] + b;
      UsableAppend(name, severity, a[1..], b);
    }
  }

  /** The generator: both sections of the report, in order. */
  method IterVulns(report: Report) returns (r: Result<seq<Finding>, ReportError>)
    ensures r == Generated(report)
  {
    var out: seq<Finding> := [];
    if report.advisories.Some? {
      out := IterAdvisories(report.advisories.value);
    }
    if report.vulnerabilities.Some? {
      var more := IterVulnerabilities(report.vulnerabilities.value);
      if more.Failure? {
        return more;
      }
      out := out + more.value;
    } else {
      assert out == out + VulnerabilityFindings([]);
    }
    return Success(out);
  }

  method IterAdvisories(all: seq<Advisory>) returns (out: seq<Finding>)
    ensures out == AdvisoryFindings(all)
  {
    out := [];
    for i := 0 to |all|
      invariant out == AdvisoryFindings(all[..i])
    {
      OneMoreAdvisory(all, i);
      out := out + [AdvisoryFinding(all[i])];
    }
    assert all[..|all|] == all;
  }

  method IterVulnerabilities(all: seq<Vulnerability>) returns (r: Result<seq<Finding>, ReportError>)
    ensures var raising := FirstRaising(all);
            r == if raising.Some? then Failure(TitleNotText(raising.value)) else Success(VulnerabilityFindings(all))
  {
    var out: seq<Finding> := [];
    for i := 0 to |all|
      invariant out == VulnerabilityFindings(all[..i]) && FirstRaising(all) == FirstRaising(all[i..])
    {
      assert all[i..][1..] == all[i + 1..];
      OneMoreVulnerability(all, i);
      var found := VulnerabilityIds(all[i]);
      if found.Failure? {
        return found;
      }
      out := out + found.value;
    }
    assert all[..|all|] == all;
    return Success(out);
  }

  lemma MoreTitles(v: Vulnerability, i: nat)
    requires v.via.ViaList? && i < |v.via.items|
    ensures ViaTitles(v.via)[..i + 1] == ViaTitles(v.via)[..i] + [ViaTitle(v.via.items[i])]
    ensures ViaIds(v.via)[..i + 1] == ViaIds(v.via)[..i] + [ViaId(v.via.items[i])]
  {
  }

  predicate AnyUnjoinable(titles: seq<Scalar>) {
    exists i :: 0 <= i < |titles| && Unjoinable(titles[i])
  }

  lemma AnyUnjoinableAppend(a: seq<Scalar>, t: Scalar)
    ensures AnyUnjoinable(a + [t]) <==> AnyUnjoinable(a) || Unjoinable(t)
  {
    if i :| 0 <= i < |a| && Unjoinable(a[i]) {
      assert (a + [t])[i] == a[i];
    }
    if Unjoinable(t) {
      assert (a + [t])[|a|] == t;
    }
  }

  /** The items of `via`: identifiers and titles are collected side by side. */
  method CollectVia(v: Vulnerability) returns (advisories: seq<Scalar>, titles: seq<Scalar>)
    ensures Usable(v.name, v.severity, advisories) == Usable(v.name, v.severity, ViaIds(v.via))
    ensures AnyUnjoinable(titles) <==> Raises(v)
  {
    advisories, titles := [], [];
    if v.via.ViaList? {
      for i := 0 to |v.via.items|
        invariant Usable(v.name, v.severity, advisories) == Usable(v.name, v.severity, ViaIds(v.via)[..i])
        invariant AnyUnjoinable(titles) <==> AnyUnjoinable(ViaTitles(v.via)[..i])
      {
        var item := v.via.items[i];
        MoreTitles(v, i);
        UsableAppend(v.name, v.severity, ViaIds(v.via)[..i], [ViaId(item)]);
        UsableAppend(v.name, v.severity, advisories, [ViaId(item)]);
        AnyUnjoinableAppend(ViaTitles(v.via)[..i], ViaTitle(item));
        AnyUnjoinableAppend(titles, ViaTitle(item));
        if item.ViaAdvisory? {
          advisories := advisories
            + [Or(item.githubAdvisoryId, Or(item.url, Or(item.source, Or(item.title, item.name))))];
          titles := titles + [Or(item.title, Or(item.url, Or(item.advisory, item.source)))];
        } else if item.ViaName? {
          advisories := advisories + [Text(item.text)];
          titles := titles + [Text(item.text)];
        }
      }
      assert ViaIds(v.via)[..|v.via.items|] == ViaIds(v.via);
      assert ViaTitles(v.via)[..|v.via.items|] == ViaTitles(v.via);
    } else if v.via.ViaText? {
      advisories := advisories + [Text(v.via.text)];
      titles := titles + [Text(v.via.text)];
    }
  }

  /** The body of the second loop: join the titles, then yield the usable identifiers. */
  method VulnerabilityIds(v: Vulnerability) returns (r: Result<seq<Finding>, ReportError>)
    ensures r == if Raises(v) then Failure(TitleNotText(v.name))
                 else Success(Usable(v.name, v.severity, ViaIds(v.via)))
  {
    var advisories, titles := CollectVia(v);
    for i := 0 to |titles|
      invariant !AnyUnjoinable(titles[..i])
    {
      assert titles[..i + 1] == titles[..i] + [titles[i]];
      AnyUnjoinableAppend(titles[..i], titles[i]);
      if Truthy(titles[i]) && !titles[i].Text? {
        return Failure(TitleNotText(v.name));
      }
    }
    assert titles[..|titles|] == titles;
    var out: seq<Finding> := [];
    for i := 0 to |advisories|
      invariant out == Usable(v.name, v.severity, advisories[..i])
    {
      assert advisories[..i + 1] == advisories[..i] + [advisories[i]];
      UsableAppend(v.name, v.severity, advisories[..i], [advisories[i]]);
      if Truthy(advisories[i]) {
        out := out + [Finding(Text(v.name), v.severity, advisories[i])];
      }
    }
    assert advisories[..|advisories|] == advisories;
    return Success(out);
  }

  lemma {:induction false} UsableMember(name: string, severity: Option<string>, ids: seq<Scalar>, f: Finding)
    ensures f in Usable(name, severity, ids) <==>
            f.name == Text(name) && f.severity == severity && Truthy(f.advisory) && f.advisory in ids
  {
    if ids != [] {
      UsableMember(name, severity, ids[1..], f);
    }
  }

  /** A vulnerability yields nothing exactly when it has no usable identifier. */
  lemma {:induction false} NothingUsable(name: string, severity: Option<string>, ids: seq<Scalar>)
    ensures Usable(name, severity, ids) == [] <==> forall id :: id in ids ==> !Truthy(id)
  {
    if ids != [] {
      NothingUsable(name, severity, ids[1..]);
      assert forall id :: id in ids <==> id == ids[0] || id in ids[1..];
    }
  }

  // ----- normalisers -----

  function Lower(s: string): (r: string)
    ensures |r| == |s|
  {
    seq(|s|, i requires 0 <= i < |s| => LowerChar(s[i]))
  }

  function LowerChar(c: char): char {
    if 'A' <= c <= 'Z' then (c as int + 32) as char else c
  }

  function NormalizeSeverity(severity: Option<string>): string {
    Lower(Strip(severity.GetOr("")))
  }

  function NormalizePackage(name: Scalar): string {
    Strip(Show(name))
  }

  function NormalizeAdvisory(advisory: Scalar): string {
    Lower(Strip(Show(advisory)))
  }

  lemma {:induction false} LowerStripLeft(s: string)
    ensures StripLeft(Lower(s)) == Lower(StripLeft(s))
  {
    if s != "" && IsSpace(s[0]) {
      assert Lower(s)[1..] == Lower(s[1..]);
      LowerStripLeft(s[1..]);
    }
  }

  lemma {:induction false} LowerStripRight(s: string)
    ensures StripRight(Lower(s)) == Lower(StripRight(s))
  {
    if s != "" && IsSpace(s[|s| - 1]) {
      assert Lower(s)[..|s| - 1] == Lower(s[..|s| - 1]);
      LowerStripRight(s[..|s| - 1]);
    }
  }

  lemma LowerStrip(s: string)
    ensures Strip(Lower(s)) == Lower(Strip(s)) && Lower(Lower(s)) == Lower(s)
  {
    LowerStripLeft(s);
    LowerStripRight(StripLeft(s));
  }

  // ----- which keys are equal -----

  const UPPER := "ABCDEFGHIJKLMNOPQRSTUVWXYZ"
  const LOWER := "abcdefghijklmnopqrstuvwxyz"

  /** The same character, or the two cases of one letter. */
  predicate SameLetter(c: char, d: char) {
    c == d || exists k :: 0 <= k < 26 && ((c == UPPER[k] && d == LOWER[k]) || (c == LOWER[k] && d == UPPER[k]))
  }

  predicate SameLetters(a: string, b: string) {
    |a| == |b| && forall i :: 0 <= i < |a| ==> SameLetter(a[i], b[i])
  }

  lemma LettersInOrder(k: nat)
    requires k < 26
    ensures UPPER[k] as int == 65 + k && LOWER[k] as int == 97 + k
  {
  }

  lemma SameLetterExactly(c: char, d: char)
    ensures LowerChar(c) == LowerChar(d) <==> SameLetter(c, d)
  {
    forall k: nat | k < 26 { LettersInOrder(k); }
    if LowerChar(c) == LowerChar(d) && c != d {
      var k := LowerChar(c) as int - 97;
      assert 0 <= k < 26;
      LettersInOrder(k);
      assert (c == UPPER[k] && d == LOWER[k]) || (c == LOWER[k] && d == UPPER[k]);
    }
  }

  lemma LowerExactly(a: string, b: string)
    ensures Lower(a) == Lower(b) <==> SameLetters(a, b)
  {
    if |a| == |b| {
      forall i | 0 <= i < |a| { SameLetterExactly(a[i], b[i]); }
      assert forall i :: 0 <= i < |a| ==> Lower(a)[i] == LowerChar(a[i]) && Lower(b)[i] == LowerChar(b[i]);
    }
  }

  /** Lower-casing changes no letter for another and leaves no capital. */
  lemma LowerMeans(s: string)
    ensures SameLetters(Lower(s), s) && forall c :: c in Lower(s) ==> c !in UPPER
  {
    LowerStrip(s);
    LowerExactly(Lower(s), s);
    forall c | c in Lower(s) ensures c !in UPPER {
      if c in UPPER {
        var k :| 0 <= k < |UPPER| && UPPER[k] == c;
        LettersInOrder(k);
      }
    }
  }

  /** Package names agree exactly when they are the same but for padding, letter case included;
      identifiers and severities exactly when they are the same but for padding and letter case. */
  lemma KeysAgreeExactly(a: string, b: string)
    ensures NormalizePackage(Text(a)) == NormalizePackage(Text(b)) <==> Strip(a) == Strip(b)
    ensures NormalizeAdvisory(Text(a)) == NormalizeAdvisory(Text(b)) <==> SameLetters(Strip(a), Strip(b))
    ensures NormalizeSeverity(Some(a)) == NormalizeSeverity(Some(b)) <==> SameLetters(Strip(a), Strip(b))
  {
    LowerExactly(Strip(a), Strip(b));
  }

  /** The number that decimal digits denote. */
  function ValueOf(digits: string): int {
    if digits == "" then 0
    else 10 * ValueOf(digits[..|digits| - 1]) + (digits[|digits| - 1] as int - '0' as int)
  }

  /** A number is looked up by its decimal digits, without leading zeros. */
  lemma {:induction false} DigitsExactly(n: nat)
    ensures Digits(n) != "" && ValueOf(Digits(n)) == n && (n > 0 ==> Digits(n)[0] != '0')
    ensures forall c :: c in Digits(n) ==> '0' <= c <= '9'
  {
    if n >= 10 {
      var front, last := Digits(n / 10), Digits(n % 10);
      DigitsExactly(n / 10);
      assert (front + last)[..|front + last| - 1] == front;
    } else {
      assert Digits(n)[..0] == "";
    }
  }

  /** Padding and letter case of an identifier do not matter; of a package name only padding. */
  lemma KeysIgnorePadding(before: string, s: string, after: string)
    requires AllSpace(before) && AllSpace(after)
    ensures NormalizePackage(Text(before + s + after)) == NormalizePackage(Text(s))
    ensures NormalizeAdvisory(Text(before + Lower(s) + after)) == NormalizeAdvisory(Text(s))
    ensures NormalizeSeverity(Some(before + Lower(s) + after)) == NormalizeSeverity(Some(s))
  {
    StripBetween(before, s, after);
    StripBetween(before, Lower(s), after);
    LowerStrip(s);
    LowerStrip(Strip(s));
  }
}
