/** Which findings the generator yields, read off the report itself, and in which order
    (tools/check_pnpm_audit_exceptions.py, pick_advisory_id and iter_vulns). */
module AuditFindings {
  import opened Wrappers
  import opened AuditReport

  // ----- which findings -----

  ghost predicate ItemIdentifies(item: ViaItem, id: Scalar) {
    match item
    case ViaAdvisory(ghsa, url, source, title, name, _) => FirstOf([ghsa, url, source, title, name], id)
    case ViaName(t) => id == Text(t)
    case ViaUnknown => false
  }

  /** A usable identifier that `via` gives. */
  ghost predicate Identifies(via: Via, id: Scalar) {
    Truthy(id) &&
    match via
    case ViaList(items) => exists j :: 0 <= j < |items| && ItemIdentifies(items[j], id)
    case ViaText(t) => id == Text(t)
    case ViaNothing => false
  }

  /** The finding of an advisory: the module's name, or else the name. */
  ghost predicate AdvisoryYields(a: Advisory, f: Finding) {
    FirstOf([a.moduleName, a.name], f.name) && f.severity == a.severity && FirstOf(Candidates(a), f.advisory)
  }

  ghost predicate VulnerabilityYields(v: Vulnerability, f: Finding) {
    f.name == Text(v.name) && f.severity == v.severity && Identifies(v.via, f.advisory)
  }

  ghost predicate Yields(report: Report, f: Finding) {
    (report.advisories.Some? &&
     exists i :: 0 <= i < |report.advisories.value| && AdvisoryYields(report.advisories.value[i], f)) ||
    (report.vulnerabilities.Some? &&
     exists i :: 0 <= i < |report.vulnerabilities.value| && VulnerabilityYields(report.vulnerabilities.value[i], f))
  }

  lemma OfAdvisory(a: Advisory, f: Finding)
    ensures f == AdvisoryFinding(a) <==> AdvisoryYields(a, f)
  {
    FirstOfTwo(a.moduleName, a.name);
    PickIsFirst(a);
    if AdvisoryYields(a, f) {
      FirstOfUnique([a.moduleName, a.name], f.name, Or(a.moduleName, a.name));
      FirstOfUnique(Candidates(a), f.advisory, PickAdvisoryId(a));
    }
  }

  lemma OfItem(item: ViaItem, id: Scalar)
    requires Truthy(id)
    ensures id == ViaId(item) <==> ItemIdentifies(item, id)
  {
    if item.ViaAdvisory? {
      var cs := [item.githubAdvisoryId, item.url, item.source, item.title, item.name];
      assert cs == ViaCandidates(item);
      ViaIsFirst(item);
      if FirstOf(cs, id) {
        FirstOfUnique(cs, id, ViaId(item));
      }
    }
  }

  lemma IdsExactly(via: Via, id: Scalar)
    requires Truthy(id)
    ensures id in ViaIds(via) <==> Identifies(via, id)
  {
    if via.ViaList? {
      forall j | 0 <= j < |via.items| { OfItem(via.items[j], id); }
      assert forall j :: 0 <= j < |via.items| ==> ViaIds(via)[j] == ViaId(via.items[j]);
    }
  }

  lemma OfVulnerability(v: Vulnerability, f: Finding)
    ensures f in Usable(v.name, v.severity, ViaIds(v.via)) <==> VulnerabilityYields(v, f)
  {
    UsableMember(v.name, v.severity, ViaIds(v.via), f);
    if Truthy(f.advisory) {
      IdsExactly(v.via, f.advisory);
    }
  }

  lemma {:induction false} AdvisoriesExactly(all: seq<Advisory>, f: Finding)
    ensures f in AdvisoryFindings(all) <==> exists i :: 0 <= i < |all| && AdvisoryYields(all[i], f)
  {
    if all != [] {
      OfAdvisory(all[0], f);
      AdvisoriesExactly(all[1..], f);
      assert forall i :: 0 < i < |all| ==> all[i] == all[1..][i - 1];
      assert f in AdvisoryFindings(all[1..]) ==> exists i :: 0 <= i < |all| && AdvisoryYields(all[i], f) by {
        if i :| 0 <= i < |all[1..]| && AdvisoryYields(all[1..][i], f) {
          assert AdvisoryYields(all[i + 1], f);
        }
      }
    }
  }

  lemma {:induction false} VulnerabilitiesExactly(all: seq<Vulnerability>, f: Finding)
    ensures f in VulnerabilityFindings(all) <==> exists i :: 0 <= i < |all| && VulnerabilityYields(all[i], f)
  {
    if all != [] {
      OfVulnerability(all[0], f);
      VulnerabilitiesExactly(all[1..], f);
      assert forall i :: 0 < i < |all| ==> all[i] == all[1..][i - 1];
      assert f in VulnerabilityFindings(all[1..]) ==> exists i :: 0 <= i < |all| && VulnerabilityYields(all[i], f) by {
        if i :| 0 <= i < |all[1..]| && VulnerabilityYields(all[1..][i], f) {
          assert VulnerabilityYields(all[i + 1], f);
        }
      }
    }
  }

  /** The generator yields a finding exactly when an advisory or a usable identifier of a vulnerability
      gives it. */
  lemma FindingsExactly(report: Report, f: Finding)
    requires Generated(report).Success?
    ensures f in Generated(report).value <==> Yields(report, f)
  {
    AdvisoriesExactly(report.advisories.GetOr([]), f);
    VulnerabilitiesExactly(report.vulnerabilities.GetOr([]), f);
  }

  // ----- in which order -----

  function FromAdvisories(all: seq<Advisory>): Report {
    Report(Some(all), None)
  }

  function FromVulnerabilities(all: seq<Vulnerability>): Report {
    Report(None, Some(all))
  }

  function FromItems(name: string, severity: Option<string>, items: seq<ViaItem>): Report {
    FromVulnerabilities([Vulnerability(name, severity, ViaList(items))])
  }

  lemma OfItems(name: string, severity: Option<string>, items: seq<ViaItem>)
    ensures Findings(FromItems(name, severity, items)) == Usable(name, severity, ViaIds(ViaList(items)))
  {
    var v := Vulnerability(name, severity, ViaList(items));
    assert [v][1..] == [];
    assert VulnerabilityFindings([v]) == Usable(name, severity, ViaIds(ViaList(items)));
  }

  /** The items of a vulnerability keep their order, and so do both sections. */
  lemma ItemsInOrder(name: string, severity: Option<string>, a: seq<ViaItem>, b: seq<ViaItem>)
    ensures Findings(FromItems(name, severity, a + b)) ==
            Findings(FromItems(name, severity, a)) + Findings(FromItems(name, severity, b))
  {
    OfItems(name, severity, a);
    OfItems(name, severity, b);
    OfItems(name, severity, a + b);
    assert ViaIds(ViaList(a + b)) == ViaIds(ViaList(a)) + ViaIds(ViaList(b));
    UsableAppend(name, severity, ViaIds(ViaList(a)), ViaIds(ViaList(b)));
  }

  lemma AdvisoriesInOrder(a: seq<Advisory>, b: seq<Advisory>)
    ensures Findings(FromAdvisories(a + b)) == Findings(FromAdvisories(a)) + Findings(FromAdvisories(b))
  {
    AdvisoryFindingsAppend(a, b);
  }

  lemma VulnerabilitiesInOrder(a: seq<Vulnerability>, b: seq<Vulnerability>)
    ensures Findings(FromVulnerabilities(a + b)) == Findings(FromVulnerabilities(a)) + Findings(FromVulnerabilities(b))
  {
    VulnerabilityFindingsAppend(a, b);
  }

  /** Advisories come first. */
  lemma SectionsInOrder(report: Report)
    ensures Findings(report) ==
            Findings(FromAdvisories(report.advisories.GetOr([]))) +
            Findings(FromVulnerabilities(report.vulnerabilities.GetOr([])))
  {
  }

  /** One advisory yields one finding, one item at most one. */
  lemma FindingsOfOne(a: Advisory, name: string, severity: Option<string>, item: ViaItem)
    ensures |Findings(FromAdvisories([a]))| == 1 && |Findings(FromItems(name, severity, [item]))| <= 1
  {
    assert [a][1..] == [];
    OfItems(name, severity, [item]);
    assert ViaIds(ViaList([item])) == [ViaId(item)];
    assert [ViaId(item)][1..] == [];
  }
}
