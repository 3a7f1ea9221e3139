/** What an exit code of 0 means, and when the order of the findings can change it
    (tools/check_pnpm_audit_exceptions.py, main). */
module AuditVerdict {
  import opened Wrappers
  import opened Text
  import opened AuditReport
  import opened AuditFindings
  import opened AuditGate
  import AuditParser

  // ----- the verdict on judged exceptions and graded findings -----

  ghost predicate ExceptionsOk(es: seq<Exc>) {
    (forall i :: 0 <= i < |es| ==> es[i].Good?) &&
    (forall i, j :: 0 <= i < j < |es| && es[i].Good? && es[j].Good? ==> es[i].key != es[j].key)
  }

  ghost predicate Covered(es: seq<Exc>, key: Key, today: int) {
    exists j :: 0 <= j < |es| && es[j].Good? && es[j].key == key && today <= es[j].entry.expiresOn
  }

  /** The alert agrees with the severity of every exception under its key that gives one. */
  ghost predicate Suits(es: seq<Exc>, a: Alert) {
    a.Alert? ==>
      forall j :: 0 <= j < |es| && es[j].Good? && es[j].key == a.key ==>
        es[j].entry.severity == "" || es[j].entry.severity == a.severity
  }

  /** Everything the gate asks of each finding alike, whatever the order. */
  ghost predicate BaseOk(es: seq<Exc>, alerts: seq<Alert>, today: int) {
    ExceptionsOk(es) &&
    forall i :: 0 <= i < |alerts| ==>
      !alerts[i].Unidentified? && (alerts[i].Alert? ==> Covered(es, alerts[i].key, today))
  }

  ghost predicate Clean(es: seq<Exc>, alerts: seq<Alert>, today: int) {
    BaseOk(es, alerts, today) &&
    forall i :: 0 <= i < |alerts| && IsFirst(alerts, i) ==> Suits(es, alerts[i])
  }

  lemma OneMoreException(es: seq<Exc>, n: nat)
    requires 0 < n <= |es|
    ensures |ExceptionProblems(es, n)| == |ExceptionProblems(es, n - 1)| + |ExceptionProblem(es, n - 1)|
  {
  }

  lemma OneException(es: seq<Exc>, i: nat)
    requires i < |es|
    ensures |ExceptionProblem(es, i)| == 0 <==> es[i].Good? && !KeyBefore(es, i, es[i].key)
  {
    if es[i].Good? {
      LookupMember(es, i, es[i].key);
    }
  }

  lemma MoreOk(es: seq<Exc>, n: nat)
    requires 0 < n <= |es|
    ensures ExceptionsOk(es[..n]) <==>
            ExceptionsOk(es[..n - 1]) && es[n - 1].Good? && !KeyBefore(es, n - 1, es[n - 1].key)
  {
    var a, b := es[..n - 1], es[..n];
    assert forall i :: 0 <= i < n - 1 ==> a[i] == b[i] == es[i];
    assert b[n - 1] == es[n - 1];
  }

  /** No problem is reported exactly when the exceptions are in order. */
  lemma {:induction false} NoExceptionProblems(es: seq<Exc>, n: nat)
    requires n <= |es|
    ensures |ExceptionProblems(es, n)| == 0 <==> ExceptionsOk(es[..n])
  {
    if n > 0 {
      NoExceptionProblems(es, n - 1);
      OneMoreException(es, n);
      OneException(es, n - 1);
      MoreOk(es, n);
    }
  }

  lemma {:induction false} NoAlertProblemAt(es: seq<Exc>, alerts: seq<Alert>, n: nat, i: nat)
    requires i < n <= |alerts| && AlertProblems(es, alerts, n) == []
    ensures AlertProblem(es, alerts, i) == []
  {
    if i < n - 1 {
      NoAlertProblemAt(es, alerts, n - 1, i);
    }
  }

  lemma {:induction false} NoAlertProblems(es: seq<Exc>, alerts: seq<Alert>, n: nat)
    requires n <= |alerts|
    requires forall i :: 0 <= i < n ==> AlertProblem(es, alerts, i) == []
    ensures AlertProblems(es, alerts, n) == []
  {
    if n > 0 {
      assert AlertProblem(es, alerts, n - 1) == [];
      assert AlertProblems(es, alerts, n - 1) == [] by {
        NoAlertProblems(es, alerts, n - 1);
      }
    }
  }

  lemma {:induction false} NoMissingKeys(es: seq<Exc>, alerts: seq<Alert>, n: nat)
    requires n <= |alerts|
    ensures MissingKeys(es, alerts, n) == [] <==>
            forall i :: 0 <= i < n && IsFirst(alerts, i) ==> Lookup(es, |es|, alerts[i].key).Some?
  {
    if n > 0 {
      NoMissingKeys(es, alerts, n - 1);
    }
  }

  lemma {:induction false} NoExpiredKeys(es: seq<Exc>, alerts: seq<Alert>, today: int, n: nat)
    requires n <= |alerts|
    ensures ExpiredKeys(es, alerts, today, n) == [] <==>
            forall i :: 0 <= i < n && IsFirst(alerts, i) ==> !Expired(Lookup(es, |es|, alerts[i].key), today)
  {
    if n > 0 {
      NoExpiredKeys(es, alerts, today, n - 1);
    }
  }

  lemma {:induction false} LookupFound(es: seq<Exc>, n: nat, key: Key)
    requires n <= |es| && Lookup(es, n, key).Some?
    ensures exists j :: 0 <= j < n && es[j].Good? && es[j].key == key && es[j].entry == Lookup(es, n, key).value
  {
    if Lookup(es, n - 1, key).Some? {
      LookupFound(es, n - 1, key);
    } else {
      assert es[n - 1].entry == Lookup(es, n, key).value;
    }
  }

  lemma LookupUnique(es: seq<Exc>, j: nat)
    requires ExceptionsOk(es) && j < |es|
    ensures Lookup(es, |es|, es[j].key) == Some(es[j].entry)
  {
    LookupMember(es, |es|, es[j].key);
    LookupFound(es, |es|, es[j].key);
  }

  lemma {:induction false} FirstExists(alerts: seq<Alert>, i: nat) returns (f: nat)
    requires i < |alerts| && alerts[i].Alert?
    ensures f <= i && IsFirst(alerts, f) && alerts[f].key == alerts[i].key
    decreases i
  {
    SeenBefore(alerts, i, alerts[i].key);
    if IsFirst(alerts, i) {
      f := i;
    } else {
      var j: nat :| j < i && alerts[j].Alert? && alerts[j].key == alerts[i].key;
      f := FirstExists(alerts, j);
    }
  }

  lemma AllParts(es: seq<Exc>, alerts: seq<Alert>, today: int)
    ensures AllProblems(es, alerts, today) == [] <==>
            ExceptionProblems(es, |es|) == [] && AlertProblems(es, alerts, |alerts|) == [] &&
            MissingKeys(es, alerts, |alerts|) == [] && ExpiredKeys(es, alerts, today, |alerts|) == []
  {
  }

  lemma SilentCovers(es: seq<Exc>, alerts: seq<Alert>, today: int, i: nat)
    requires ExceptionsOk(es) && i < |alerts| && alerts[i].Alert?
    requires MissingKeys(es, alerts, |alerts|) == [] && ExpiredKeys(es, alerts, today, |alerts|) == []
    ensures Covered(es, alerts[i].key, today)
  {
    NoMissingKeys(es, alerts, |alerts|);
    NoExpiredKeys(es, alerts, today, |alerts|);
    var f := FirstExists(alerts, i);
    LookupFound(es, |es|, alerts[f].key);
  }

  lemma SilentSuits(es: seq<Exc>, alerts: seq<Alert>, i: nat)
    requires ExceptionsOk(es) && i < |alerts| && IsFirst(alerts, i) && AlertProblem(es, alerts, i) == []
    ensures Suits(es, alerts[i])
  {
    forall j | 0 <= j < |es| && es[j].key == alerts[i].key
      ensures es[j].entry.severity == "" || es[j].entry.severity == alerts[i].severity
    {
      LookupUnique(es, j);
    }
  }

  lemma CleanWhenSilent(es: seq<Exc>, alerts: seq<Alert>, today: int)
    requires AllProblems(es, alerts, today) == []
    ensures Clean(es, alerts, today)
  {
    AllParts(es, alerts, today);
    NoExceptionProblems(es, |es|);
    assert es[..|es|] == es;
    forall i | 0 <= i < |alerts|
      ensures !alerts[i].Unidentified? && (alerts[i].Alert? ==> Covered(es, alerts[i].key, today))
      ensures IsFirst(alerts, i) ==> Suits(es, alerts[i])
    {
      NoAlertProblemAt(es, alerts, |alerts|, i);
      if alerts[i].Alert? {
        SilentCovers(es, alerts, today, i);
      }
      if IsFirst(alerts, i) {
        SilentSuits(es, alerts, i);
      }
    }
  }

  /** The lookup of a covered key succeeds and is not expired; a suiting alert agrees with it. */
  lemma LookupCovered(es: seq<Exc>, a: Alert, today: int)
    requires ExceptionsOk(es) && a.Alert? && Covered(es, a.key, today)
    ensures var e := Lookup(es, |es|, a.key);
            e.Some? && !Expired(e, today) && (Suits(es, a) ==> !Mismatched(e, a.severity))
  {
    var j :| 0 <= j < |es| && es[j].key == a.key && today <= es[j].entry.expiresOn;
    LookupUnique(es, j);
  }

  lemma CleanIsSilent(es: seq<Exc>, alerts: seq<Alert>, today: int, i: nat)
    requires Clean(es, alerts, today) && i < |alerts|
    ensures AlertProblem(es, alerts, i) == []
    ensures IsFirst(alerts, i) ==>
            var e := Lookup(es, |es|, alerts[i].key); e.Some? && !Expired(e, today)
  {
    if IsFirst(alerts, i) {
      LookupCovered(es, alerts[i], today);
    }
  }

  lemma SilentWhenClean(es: seq<Exc>, alerts: seq<Alert>, today: int)
    requires Clean(es, alerts, today)
    ensures AllProblems(es, alerts, today) == []
  {
    NoExceptionProblems(es, |es|);
    assert es[..|es|] == es;
    forall i: nat | i < |alerts| { CleanIsSilent(es, alerts, today, i); }
    NoMissingKeys(es, alerts, |alerts|);
    NoExpiredKeys(es, alerts, today, |alerts|);
    NoAlertProblems(es, alerts, |alerts|);
    AllParts(es, alerts, today);
  }

  lemma VerdictOfAlerts(es: seq<Exc>, alerts: seq<Alert>, today: int)
    ensures AllProblems(es, alerts, today) == [] <==> Clean(es, alerts, today)
  {
    if Clean(es, alerts, today) {
      SilentWhenClean(es, alerts, today);
    } else if AllProblems(es, alerts, today) == [] {
      CleanWhenSilent(es, alerts, today);
    }
  }

  // ----- the same on the records and findings themselves -----

  /** Severity normalises to high or critical, and the finding has a name. */
  predicate Alarming(f: Finding) {
    NormalizeSeverity(f.severity) in ["high", "critical"] && Truthy(f.name)
  }

  predicate Given(r: Record, f: string) {
    f in r && r[f] != ""
  }

  predicate AllGiven(r: Record) {
    Given(r, "package") && Given(r, "advisory") && Given(r, "severity") && Given(r, "mitigation") &&
    Given(r, "expires_on")
  }

  predicate WellFormed(r: Record, parseDate: DateParser) {
    AllGiven(r) &&
    parseDate(Value(r, "expires_on")).Some? &&
    ExceptionKey(r).0 != "" && ExceptionKey(r).1 != ""
  }

  ghost predicate Unexpired(r: Record, parseDate: DateParser, today: int) {
    parseDate(Value(r, "expires_on")).Some? && today <= parseDate(Value(r, "expires_on")).value
  }

  ghost predicate FirstOfKey(fs: seq<Finding>, i: nat)
    requires i < |fs|
  {
    Alarming(fs[i]) && FindingKey(fs[i]).1 != "" &&
    forall j: nat :: j < i && Alarming(fs[j]) && FindingKey(fs[j]).1 != "" ==> FindingKey(fs[j]) != FindingKey(fs[i])
  }

  /** The policy the gate enforces, clause by clause. */
  ghost predicate Policy(excs: seq<Record>, parseDate: DateParser, fs: seq<Finding>, today: int) {
    && (forall i :: 0 <= i < |excs| ==> WellFormed(excs[i], parseDate))
    && (forall i, j :: 0 <= i < j < |excs| ==> ExceptionKey(excs[i]) != ExceptionKey(excs[j]))
    && (forall i :: 0 <= i < |fs| && Alarming(fs[i]) ==>
          FindingKey(fs[i]).1 != "" &&
          exists j :: 0 <= j < |excs| && ExceptionKey(excs[j]) == FindingKey(fs[i]) &&
            Unexpired(excs[j], parseDate, today))
    && (forall i, j | 0 <= i < |fs| && FirstOfKey(fs, i) &&
                      0 <= j < |excs| && ExceptionKey(excs[j]) == FindingKey(fs[i]) ::
          ExceptionSeverity(excs[j]) == "" || ExceptionSeverity(excs[j]) == NormalizeSeverity(fs[i].severity))
  }

  lemma AbsentMeaning(r: Record)
    ensures AbsentFields(r) == {} <==> AllGiven(r)
  {
    if AbsentFields(r) == {} {
      forall f | f in REQUIRED_FIELDS ensures Given(r, f) {
        assert f !in AbsentFields(r);
      }
    }
  }

  lemma JudgeMeaning(r: Record, parseDate: DateParser)
    ensures Judge(r, parseDate).Good? <==> WellFormed(r, parseDate)
    ensures Judge(r, parseDate).Good? ==>
            Judge(r, parseDate) ==
            Good(ExceptionKey(r), Entry(ExceptionSeverity(r), parseDate(Value(r, "expires_on")).value))
  {
    AbsentMeaning(r);
  }

  lemma GradeMeaning(f: Finding)
    ensures Grade(f).Alert? <==> Alarming(f) && FindingKey(f).1 != ""
    ensures Grade(f).Unidentified? <==> Alarming(f) && FindingKey(f).1 == ""
    ensures Grade(f).Alert? ==> Grade(f) == Alert(FindingKey(f), NormalizeSeverity(f.severity))
  {
  }

  lemma ExceptionsAgree(excs: seq<Record>, parseDate: DateParser)
    ensures ExceptionsOk(JudgeAll(excs, parseDate)) <==>
            (forall i :: 0 <= i < |excs| ==> WellFormed(excs[i], parseDate)) &&
            (forall i, j :: 0 <= i < j < |excs| ==> ExceptionKey(excs[i]) != ExceptionKey(excs[j]))
  {
    forall i | 0 <= i < |excs| { JudgeMeaning(excs[i], parseDate); }
  }

  lemma CoverAgrees(excs: seq<Record>, parseDate: DateParser, key: Key, today: int)
    requires ExceptionsOk(JudgeAll(excs, parseDate))
    ensures Covered(JudgeAll(excs, parseDate), key, today) <==>
            exists j :: 0 <= j < |excs| && ExceptionKey(excs[j]) == key && Unexpired(excs[j], parseDate, today)
  {
    var es := JudgeAll(excs, parseDate);
    forall j | 0 <= j < |excs|
      ensures es[j].key == ExceptionKey(excs[j])
      ensures today <= es[j].entry.expiresOn <==> Unexpired(excs[j], parseDate, today)
    {
      JudgeMeaning(excs[j], parseDate);
    }
  }

  lemma SuitAgrees(excs: seq<Record>, parseDate: DateParser, f: Finding)
    requires ExceptionsOk(JudgeAll(excs, parseDate)) && Grade(f).Alert?
    ensures Suits(JudgeAll(excs, parseDate), Grade(f)) <==>
            forall j :: 0 <= j < |excs| && ExceptionKey(excs[j]) == FindingKey(f) ==>
              ExceptionSeverity(excs[j]) == "" || ExceptionSeverity(excs[j]) == NormalizeSeverity(f.severity)
  {
    var es := JudgeAll(excs, parseDate);
    GradeMeaning(f);
    forall j | 0 <= j < |excs|
      ensures es[j].key == ExceptionKey(excs[j]) && es[j].entry.severity == ExceptionSeverity(excs[j])
    {
      JudgeMeaning(excs[j], parseDate);
    }
  }

  lemma FirstAgrees(fs: seq<Finding>, i: nat)
    requires i < |fs|
    ensures FirstOfKey(fs, i) <==> IsFirst(GradeAll(fs), i)
  {
    forall j | 0 <= j < |fs| { GradeMeaning(fs[j]); }
    if GradeAll(fs)[i].Alert? {
      SeenBefore(GradeAll(fs), i, GradeAll(fs)[i].key);
    }
  }

  lemma PolicyIsClean(excs: seq<Record>, parseDate: DateParser, fs: seq<Finding>, today: int)
    ensures Policy(excs, parseDate, fs, today) <==> Clean(JudgeAll(excs, parseDate), GradeAll(fs), today)
  {
    var es, alerts := JudgeAll(excs, parseDate), GradeAll(fs);
    ExceptionsAgree(excs, parseDate);
    if ExceptionsOk(es) {
      forall i: nat | i < |fs|
        ensures alerts[i].Unidentified? <==> Alarming(fs[i]) && FindingKey(fs[i]).1 == ""
        ensures alerts[i].Alert? <==> Alarming(fs[i]) && FindingKey(fs[i]).1 != ""
        ensures alerts[i].Alert? ==> alerts[i].key == FindingKey(fs[i])
        ensures FirstOfKey(fs, i) <==> IsFirst(alerts, i)
      {
        GradeMeaning(fs[i]);
        FirstAgrees(fs, i);
      }
      forall key { CoverAgrees(excs, parseDate, key, today); }
      forall i | 0 <= i < |fs| && alerts[i].Alert? { SuitAgrees(excs, parseDate, fs[i]); }
    }
  }

  /** Exit code 0 is exactly the policy. */
  lemma GateIsExact(excs: seq<Record>, parseDate: DateParser, fs: seq<Finding>, today: int)
    ensures AllProblems(JudgeAll(excs, parseDate), GradeAll(fs), today) == [] <==> Policy(excs, parseDate, fs, today)
  {
    VerdictOfAlerts(JudgeAll(excs, parseDate), GradeAll(fs), today);
    PolicyIsClean(excs, parseDate, fs, today);
  }

  /** The two exceptions that end the script with a traceback. */
  datatype ScriptError = BadExceptions(parse: AuditParser.ParseError) | BadReport(report: ReportError)

  /** The script from the two files to the exit code. */
  method RunGate(exceptionsFile: string, parseDate: DateParser, report: Report, today: int)
    returns (r: Result<int, ScriptError>)
    ensures match (AuditParser.Parse(Lines(exceptionsFile)), Generated(report))
            case (Failure(e), _) => r == Failure(BadExceptions(e))
            case (Success(_), Failure(e)) => r == Failure(BadReport(e))
            case (Success(excs), Success(fs)) =>
              r.Success? && (r.value == 0 || r.value == 1) && (r.value == 0 <==> Policy(excs, parseDate, fs, today))
  {
    var parsed := AuditParser.ParseExceptions(Lines(exceptionsFile));
    if parsed.Failure? {
      return Failure(BadExceptions(parsed.error));
    }
    var decided := Decide(parsed.value, parseDate, report, today);
    if decided.Failure? {
      return Failure(BadReport(decided.error));
    }
    GateIsExact(parsed.value, parseDate, Findings(report), today);
    return Success(decided.value.0);
  }

  /** A report with one vulnerability of low severity, known by a number only, ends the script. */
  lemma NumericSourceRaises()
    ensures var item := ViaAdvisory(Missing, Missing, Number(1091), Missing, Missing, Missing);
            Generated(Report(None, Some([Vulnerability("p", Some("low"), ViaList([item]))]))) ==
            Failure(TitleNotText("p"))
  {
    var item := ViaAdvisory(Missing, Missing, Number(1091), Missing, Missing, Missing);
    var v := Vulnerability("p", Some("low"), ViaList([item]));
    assert Unjoinable(ViaTitles(v.via)[0]);
    assert Raises([v][0]);
  }

  // ----- order and repetition -----

  ghost predicate SameMembers<T(!new)>(a: seq<T>, b: seq<T>) {
    forall x :: x in a <==> x in b
  }

  lemma BaseOkSameMembers(es: seq<Exc>, a: seq<Alert>, b: seq<Alert>, today: int)
    requires SameMembers(a, b) && BaseOk(es, a, today)
    ensures BaseOk(es, b, today)
  {
    forall i | 0 <= i < |b|
      ensures !b[i].Unidentified? && (b[i].Alert? ==> Covered(es, b[i].key, today))
    {
      assert b[i] in a;
      var k :| 0 <= k < |a| && a[k] == b[i];
    }
  }

  ghost predicate AllSuit(es: seq<Exc>, alerts: seq<Alert>) {
    forall a :: a in alerts ==> Suits(es, a)
  }

  ghost predicate HasSuiting(es: seq<Exc>, alerts: seq<Alert>, key: Key) {
    exists b :: b in alerts && b.Alert? && b.key == key && Suits(es, b)
  }

  /** Each key that occurs has an alert that suits its exception. */
  ghost predicate SomeSuits(es: seq<Exc>, alerts: seq<Alert>) {
    forall a :: a in alerts && a.Alert? ==> HasSuiting(es, alerts, a.key)
  }

  /** Findings arranged so that the verdict hangs on which of them comes first. */
  ghost predicate Torn(es: seq<Exc>, alerts: seq<Alert>, today: int) {
    BaseOk(es, alerts, today) && SomeSuits(es, alerts) && !AllSuit(es, alerts)
  }

  lemma CleanUnlessTorn(es: seq<Exc>, alerts: seq<Alert>, today: int)
    requires !Torn(es, alerts, today)
    ensures Clean(es, alerts, today) <==> BaseOk(es, alerts, today) && AllSuit(es, alerts)
  {
    if Clean(es, alerts, today) {
      forall a | a in alerts && a.Alert? ensures HasSuiting(es, alerts, a.key) {
        var i :| 0 <= i < |alerts| && alerts[i] == a;
        var f := FirstExists(alerts, i);
        assert alerts[f] in alerts && Suits(es, alerts[f]);
      }
      assert SomeSuits(es, alerts);
    }
  }

  lemma TornSameMembers(es: seq<Exc>, a: seq<Alert>, b: seq<Alert>, today: int)
    requires SameMembers(a, b) && Torn(es, a, today)
    ensures Torn(es, b, today)
  {
    BaseOkSameMembers(es, a, b, today);
    forall x | x in b && x.Alert? ensures HasSuiting(es, b, x.key) {
      assert x in a && HasSuiting(es, a, x.key);
    }
  }

  /** Unless the findings are torn, reordering or repeating them never changes the verdict. */
  lemma SameVerdict(es: seq<Exc>, a: seq<Alert>, b: seq<Alert>, today: int)
    requires SameMembers(a, b) && !Torn(es, a, today)
    ensures Clean(es, a, today) <==> Clean(es, b, today)
  {
    if Torn(es, b, today) {
      TornSameMembers(es, b, a, today);
    }
    CleanUnlessTorn(es, a, today);
    CleanUnlessTorn(es, b, today);
    if BaseOk(es, a, today) {
      BaseOkSameMembers(es, a, b, today);
    } else if BaseOk(es, b, today) {
      BaseOkSameMembers(es, b, a, today);
    }
  }

  ghost predicate NoMixedSeverity(alerts: seq<Alert>) {
    forall a, b :: a in alerts && b in alerts && a.Alert? && b.Alert? && a.key == b.key ==> a.severity == b.severity
  }

  lemma UnmixedIsNotTorn(es: seq<Exc>, alerts: seq<Alert>, today: int)
    requires NoMixedSeverity(alerts)
    ensures !Torn(es, alerts, today)
  {
    if SomeSuits(es, alerts) {
      forall a | a in alerts ensures Suits(es, a) {
        if a.Alert? {
          assert HasSuiting(es, alerts, a.key);
          var b :| b in alerts && b.Alert? && b.key == a.key && Suits(es, b);
          assert a == b;
        }
      }
    }
  }

  /** Permuting or repeating findings changes nothing when no key carries two severities. */
  lemma DeduplicationIsSafe(excs: seq<Record>, parseDate: DateParser, fs: seq<Finding>, gs: seq<Finding>, today: int)
    requires SameMembers(fs, gs) && NoMixedSeverity(GradeAll(fs))
    ensures Policy(excs, parseDate, fs, today) <==> Policy(excs, parseDate, gs, today)
  {
    var a, b := GradeAll(fs), GradeAll(gs);
    GradedMembers(fs, gs);
    GradedMembers(gs, fs);
    UnmixedIsNotTorn(JudgeAll(excs, parseDate), a, today);
    SameVerdict(JudgeAll(excs, parseDate), a, b, today);
    PolicyIsClean(excs, parseDate, fs, today);
    PolicyIsClean(excs, parseDate, gs, today);
  }

  lemma GradedMembers(fs: seq<Finding>, gs: seq<Finding>)
    requires SameMembers(fs, gs)
    ensures forall x :: x in GradeAll(fs) ==> x in GradeAll(gs)
  {
    forall x | x in GradeAll(fs) ensures x in GradeAll(gs) {
      var i :| 0 <= i < |fs| && GradeAll(fs)[i] == x;
      assert fs[i] in gs;
      var j :| 0 <= j < |gs| && gs[j] == fs[i];
      assert GradeAll(gs)[j] == x;
    }
  }

  ghost function Part(es: seq<Exc>, alerts: seq<Alert>, suiting: bool): (r: seq<Alert>)
    ensures forall a :: a in r <==> a in alerts && Suits(es, a) == suiting
  {
    if alerts == [] then []
    else
      assert forall a :: a in alerts <==> a == alerts[0] || a in alerts[1..];
      (if Suits(es, alerts[0]) == suiting then [alerts[0]] else []) + Part(es, alerts[1..], suiting)
  }

  lemma {:induction false} PartsPermute(es: seq<Exc>, alerts: seq<Alert>)
    ensures multiset(Part(es, alerts, true)) + multiset(Part(es, alerts, false)) == multiset(alerts)
  {
    if alerts != [] {
      assert alerts == [alerts[0]] + alerts[1..];
      PartsPermute(es, alerts[1..]);
    }
  }

  lemma PermutedMembers<T(!new)>(a: seq<T>, b: seq<T>)
    requires multiset(a) == multiset(b)
    ensures SameMembers(a, b)
  {
    forall x ensures x in a <==> x in b {
      assert x in a <==> x in multiset(a);
      assert x in b <==> x in multiset(b);
    }
  }

  lemma SuitingFirst(es: seq<Exc>, alerts: seq<Alert>, i: nat)
    requires SomeSuits(es, alerts)
    requires i < |Part(es, alerts, true) + Part(es, alerts, false)|
    requires IsFirst(Part(es, alerts, true) + Part(es, alerts, false), i)
    ensures Suits(es, (Part(es, alerts, true) + Part(es, alerts, false))[i])
  {
    var good := Part(es, alerts, true);
    var b := good + Part(es, alerts, false);
    assert b[i] in alerts by {
      assert b[i] in b;
    }
    assert HasSuiting(es, alerts, b[i].key);
    var c :| c in alerts && c.Alert? && c.key == b[i].key && Suits(es, c);
    var k :| 0 <= k < |good| && good[k] == c;
    assert i <= k by {
      SeenBefore(b, i, b[i].key);
      assert b[k] == c;
    }
    assert b[i] == good[i] && good[i] in good;
  }

  /** Torn findings pass in one order: those that suit first. */
  lemma TornPasses(es: seq<Exc>, alerts: seq<Alert>, today: int)
    requires Torn(es, alerts, today)
    ensures Clean(es, Part(es, alerts, true) + Part(es, alerts, false), today)
  {
    var b := Part(es, alerts, true) + Part(es, alerts, false);
    assert multiset(b) == multiset(alerts) by {
      PartsPermute(es, alerts);
    }
    PermutedMembers(b, alerts);
    BaseOkSameMembers(es, alerts, b, today);
    forall i | 0 <= i < |b| && IsFirst(b, i) ensures Suits(es, b[i]) {
      SuitingFirst(es, alerts, i);
    }
  }

  /** Torn findings fail in another: one that does not suit first. */
  lemma TornFails(es: seq<Exc>, alerts: seq<Alert>, today: int)
    requires Torn(es, alerts, today)
    ensures !Clean(es, Part(es, alerts, false) + Part(es, alerts, true), today)
  {
    var good, bad := Part(es, alerts, true), Part(es, alerts, false);
    var b := bad + good;
    assert |b| > 0 && IsFirst(b, 0) && !Suits(es, b[0]) by {
      var a :| a in alerts && !Suits(es, a);
      assert a in bad;
      assert bad[0] in bad && b[0] == bad[0];
    }
  }

  // ----- the same on findings -----

  /** The findings whose alert suits, or those whose alert does not. */
  ghost function Chosen(es: seq<Exc>, fs: seq<Finding>, suiting: bool): seq<Finding> {
    if fs == [] then []
    else (if Suits(es, Grade(fs[0])) == suiting then [fs[0]] else []) + Chosen(es, fs[1..], suiting)
  }

  lemma GradeAppend(a: seq<Finding>, b: seq<Finding>)
    ensures GradeAll(a + b) == GradeAll(a) + GradeAll(b)
  {
  }

  lemma {:induction false} GradeChosen(es: seq<Exc>, fs: seq<Finding>, suiting: bool)
    ensures GradeAll(Chosen(es, fs, suiting)) == Part(es, GradeAll(fs), suiting)
  {
    if fs != [] {
      GradeChosen(es, fs[1..], suiting);
      assert GradeAll(fs)[0] == Grade(fs[0]) && GradeAll(fs)[1..] == GradeAll(fs[1..]);
      GradeAppend(if Suits(es, Grade(fs[0])) == suiting then [fs[0]] else [], Chosen(es, fs[1..], suiting));
      assert GradeAll([fs[0]]) == [Grade(fs[0])];
    }
  }

  lemma {:induction false} ChosenPermute(es: seq<Exc>, fs: seq<Finding>)
    ensures multiset(Chosen(es, fs, true)) + multiset(Chosen(es, fs, false)) == multiset(fs)
  {
    if fs != [] {
      assert fs == [fs[0]] + fs[1..];
      ChosenPermute(es, fs[1..]);
    }
  }

  /** The verdict on some findings is the verdict on them in any order. */
  ghost predicate OrderFree(excs: seq<Record>, parseDate: DateParser, fs: seq<Finding>, today: int) {
    forall gs: seq<Finding> :: multiset(gs) == multiset(fs) ==>
      (Policy(excs, parseDate, gs, today) <==> Policy(excs, parseDate, fs, today))
  }

  /** Not even repeating some of them changes it. */
  ghost predicate RepeatFree(excs: seq<Record>, parseDate: DateParser, fs: seq<Finding>, today: int) {
    forall gs: seq<Finding> :: SameMembers(fs, gs) ==>
      (Policy(excs, parseDate, gs, today) <==> Policy(excs, parseDate, fs, today))
  }

  lemma TornPassesSomeOrder(excs: seq<Record>, parseDate: DateParser, fs: seq<Finding>, today: int)
    returns (gs: seq<Finding>)
    requires Torn(JudgeAll(excs, parseDate), GradeAll(fs), today)
    ensures multiset(gs) == multiset(fs) && Policy(excs, parseDate, gs, today)
  {
    var es := JudgeAll(excs, parseDate);
    var good, bad := Chosen(es, fs, true), Chosen(es, fs, false);
    gs := good + bad;
    assert GradeAll(gs) == Part(es, GradeAll(fs), true) + Part(es, GradeAll(fs), false) by {
      GradeChosen(es, fs, true);
      GradeChosen(es, fs, false);
      GradeAppend(good, bad);
    }
    TornPasses(es, GradeAll(fs), today);
    PolicyIsClean(excs, parseDate, gs, today);
    ChosenPermute(es, fs);
  }

  lemma TornFailsSomeOrder(excs: seq<Record>, parseDate: DateParser, fs: seq<Finding>, today: int)
    returns (gs: seq<Finding>)
    requires Torn(JudgeAll(excs, parseDate), GradeAll(fs), today)
    ensures multiset(gs) == multiset(fs) && !Policy(excs, parseDate, gs, today)
  {
    var es := JudgeAll(excs, parseDate);
    var good, bad := Chosen(es, fs, true), Chosen(es, fs, false);
    gs := bad + good;
    assert GradeAll(gs) == Part(es, GradeAll(fs), false) + Part(es, GradeAll(fs), true) by {
      GradeChosen(es, fs, true);
      GradeChosen(es, fs, false);
      GradeAppend(bad, good);
    }
    TornFails(es, GradeAll(fs), today);
    PolicyIsClean(excs, parseDate, gs, today);
    ChosenPermute(es, fs);
  }

  lemma UntornIsRepeatFree(excs: seq<Record>, parseDate: DateParser, fs: seq<Finding>, today: int)
    requires !Torn(JudgeAll(excs, parseDate), GradeAll(fs), today)
    ensures RepeatFree(excs, parseDate, fs, today)
  {
    forall gs: seq<Finding> | SameMembers(fs, gs)
      ensures Policy(excs, parseDate, gs, today) <==> Policy(excs, parseDate, fs, today)
    {
      GradedMembers(fs, gs);
      GradedMembers(gs, fs);
      SameVerdict(JudgeAll(excs, parseDate), GradeAll(fs), GradeAll(gs), today);
      PolicyIsClean(excs, parseDate, fs, today);
      PolicyIsClean(excs, parseDate, gs, today);
    }
  }

  /** Exactly when the verdict does not depend on the order of the findings, nor on repetitions. */
  lemma OrderFreeExactly(excs: seq<Record>, parseDate: DateParser, fs: seq<Finding>, today: int)
    ensures OrderFree(excs, parseDate, fs, today) <==> !Torn(JudgeAll(excs, parseDate), GradeAll(fs), today)
    ensures RepeatFree(excs, parseDate, fs, today) <==> !Torn(JudgeAll(excs, parseDate), GradeAll(fs), today)
  {
    if Torn(JudgeAll(excs, parseDate), GradeAll(fs), today) {
      var pass := TornPassesSomeOrder(excs, parseDate, fs, today);
      var fail := TornFailsSomeOrder(excs, parseDate, fs, today);
    } else {
      UntornIsRepeatFree(excs, parseDate, fs, today);
    }
    assert RepeatFree(excs, parseDate, fs, today) ==> OrderFree(excs, parseDate, fs, today) by {
      forall gs: seq<Finding> | multiset(gs) == multiset(fs) ensures SameMembers(fs, gs) {
        PermutedMembers(fs, gs);
      }
    }
  }

  // ----- one case -----

  /** One finding seen as high, one as critical, against an exception for "high". */
  lemma TwoSeverities(key: Key, expires: int, today: int)
    requires today <= expires
    ensures var es := [Good(key, Entry("high", expires))];
            Clean(es, [Alert(key, "high"), Alert(key, "critical")], today) &&
            !Clean(es, [Alert(key, "critical"), Alert(key, "high")], today)
  {
    var es := [Good(key, Entry("high", expires))];
    var high, critical := Alert(key, "high"), Alert(key, "critical");
    assert es[0].key == key;
    assert !Suits(es, critical) && Suits(es, high);
    assert IsFirst([critical, high], 0);
    assert !IsFirst([high, critical], 1) by {
      SeenBefore([high, critical], 1, key);
    }
  }

  function SampleException(): Record {
    map["package" := "p", "advisory" := "a", "severity" := "high", "mitigation" := "m", "expires_on" := "2030-01-01"]
  }

  lemma SampleComplete()
    ensures AbsentFields(SampleException()) == {}
  {
  }

  lemma SampleJudged(parseDate: DateParser)
    requires parseDate("2030-01-01").Some?
    ensures Judge(SampleException(), parseDate) == Good(("p", "a"), Entry("high", parseDate("2030-01-01").value))
  {
    SampleComplete();
    assert Value(SampleException(), "expires_on") == "2030-01-01";
    assert ExceptionKey(SampleException()) == ("p", "a") && ExceptionSeverity(SampleException()) == "high" by {
      SampleNormal();
    }
  }

  lemma SampleGraded()
    ensures Grade(Finding(Text("p"), Some("high"), Text("a"))) == Alert(("p", "a"), "high")
    ensures Grade(Finding(Text("p"), Some("critical"), Text("a"))) == Alert(("p", "a"), "critical")
  {
    SampleNormal();
  }

  lemma SampleNormal()
    ensures NormalizePackage(Text("p")) == "p" && NormalizeAdvisory(Text("a")) == "a"
    ensures NormalizeSeverity(Some("high")) == "high" && NormalizeSeverity(Some("critical")) == "critical"
  {
    StripTrimmed("p");
    StripTrimmed("a");
    StripTrimmed("high");
    StripTrimmed("critical");
  }

  lemma SampleVerdict(parseDate: DateParser, fs: seq<Finding>, today: int)
    requires parseDate("2030-01-01").Some?
    ensures Policy([SampleException()], parseDate, fs, today) <==>
            Clean([Good(("p", "a"), Entry("high", parseDate("2030-01-01").value))], GradeAll(fs), today)
  {
    assert JudgeAll([SampleException()], parseDate) ==
           [Good(("p", "a"), Entry("high", parseDate("2030-01-01").value))] by {
      SampleJudged(parseDate);
    }
    PolicyIsClean([SampleException()], parseDate, fs, today);
  }

  const HIGH_FINDING := Finding(Text("p"), Some("high"), Text("a"))
  const CRITICAL_FINDING := Finding(Text("p"), Some("critical"), Text("a"))

  lemma HighFirstPasses(parseDate: DateParser, today: int)
    requires parseDate("2030-01-01").Some? && today <= parseDate("2030-01-01").value
    ensures Policy([SampleException()], parseDate, [HIGH_FINDING, CRITICAL_FINDING], today)
  {
    assert GradeAll([HIGH_FINDING, CRITICAL_FINDING]) == [Alert(("p", "a"), "high"), Alert(("p", "a"), "critical")] by {
      SampleGraded();
    }
    TwoSeverities(("p", "a"), parseDate("2030-01-01").value, today);
    SampleVerdict(parseDate, [HIGH_FINDING, CRITICAL_FINDING], today);
  }

  lemma CriticalFirstFails(parseDate: DateParser, today: int)
    requires parseDate("2030-01-01").Some? && today <= parseDate("2030-01-01").value
    ensures !Policy([SampleException()], parseDate, [CRITICAL_FINDING, HIGH_FINDING], today)
  {
    assert GradeAll([CRITICAL_FINDING, HIGH_FINDING]) == [Alert(("p", "a"), "critical"), Alert(("p", "a"), "high")] by {
      SampleGraded();
    }
    TwoSeverities(("p", "a"), parseDate("2030-01-01").value, today);
    SampleVerdict(parseDate, [CRITICAL_FINDING, HIGH_FINDING], today);
  }

  /** The gate passes when the high report of an advisory comes first and fails when the critical
      one does. */
  lemma TornExample(parseDate: DateParser, today: int)
    requires parseDate("2030-01-01").Some? && today <= parseDate("2030-01-01").value
    ensures Policy([SampleException()], parseDate, [HIGH_FINDING, CRITICAL_FINDING], today)
    ensures !Policy([SampleException()], parseDate, [CRITICAL_FINDING, HIGH_FINDING], today)
  {
    HighFirstPasses(parseDate, today);
    CriticalFirstFails(parseDate, today);
  }

  /** With or without it, in any report, the script sees the same. */
  ghost predicate Silent(v: Vulnerability) {
    forall advisories: Option<seq<Advisory>>, front: seq<Vulnerability>, back: seq<Vulnerability> ::
      Generated(Report(advisories, Some(front + [v] + back))) == Generated(Report(advisories, Some(front + back)))
  }

  lemma {:induction false} FirstRaisingAppend(a: seq<Vulnerability>, b: seq<Vulnerability>)
    ensures FirstRaising(a + b) == if FirstRaising(a).Some? then FirstRaising(a) else FirstRaising(b)
  {
    if a == [] {
      assert a + b == b;
    } else {
      assert (a + b)[0] == a[0] && (a + b)[1..] == a[1..] + b;
      FirstRaisingAppend(a[1..], b);
    }
  }

  lemma OneVulnerability(v: Vulnerability)
    ensures VulnerabilityFindings([v]) == Usable(v.name, v.severity, ViaIds(v.via))
    ensures FirstRaising([v]) == if Raises(v) then Some(v.name) else None
  {
    var rest: seq<Vulnerability> := [];
    assert [v][1..] == rest;
  }

  lemma FindingsAround(front: seq<Vulnerability>, v: Vulnerability, back: seq<Vulnerability>)
    ensures VulnerabilityFindings(front + [v] + back) ==
            VulnerabilityFindings(front) + Usable(v.name, v.severity, ViaIds(v.via)) + VulnerabilityFindings(back)
  {
    OneVulnerability(v);
    VulnerabilityFindingsAppend(front + [v], back);
    VulnerabilityFindingsAppend(front, [v]);
  }

  lemma RaisingAround(front: seq<Vulnerability>, v: Vulnerability, back: seq<Vulnerability>)
    requires !Raises(v)
    ensures FirstRaising(front + [v] + back) == FirstRaising(front + back)
  {
    OneVulnerability(v);
    FirstRaisingAppend(front + [v], back);
    FirstRaisingAppend(front, [v]);
    FirstRaisingAppend(front, back);
  }

  lemma SilentWithoutIds(advisories: Option<seq<Advisory>>, front: seq<Vulnerability>, v: Vulnerability,
                         back: seq<Vulnerability>)
    requires Usable(v.name, v.severity, ViaIds(v.via)) == [] && !Raises(v)
    ensures Generated(Report(advisories, Some(front + [v] + back))) == Generated(Report(advisories, Some(front + back)))
  {
    FindingsAround(front, v, back);
    VulnerabilityFindingsAppend(front, back);
    var before, after := VulnerabilityFindings(front), VulnerabilityFindings(back);
    assert before + [] + after == before + after;
    RaisingAround(front, v, back);
  }

  /** On its own it is heard: the script sees something where there would be nothing. */
  lemma AloneIsHeard(v: Vulnerability)
    requires Usable(v.name, v.severity, ViaIds(v.via)) != [] || Raises(v)
    ensures Generated(Report(None, Some([v]))) != Generated(Report(None, Some([])))
  {
    OneVulnerability(v);
    assert Findings(Report(None, Some([v]))) == Usable(v.name, v.severity, ViaIds(v.via));
    assert Generated(Report(None, Some([]))).Success? && Findings(Report(None, Some([]))) == [];
  }

  lemma HeardIsNotSilent(v: Vulnerability)
    requires Usable(v.name, v.severity, ViaIds(v.via)) != [] || Raises(v)
    ensures !Silent(v)
  {
    var none: seq<Vulnerability> := [];
    var advisories: Option<seq<Advisory>> := None;
    assert none + [v] + none == [v] && none + none == none;
    AloneIsHeard(v);
    assert Generated(Report(advisories, Some(none + [v] + none))) != Generated(Report(advisories, Some(none + none)));
  }

  /** A vulnerability, however severe, leaves no trace exactly when it has no usable identifier and no
      title that raises. */
  lemma UnidentifiedVulnerabilityIsSilent(v: Vulnerability)
    ensures Silent(v) <==> (forall id :: !Identifies(v.via, id)) && !HasNumericTitle(v)
  {
    RaisesAt(v);
    forall id | Truthy(id) { IdsExactly(v.via, id); }
    NothingUsable(v.name, v.severity, ViaIds(v.via));
    if Usable(v.name, v.severity, ViaIds(v.via)) == [] && !Raises(v) {
      forall advisories: Option<seq<Advisory>>, front: seq<Vulnerability>, back: seq<Vulnerability>
        ensures Generated(Report(advisories, Some(front + [v] + back))) ==
                Generated(Report(advisories, Some(front + back)))
      {
        SilentWithoutIds(advisories, front, v, back);
      }
    } else {
      HeardIsNotSilent(v);
    }
  }

  /** The same omission among the advisories never passes the gate. */
  lemma UnidentifiedAdvisoryFails(excs: seq<Record>, parseDate: DateParser, report: Report, i: nat, f: Finding,
                                  today: int)
    requires report.advisories.Some? && i < |report.advisories.value|
    requires AdvisoryYields(report.advisories.value[i], f) && Alarming(f) && NormalizeAdvisory(f.advisory) == ""
    ensures Generated(report).Success? ==> !Policy(excs, parseDate, Generated(report).value, today)
  {
    OfAdvisory(report.advisories.value[i], f);
    AdvisoryFindingAt(report.advisories.value, i);
    assert Findings(report)[i] == f;
  }

  lemma {:induction false} AdvisoryFindingAt(all: seq<Advisory>, i: nat)
    requires i < |all|
    ensures i < |AdvisoryFindings(all)| && AdvisoryFindings(all)[i] == AdvisoryFinding(all[i])
  {
    if i > 0 {
      AdvisoryFindingAt(all[1..], i - 1);
    }
  }
}
