/** The decision of the audit gate (tools/check_pnpm_audit_exceptions.py, main): which
    problems it reports, when it exits with 0, and how far the order of findings matters. */
module AuditGate {
  import opened Wrappers
  import opened AuditReport
  import AuditParser

  type Record = AuditParser.Record
  type Key = (string, string)

  const REQUIRED_FIELDS := {"package", "advisory", "severity", "mitigation", "expires_on"}

  /** Dates are day numbers; which strings are dates is left to the caller. */
  type DateParser = string -> Option<int>

  datatype Entry = Entry(severity: string, expiresOn: int)

  datatype Problem =
    | MissingFields(fields: set<string>)
    | InvalidDate
    | BlankKey
    | DuplicateException(key: Key)
    | NoAdvisoryId(name: Scalar, severity: string)
    | SeverityMismatch(key: Key, expected: string, got: string)
    | MissingExceptions(keys: seq<Key>)
    | ExpiredExceptions(keys: seq<Key>)

  // ----- one exception, one finding -----

  function AbsentFields(r: Record): set<string> {
    set f | f in REQUIRED_FIELDS && (f !in r || r[f] == "")
  }

  function Value(r: Record, f: string): string {
    if f in r then r[f] else ""
  }

  function ExceptionKey(r: Record): Key {
    (NormalizePackage(Text(Value(r, "package"))), NormalizeAdvisory(Text(Value(r, "advisory"))))
  }

  function ExceptionSeverity(r: Record): string {
    NormalizeSeverity(Some(Value(r, "severity")))
  }

  /** What one record of the file contributes. */
  datatype Exc = Broken(problem: Problem) | Good(key: Key, entry: Entry)

  function Judge(r: Record, parseDate: DateParser): Exc {
    var missing := AbsentFields(r);
    var key := ExceptionKey(r);
    var date := parseDate(Value(r, "expires_on"));
    if missing != {} then Broken(MissingFields(missing))
    else if date.None? then Broken(InvalidDate)
    else if key.0 == "" || key.1 == "" then Broken(BlankKey)
    else Good(key, Entry(ExceptionSeverity(r), date.value))
  }

  function JudgeAll(excs: seq<Record>, parseDate: DateParser): (es: seq<Exc>)
    ensures |es| == |excs|
    ensures forall i :: 0 <= i < |es| ==> es[i] == Judge(excs[i], parseDate)
  {
    seq(|excs|, i requires 0 <= i < |excs| => Judge(excs[i], parseDate))
  }

  predicate IsHigh(severity: string) {
    severity == "high" || severity == "critical"
  }

  function FindingKey(f: Finding): Key {
    (NormalizePackage(f.name), NormalizeAdvisory(f.advisory))
  }

  /** What one finding contributes: only named findings of high severity count. */
  datatype Alert = Ignored | Unidentified(name: Scalar, severity: string) | Alert(key: Key, severity: string)

  function Grade(f: Finding): Alert {
    var severity := NormalizeSeverity(f.severity);
    var key := FindingKey(f);
    if !IsHigh(severity) || !Truthy(f.name) then Ignored
    else if key.1 == "" then Unidentified(f.name, severity)
    else Alert(key, severity)
  }

  function GradeAll(fs: seq<Finding>): (alerts: seq<Alert>)
    ensures |alerts| == |fs|
    ensures forall i :: 0 <= i < |fs| ==> alerts[i] == Grade(fs[i])
  {
    seq(|fs|, i requires 0 <= i < |fs| => Grade(fs[i]))
  }

  // ----- what is reported -----

  function ExceptionProblem(es: seq<Exc>, i: nat): seq<Problem>
    requires i < |es|
  {
    if es[i].Broken? then [es[i].problem]
    else if Lookup(es, i, es[i].key).Some? then [DuplicateException(es[i].key)]
    else []
  }

  function ExceptionProblems(es: seq<Exc>, n: nat): seq<Problem>
    requires n <= |es|
  {
    if n == 0 then [] else ExceptionProblems(es, n - 1) + ExceptionProblem(es, n - 1)
  }

  /** The entry of the first usable exception under the key among the first n. */
  function Lookup(es: seq<Exc>, n: nat, key: Key): Option<Entry>
    requires n <= |es|
  {
    if n == 0 then None
    else
      var before := Lookup(es, n - 1, key);
      if before.Some? then before
      else if es[n - 1].Good? && es[n - 1].key == key then Some(es[n - 1].entry)
      else None
  }

  function SeenKeys(alerts: seq<Alert>, n: nat): set<Key>
    requires n <= |alerts|
  {
    if n == 0 then {}
    else SeenKeys(alerts, n - 1) + if alerts[n - 1].Alert? then {alerts[n - 1].key} else {}
  }

  lemma {:induction false} SeenBefore(alerts: seq<Alert>, n: nat, key: Key)
    requires n <= |alerts|
    ensures key in SeenKeys(alerts, n) <==> exists j: nat :: j < n && alerts[j].Alert? && alerts[j].key == key
  {
    if n > 0 {
      SeenBefore(alerts, n - 1, key);
    }
  }

  /** The first alert with its key. */
  predicate IsFirst(alerts: seq<Alert>, i: nat)
    requires i < |alerts|
  {
    alerts[i].Alert? && alerts[i].key !in SeenKeys(alerts, i)
  }

  predicate Mismatched(e: Option<Entry>, severity: string) {
    e.Some? && e.value.severity != "" && e.value.severity != severity
  }

  predicate Expired(e: Option<Entry>, today: int) {
    e.Some? && e.value.expiresOn < today
  }

  function AlertProblem(es: seq<Exc>, alerts: seq<Alert>, i: nat): seq<Problem>
    requires i < |alerts|
  {
    var a := alerts[i];
    if a.Unidentified? then [NoAdvisoryId(a.name, a.severity)]
    else if IsFirst(alerts, i) && Mismatched(Lookup(es, |es|, a.key), a.severity)
    then [SeverityMismatch(a.key, a.severity, Lookup(es, |es|, a.key).value.severity)]
    else []
  }

  function AlertProblems(es: seq<Exc>, alerts: seq<Alert>, n: nat): seq<Problem>
    requires n <= |alerts|
  {
    if n == 0 then [] else AlertProblems(es, alerts, n - 1) + AlertProblem(es, alerts, n - 1)
  }

  /** Keys of the first alerts that no exception covers. */
  function MissingKeys(es: seq<Exc>, alerts: seq<Alert>, n: nat): seq<Key>
    requires n <= |alerts|
  {
    if n == 0 then []
    else
      var uncovered := IsFirst(alerts, n - 1) && Lookup(es, |es|, alerts[n - 1].key).None?;
      MissingKeys(es, alerts, n - 1) + if uncovered then [alerts[n - 1].key] else []
  }

  /** Keys of the first alerts whose exception has run out. */
  function ExpiredKeys(es: seq<Exc>, alerts: seq<Alert>, today: int, n: nat): seq<Key>
    requires n <= |alerts|
  {
    if n == 0 then []
    else
      var late := IsFirst(alerts, n - 1) && Expired(Lookup(es, |es|, alerts[n - 1].key), today);
      ExpiredKeys(es, alerts, today, n - 1) + if late then [alerts[n - 1].key] else []
  }

  function AllProblems(es: seq<Exc>, alerts: seq<Alert>, today: int): seq<Problem> {
    var missing := MissingKeys(es, alerts, |alerts|);
    var expired := ExpiredKeys(es, alerts, today, |alerts|);
    ExceptionProblems(es, |es|) + AlertProblems(es, alerts, |alerts|)
    + (if missing == [] then [] else [MissingExceptions(missing)])
    + (if expired == [] then [] else [ExpiredExceptions(expired)])
  }

  // ----- the loops of main -----

  ghost predicate KeyBefore(es: seq<Exc>, n: nat, key: Key)
    requires n <= |es|
  {
    exists j: nat :: j < n && es[j].Good? && es[j].key == key
  }

  lemma {:induction false} LookupMember(es: seq<Exc>, n: nat, key: Key)
    requires n <= |es|
    ensures Lookup(es, n, key).Some? <==> KeyBefore(es, n, key)
  {
    if n > 0 {
      LookupMember(es, n - 1, key);
    }
  }

  ghost predicate IsIndex(index: map<Key, Entry>, es: seq<Exc>, n: nat)
    requires n <= |es|
  {
    forall key :: Lookup(es, n, key) == if key in index then Some(index[key]) else None
  }

  /** The first loop: the index of exceptions and the problems with them. */
  method BuildIndex(es: seq<Exc>) returns (index: map<Key, Entry>, errors: seq<Problem>)
    ensures IsIndex(index, es, |es|)
    ensures errors == ExceptionProblems(es, |es|)
  {
    index, errors := map[], [];
    var n := 0;
    while n < |es|
      invariant n <= |es| && IsIndex(index, es, n)
      invariant errors == ExceptionProblems(es, n)
    {
      var exc := es[n];
      n := n + 1;
      if exc.Broken? {
        errors := errors + [exc.problem];
        continue;
      }
      if exc.key in index {
        errors := errors + [DuplicateException(exc.key)];
        continue;
      }
      index := index[exc.key := exc.entry];
    }
  }

  /** The second loop: problems with findings, findings without an exception, expired exceptions. */
  method CheckAlerts(ghost es: seq<Exc>, index: map<Key, Entry>, alerts: seq<Alert>, today: int)
    returns (errors: seq<Problem>, missing: seq<Key>, expired: seq<Key>)
    requires IsIndex(index, es, |es|)
    ensures errors == AlertProblems(es, alerts, |alerts|)
    ensures missing == MissingKeys(es, alerts, |alerts|)
    ensures expired == ExpiredKeys(es, alerts, today, |alerts|)
  {
    errors, missing, expired := [], [], [];
    var seen: set<Key> := {};
    var n := 0;
    while n < |alerts|
      invariant n <= |alerts| && seen == SeenKeys(alerts, n)
      invariant errors == AlertProblems(es, alerts, n)
      invariant missing == MissingKeys(es, alerts, n)
      invariant expired == ExpiredKeys(es, alerts, today, n)
    {
      var alert := alerts[n];
      n := n + 1;
      if alert.Ignored? {
        continue;
      }
      if alert.Unidentified? {
        errors := errors + [NoAdvisoryId(alert.name, alert.severity)];
        continue;
      }
      var key, severity := alert.key, alert.severity;
      if key in seen {
        continue;
      }
      seen := seen + {key};
      if key !in index {
        missing := missing + [key];
        continue;
      }
      var exc := index[key];
      if exc.severity != "" && exc.severity != severity {
        errors := errors + [SeverityMismatch(key, severity, exc.severity)];
      }
      if exc.expiresOn < today {
        expired := expired + [key];
      }
    }
  }

  /** The whole decision: exit code and the problems written to stderr; an exception of the generator
      ends it. */
  method Decide(excs: seq<Record>, parseDate: DateParser, report: Report, today: int)
    returns (r: Result<(int, seq<Problem>), ReportError>)
    ensures r.Failure? <==> Generated(report).Failure?
    ensures r.Failure? ==> r.error == Generated(report).error
    ensures r.Success? ==>
              r.value.1 == AllProblems(JudgeAll(excs, parseDate), GradeAll(Generated(report).value), today) &&
              r.value.0 == if r.value.1 == [] then 0 else 1
  {
    var fs := IterVulns(report);
    if fs.Failure? {
      return Failure(fs.error);
    }
    var code, errors := DecideFindings(JudgeAll(excs, parseDate), GradeAll(fs.value), today);
    return Success((code, errors));
  }

  method DecideFindings(es: seq<Exc>, alerts: seq<Alert>, today: int) returns (code: int, errors: seq<Problem>)
    ensures errors == AllProblems(es, alerts, today) && code == if errors == [] then 0 else 1
  {
    var index, more, missing, expired;
    index, errors := BuildIndex(es);
    more, missing, expired := CheckAlerts(es, index, alerts, today);
    errors := errors + more;
    if missing != [] {
      errors := errors + [MissingExceptions(missing)];
    }
    if expired != [] {
      errors := errors + [ExpiredExceptions(expired)];
    }
    code := if errors != [] then 1 else 0;
  }
}
