/** Exactly which problems the gate reports, read off the records and findings themselves
    (tools/check_pnpm_audit_exceptions.py, main). */
module AuditProblems {
  import opened Wrappers
  import opened Text
  import opened AuditReport
  import opened AuditGate
  import opened AuditVerdict

  // ----- when an exception is for a finding -----

  /** An exception is under a finding's key exactly when the package is the same but for padding and the
      identifier the same but for padding and letter case. */
  lemma KeysMatchExactly(r: Record, f: Finding)
    ensures ExceptionKey(r) == FindingKey(f) <==>
            Strip(Value(r, "package")) == Strip(Show(f.name)) &&
            SameLetters(Strip(Value(r, "advisory")), Strip(Show(f.advisory)))
  {
    LowerExactly(Strip(Value(r, "advisory")), Strip(Show(f.advisory)));
  }

  // ----- what is reported, problem by problem -----

  /** The required fields that are absent or empty. */
  ghost predicate IsMissing(r: Record, fields: set<string>) {
    fields != {} &&
    forall f :: f in fields <==>
      f in ["package", "advisory", "severity", "mitigation", "expires_on"] && (f !in r || r[f] == "")
  }

  ghost predicate Undated(r: Record, parseDate: DateParser) {
    AllGiven(r) && parseDate(r["expires_on"]) == None
  }

  ghost predicate Blank(r: Record, parseDate: DateParser) {
    AllGiven(r) && parseDate(r["expires_on"]).Some? && (ExceptionKey(r).0 == "" || ExceptionKey(r).1 == "")
  }

  ghost predicate Repeated(excs: seq<Record>, parseDate: DateParser, key: Key) {
    exists i, j :: 0 <= i < j < |excs| && UsableFor(excs[i], parseDate, key) && UsableFor(excs[j], parseDate, key)
  }

  ghost predicate UsableFor(r: Record, parseDate: DateParser, key: Key) {
    WellFormed(r, parseDate) && ExceptionKey(r) == key
  }

  /** The exception that counts for a key: the first usable one. */
  ghost predicate CountsFor(excs: seq<Record>, parseDate: DateParser, key: Key, j: int) {
    0 <= j < |excs| && UsableFor(excs[j], parseDate, key) &&
    forall k :: 0 <= k < j ==> !UsableFor(excs[k], parseDate, key)
  }

  /** The finding that is judged for a key: the first alarming one. */
  ghost predicate JudgedFor(fs: seq<Finding>, key: Key, i: int) {
    0 <= i < |fs| && FirstOfKey(fs, i) && FindingKey(fs[i]) == key
  }

  ghost predicate Uncovered(excs: seq<Record>, parseDate: DateParser, fs: seq<Finding>, key: Key) {
    (exists i :: JudgedFor(fs, key, i)) && forall j :: 0 <= j < |excs| ==> !UsableFor(excs[j], parseDate, key)
  }

  ghost predicate RunOut(excs: seq<Record>, parseDate: DateParser, fs: seq<Finding>, today: int, key: Key) {
    (exists i :: JudgedFor(fs, key, i)) &&
    exists j :: CountsFor(excs, parseDate, key, j) && parseDate(Value(excs[j], "expires_on")).value < today
  }

  ghost predicate Nameless(f: Finding, name: Scalar, severity: string) {
    Alarming(f) && NormalizeAdvisory(f.advisory) == "" && f.name == name && NormalizeSeverity(f.severity) == severity
  }

  ghost predicate Mismatch(excs: seq<Record>, parseDate: DateParser, fs: seq<Finding>, key: Key, expected: string,
                           got: string) {
    got != "" && got != expected &&
    (exists i :: JudgedFor(fs, key, i) && NormalizeSeverity(fs[i].severity) == expected) &&
    exists j :: CountsFor(excs, parseDate, key, j) && ExceptionSeverity(excs[j]) == got
  }

  /** The problems with single exceptions and findings; the two lists at the end are stated apart. */
  ghost predicate Reported(excs: seq<Record>, parseDate: DateParser, fs: seq<Finding>, p: Problem)
    requires !p.MissingExceptions? && !p.ExpiredExceptions?
  {
    match p
    case MissingFields(fields) => exists i :: 0 <= i < |excs| && IsMissing(excs[i], fields)
    case InvalidDate => exists i :: 0 <= i < |excs| && Undated(excs[i], parseDate)
    case BlankKey => exists i :: 0 <= i < |excs| && Blank(excs[i], parseDate)
    case DuplicateException(key) => Repeated(excs, parseDate, key)
    case NoAdvisoryId(name, severity) => exists i :: 0 <= i < |fs| && Nameless(fs[i], name, severity)
    case SeverityMismatch(key, expected, got) => Mismatch(excs, parseDate, fs, key, expected, got)
  }

  ghost predicate NoneTwice(keys: seq<Key>) {
    forall i, j :: 0 <= i < j < |keys| ==> keys[i] != keys[j]
  }

  // ----- the lists as the loops build them -----

  lemma {:induction false} SomeException(es: seq<Exc>, n: nat, p: Problem)
    requires n <= |es|
    ensures p in ExceptionProblems(es, n) <==> exists i: nat :: i < n && p in ExceptionProblem(es, i)
  {
    if n > 0 {
      SomeException(es, n - 1, p);
    }
  }

  lemma {:induction false} SomeAlert(es: seq<Exc>, alerts: seq<Alert>, n: nat, p: Problem)
    requires n <= |alerts|
    ensures p in AlertProblems(es, alerts, n) <==> exists i: nat :: i < n && p in AlertProblem(es, alerts, i)
  {
    if n > 0 {
      SomeAlert(es, alerts, n - 1, p);
    }
  }

  /** What an exception is found under: the first usable one with the key. */
  ghost predicate FirstGood(es: seq<Exc>, n: nat, key: Key, j: int)
    requires n <= |es|
  {
    0 <= j < n && es[j].Good? && es[j].key == key && forall k :: 0 <= k < j ==> !(es[k].Good? && es[k].key == key)
  }

  lemma {:induction false} LookupIsFirst(es: seq<Exc>, n: nat, key: Key)
    requires n <= |es|
    ensures Lookup(es, n, key).Some? ==> exists j :: FirstGood(es, n, key, j) && es[j].entry == Lookup(es, n, key).value
    ensures forall j :: FirstGood(es, n, key, j) ==> Lookup(es, n, key) == Some(es[j].entry)
  {
    if n > 0 {
      LookupIsFirst(es, n - 1, key);
      LookupMember(es, n - 1, key);
      if Lookup(es, n - 1, key).Some? {
        var j :| FirstGood(es, n - 1, key, j) && es[j].entry == Lookup(es, n - 1, key).value;
        assert FirstGood(es, n, key, j);
      } else if es[n - 1].Good? && es[n - 1].key == key {
        assert FirstGood(es, n, key, n - 1);
      }
      forall j | FirstGood(es, n, key, j) ensures Lookup(es, n, key) == Some(es[j].entry) {
        assert j < n - 1 ==> FirstGood(es, n - 1, key, j);
      }
    }
  }

  ghost predicate First(alerts: seq<Alert>, n: nat, key: Key, i: nat)
    requires n <= |alerts|
  {
    i < n && IsFirst(alerts, i) && alerts[i].key == key
  }

  ghost predicate SomeFirst(alerts: seq<Alert>, n: nat, key: Key)
    requires n <= |alerts|
  {
    exists i: nat :: First(alerts, n, key, i)
  }

  lemma OneMoreFirst(alerts: seq<Alert>, n: nat, key: Key)
    requires 0 < n <= |alerts|
    ensures SomeFirst(alerts, n, key) <==> SomeFirst(alerts, n - 1, key) || First(alerts, n, key, n - 1)
  {
    var m := n - 1;
    if i: nat :| First(alerts, n, key, i) && i < m {
      assert First(alerts, m, key, i);
    }
    if i: nat :| First(alerts, m, key, i) {
      assert First(alerts, n, key, i);
    }
  }

  lemma OnlyFirst(alerts: seq<Alert>, i: nat, j: nat)
    requires i < j < |alerts| && IsFirst(alerts, j) && alerts[i].Alert?
    ensures alerts[i].key != alerts[j].key
  {
    SeenBefore(alerts, j, alerts[j].key);
  }

  lemma {:induction false} MissingAre(es: seq<Exc>, alerts: seq<Alert>, n: nat)
    requires n <= |alerts|
    ensures NoneTwice(MissingKeys(es, alerts, n))
    ensures forall key :: key in MissingKeys(es, alerts, n) <==>
              Lookup(es, |es|, key).None? && SomeFirst(alerts, n, key)
  {
    if n > 0 {
      MissingAre(es, alerts, n - 1);
      forall key { OneMoreFirst(alerts, n, key); }
      if IsFirst(alerts, n - 1) {
        forall i: nat | i < n - 1 && alerts[i].Alert? { OnlyFirst(alerts, i, n - 1); }
      }
    }
  }

  lemma {:induction false} ExpiredAre(es: seq<Exc>, alerts: seq<Alert>, today: int, n: nat)
    requires n <= |alerts|
    ensures NoneTwice(ExpiredKeys(es, alerts, today, n))
    ensures forall key :: key in ExpiredKeys(es, alerts, today, n) <==>
              Expired(Lookup(es, |es|, key), today) && SomeFirst(alerts, n, key)
  {
    if n > 0 {
      ExpiredAre(es, alerts, today, n - 1);
      forall key { OneMoreFirst(alerts, n, key); }
      if IsFirst(alerts, n - 1) {
        forall i: nat | i < n - 1 && alerts[i].Alert? { OnlyFirst(alerts, i, n - 1); }
      }
    }
  }

  // ----- from records and findings -----

  lemma JudgedAs(r: Record, parseDate: DateParser)
    ensures forall fields :: Judge(r, parseDate) == Broken(MissingFields(fields)) <==> IsMissing(r, fields)
    ensures Judge(r, parseDate) == Broken(InvalidDate) <==> Undated(r, parseDate)
    ensures Judge(r, parseDate) == Broken(BlankKey) <==> Blank(r, parseDate)
    ensures Judge(r, parseDate).Broken? ==>
              Judge(r, parseDate).problem.MissingFields? || Judge(r, parseDate).problem == InvalidDate ||
              Judge(r, parseDate).problem == BlankKey
  {
    AbsentMeaning(r);
    forall fields ensures IsMissing(r, fields) <==> fields != {} && fields == AbsentFields(r) {
      MissingSet(r, fields);
    }
  }

  lemma MissingSet(r: Record, fields: set<string>)
    ensures IsMissing(r, fields) <==> fields != {} && fields == AbsentFields(r)
  {
    forall f ensures f in AbsentFields(r) <==>
                     f in ["package", "advisory", "severity", "mitigation", "expires_on"] && (f !in r || r[f] == "")
    {
    }
    if IsMissing(r, fields) {
      assert fields == AbsentFields(r);
    }
  }

  lemma ExceptionReported(excs: seq<Record>, parseDate: DateParser, i: nat, p: Problem)
    requires i < |excs|
    ensures var es := JudgeAll(excs, parseDate);
            p in ExceptionProblem(es, i) <==>
            match p
            case MissingFields(fields) => IsMissing(excs[i], fields)
            case InvalidDate => Undated(excs[i], parseDate)
            case BlankKey => Blank(excs[i], parseDate)
            case DuplicateException(key) =>
              UsableFor(excs[i], parseDate, key) && exists j :: 0 <= j < i && UsableFor(excs[j], parseDate, key)
            case _ => false
  {
    var es := JudgeAll(excs, parseDate);
    JudgedAs(excs[i], parseDate);
    forall j | 0 <= j < |excs| ensures es[j].Good? <==> WellFormed(excs[j], parseDate)
                               ensures es[j].Good? ==> es[j].key == ExceptionKey(excs[j])
    {
      JudgeMeaning(excs[j], parseDate);
    }
    if es[i].Good? {
      LookupMember(es, i, es[i].key);
    }
  }

  lemma JudgedIsFirst(fs: seq<Finding>, key: Key)
    ensures forall i: nat :: First(GradeAll(fs), |fs|, key, i) <==> JudgedFor(fs, key, i)
    ensures SomeFirst(GradeAll(fs), |fs|, key) <==> exists i :: JudgedFor(fs, key, i)
  {
    forall i: nat | i < |fs| ensures First(GradeAll(fs), |fs|, key, i) <==> JudgedFor(fs, key, i) {
      FirstAgrees(fs, i);
      GradeMeaning(fs[i]);
    }
    if i :| JudgedFor(fs, key, i) {
      assert First(GradeAll(fs), |fs|, key, i);
    }
  }

  /** The entry looked up for a key is that of the exception that counts for it. */
  lemma LookupCounts(excs: seq<Record>, parseDate: DateParser, key: Key)
    ensures var es := JudgeAll(excs, parseDate);
            Lookup(es, |es|, key).None? <==> forall j :: 0 <= j < |excs| ==> !UsableFor(excs[j], parseDate, key)
    ensures var es := JudgeAll(excs, parseDate);
            Lookup(es, |es|, key).Some? ==> exists j :: CountsFor(excs, parseDate, key, j)
    ensures forall j :: CountsFor(excs, parseDate, key, j) ==>
              Lookup(JudgeAll(excs, parseDate), |excs|, key) ==
              Some(Entry(ExceptionSeverity(excs[j]), parseDate(Value(excs[j], "expires_on")).value))
  {
    var es := JudgeAll(excs, parseDate);
    forall j | 0 <= j < |excs|
      ensures es[j].Good? && es[j].key == key <==> UsableFor(excs[j], parseDate, key)
      ensures es[j].Good? ==>
                es[j].entry == Entry(ExceptionSeverity(excs[j]), parseDate(Value(excs[j], "expires_on")).value)
    {
      JudgeMeaning(excs[j], parseDate);
    }
    LookupMember(es, |es|, key);
    LookupIsFirst(es, |es|, key);
    assert forall j :: CountsFor(excs, parseDate, key, j) <==> FirstGood(es, |es|, key, j);
  }

  lemma SeverityOfKey(excs: seq<Record>, parseDate: DateParser, key: Key, got: string)
    ensures var e := Lookup(JudgeAll(excs, parseDate), |excs|, key);
            (e.Some? && e.value.severity == got) <==>
            exists j :: CountsFor(excs, parseDate, key, j) && ExceptionSeverity(excs[j]) == got
  {
    LookupCounts(excs, parseDate, key);
  }

  lemma MismatchAt(es: seq<Exc>, fs: seq<Finding>, p: Problem, i: nat)
    requires p.SeverityMismatch? && i < |fs|
    ensures var e := Lookup(es, |es|, p.key);
            p in AlertProblem(es, GradeAll(fs), i) <==>
            JudgedFor(fs, p.key, i) && NormalizeSeverity(fs[i].severity) == p.expected &&
            e.Some? && e.value.severity == p.got && p.got != "" && p.got != p.expected
  {
    FirstAgrees(fs, i);
    GradeMeaning(fs[i]);
  }

  lemma MismatchReported(excs: seq<Record>, parseDate: DateParser, fs: seq<Finding>, p: Problem)
    requires p.SeverityMismatch?
    ensures (exists i: nat :: i < |fs| && p in AlertProblem(JudgeAll(excs, parseDate), GradeAll(fs), i)) <==>
            Mismatch(excs, parseDate, fs, p.key, p.expected, p.got)
  {
    SeverityOfKey(excs, parseDate, p.key, p.got);
    forall i: nat | i < |fs| { MismatchAt(JudgeAll(excs, parseDate), fs, p, i); }
  }

  lemma NamelessReported(es: seq<Exc>, fs: seq<Finding>, p: Problem)
    requires !p.SeverityMismatch?
    ensures (exists i: nat :: i < |fs| && p in AlertProblem(es, GradeAll(fs), i)) <==>
            p.NoAdvisoryId? && exists i :: 0 <= i < |fs| && Nameless(fs[i], p.name, p.severity)
  {
    forall i: nat | i < |fs|
      ensures p in AlertProblem(es, GradeAll(fs), i) <==> p.NoAdvisoryId? && Nameless(fs[i], p.name, p.severity)
    {
      GradeMeaning(fs[i]);
    }
  }

  lemma ExceptionsReported(excs: seq<Record>, parseDate: DateParser, fs: seq<Finding>, p: Problem)
    requires !p.MissingExceptions? && !p.ExpiredExceptions? && !p.NoAdvisoryId? && !p.SeverityMismatch?
    ensures (exists i: nat :: i < |excs| && p in ExceptionProblem(JudgeAll(excs, parseDate), i)) <==>
            Reported(excs, parseDate, fs, p)
  {
    forall i: nat | i < |excs| { ExceptionReported(excs, parseDate, i, p); }
  }

  lemma NotOfExceptions(excs: seq<Record>, parseDate: DateParser, p: Problem)
    requires p.MissingExceptions? || p.ExpiredExceptions? || p.NoAdvisoryId? || p.SeverityMismatch?
    ensures forall i: nat :: i < |excs| ==> p !in ExceptionProblem(JudgeAll(excs, parseDate), i)
  {
    forall i: nat | i < |excs| { ExceptionReported(excs, parseDate, i, p); }
  }

  lemma PartOf(es: seq<Exc>, alerts: seq<Alert>, today: int, p: Problem)
    requires !p.MissingExceptions? && !p.ExpiredExceptions?
    ensures p in AllProblems(es, alerts, today) <==>
            p in ExceptionProblems(es, |es|) || p in AlertProblems(es, alerts, |alerts|)
  {
  }

  /** A problem with an exception or a finding is reported exactly when some exception or finding has it. */
  lemma ProblemsExactly(excs: seq<Record>, parseDate: DateParser, fs: seq<Finding>, today: int, p: Problem)
    requires !p.MissingExceptions? && !p.ExpiredExceptions?
    ensures p in AllProblems(JudgeAll(excs, parseDate), GradeAll(fs), today) <==> Reported(excs, parseDate, fs, p)
  {
    var es, alerts := JudgeAll(excs, parseDate), GradeAll(fs);
    PartOf(es, alerts, today, p);
    SomeException(es, |es|, p);
    SomeAlert(es, alerts, |alerts|, p);
    if p.SeverityMismatch? {
      NotOfExceptions(excs, parseDate, p);
      MismatchReported(excs, parseDate, fs, p);
    } else {
      NamelessReported(es, fs, p);
      if p.NoAdvisoryId? {
        NotOfExceptions(excs, parseDate, p);
      } else {
        ExceptionsReported(excs, parseDate, fs, p);
      }
    }
  }

  lemma KeysAre(excs: seq<Record>, parseDate: DateParser, fs: seq<Finding>, today: int)
    ensures var es, alerts := JudgeAll(excs, parseDate), GradeAll(fs);
            var missing, expired := MissingKeys(es, alerts, |alerts|), ExpiredKeys(es, alerts, today, |alerts|);
            NoneTwice(missing) && (forall key :: key in missing <==> Uncovered(excs, parseDate, fs, key)) &&
            NoneTwice(expired) && (forall key :: key in expired <==> RunOut(excs, parseDate, fs, today, key))
  {
    var es, alerts := JudgeAll(excs, parseDate), GradeAll(fs);
    MissingAre(es, alerts, |alerts|);
    ExpiredAre(es, alerts, today, |alerts|);
    forall key
      ensures Lookup(es, |es|, key).None? && SomeFirst(alerts, |fs|, key) <==> Uncovered(excs, parseDate, fs, key)
      ensures Expired(Lookup(es, |es|, key), today) && SomeFirst(alerts, |fs|, key) <==>
              RunOut(excs, parseDate, fs, today, key)
    {
      LookupCounts(excs, parseDate, key);
      JudgedIsFirst(fs, key);
    }
  }

  lemma {:induction false} NotOfAlerts(es: seq<Exc>, alerts: seq<Alert>, n: nat, p: Problem)
    requires n <= |alerts| && p in AlertProblems(es, alerts, n)
    ensures p.NoAdvisoryId? || p.SeverityMismatch?
  {
    if p !in AlertProblem(es, alerts, n - 1) {
      NotOfAlerts(es, alerts, n - 1, p);
    }
  }

  lemma NotAmongExceptions(excs: seq<Record>, parseDate: DateParser, p: Problem)
    requires p.MissingExceptions? || p.ExpiredExceptions?
    ensures p !in ExceptionProblems(JudgeAll(excs, parseDate), |excs|)
  {
    SomeException(JudgeAll(excs, parseDate), |excs|, p);
    NotOfExceptions(excs, parseDate, p);
  }

  lemma NotAmongParts(excs: seq<Record>, parseDate: DateParser, alerts: seq<Alert>, p: Problem)
    requires p.MissingExceptions? || p.ExpiredExceptions?
    ensures p !in ExceptionProblems(JudgeAll(excs, parseDate), |excs|)
    ensures p !in AlertProblems(JudgeAll(excs, parseDate), alerts, |alerts|)
  {
    NotAmongExceptions(excs, parseDate, p);
    if p in AlertProblems(JudgeAll(excs, parseDate), alerts, |alerts|) {
      NotOfAlerts(JudgeAll(excs, parseDate), alerts, |alerts|, p);
    }
  }

  lemma ListsAre(excs: seq<Record>, parseDate: DateParser, alerts: seq<Alert>, today: int, keys: seq<Key>)
    ensures var es := JudgeAll(excs, parseDate);
            MissingExceptions(keys) in AllProblems(es, alerts, today) <==>
            keys != [] && keys == MissingKeys(es, alerts, |alerts|)
    ensures var es := JudgeAll(excs, parseDate);
            ExpiredExceptions(keys) in AllProblems(es, alerts, today) <==>
            keys != [] && keys == ExpiredKeys(es, alerts, today, |alerts|)
  {
    NotAmongParts(excs, parseDate, alerts, MissingExceptions(keys));
    NotAmongParts(excs, parseDate, alerts, ExpiredExceptions(keys));
  }

  /** The report lists once each key of an alarming finding that no usable exception is for, if there is
      any, and likewise each whose exception has run out. */
  lemma ListsExactly(excs: seq<Record>, parseDate: DateParser, fs: seq<Finding>, today: int)
    ensures var all := AllProblems(JudgeAll(excs, parseDate), GradeAll(fs), today);
            (forall keys :: MissingExceptions(keys) in all ==>
               keys != [] && NoneTwice(keys) && forall key :: key in keys <==> Uncovered(excs, parseDate, fs, key)) &&
            (forall keys :: ExpiredExceptions(keys) in all ==>
               keys != [] && NoneTwice(keys) &&
               forall key :: key in keys <==> RunOut(excs, parseDate, fs, today, key))
    ensures var all := AllProblems(JudgeAll(excs, parseDate), GradeAll(fs), today);
            ((exists key :: Uncovered(excs, parseDate, fs, key)) ==> exists keys :: MissingExceptions(keys) in all) &&
            ((exists key :: RunOut(excs, parseDate, fs, today, key)) ==> exists keys :: ExpiredExceptions(keys) in all)
  {
    KeysAre(excs, parseDate, fs, today);
    forall keys { ListsAre(excs, parseDate, GradeAll(fs), today, keys); }
  }
}
