/** The hand-written reader of the audit exceptions file
    (tools/check_pnpm_audit_exceptions.py, split_kv and parse_exceptions). */
module AuditParser {
  import opened Wrappers
  import opened Text

  type Pair = (string, string)
  type Record = map<string, string>

  /** An item line without a colon makes `split_kv` raise. */
  datatype ParseError = MissingColon(line: string)

  predicate Quoted(value: string, quote: char) {
    value != "" && value[0] == quote && value[|value| - 1] == quote
  }

  /** `value[1:-1]`, which is empty for a single quote character. */
  function Unquote(value: string): string {
    if Quoted(value, '"') || Quoted(value, '\'') then
      if |value| < 2 then "" else value[1..|value| - 1]
    else value
  }

  function SplitKV(line: string): Pair
    requires ':' in line
  {
    var i := Find(line, ':');
    (Strip(line[..i]), Unquote(Strip(line[i + 1..])))
  }

  /** What one raw line asks the parser to do. */
  datatype Directive =
    | Skip
    | Item(first: Option<Pair>)
    | Entry(pair: Pair)
    | Malformed(line: string)

  function Classify(raw: string): Directive {
    ClassifyLine(Strip(raw))
  }

  function ClassifyLine(line: string): Directive {
    if line == "" || "#" <= line then Skip
    else if "version:" <= line || "exceptions:" <= line then Skip
    else if "- " <= line then ClassifyItem(Strip(line[2..]))
    else if ':' in line then Entry(SplitKV(line))
    else Skip
  }

  function ClassifyItem(rest: string): Directive {
    if rest == "" then Item(None)
    else if ':' in rest then Item(Some(SplitKV(rest)))
    else Malformed(rest)
  }

  // ----- what a list of directives means -----

  /** `done` are the closed records, `current` the one being read. */
  datatype State = State(done: seq<Record>, current: Option<Record>)
  {
    function Flush(): seq<Record> {
      if current.Some? && current.value != map[] then done + [current.value] else done
    }
  }

  const START := State([], None)

  function Step(st: State, d: Directive): Result<State, ParseError> {
    match d
    case Skip => Success(st)
    case Malformed(line) => Failure(MissingColon(line))
    case Item(None) => Success(State(st.Flush(), Some(map[])))
    case Item(Some(p)) => Success(State(st.Flush(), Some(map[p.0 := p.1])))
    case Entry(p) =>
      if st.current.None? then Success(st)
      else Success(st.(current := Some(st.current.value[p.0 := p.1])))
  }

  function Run(st: State, ds: seq<Directive>): Result<State, ParseError>
    decreases |ds|
  {
    if ds == [] then Success(st)
    else
      var r := Step(st, ds[0]);
      if r.Failure? then r else Run(r.value, ds[1..])
  }

  function Finish(r: Result<State, ParseError>): Result<seq<Record>, ParseError> {
    if r.Failure? then Failure(r.error) else Success(r.value.Flush())
  }

  function Directives(lines: seq<string>): (ds: seq<Directive>)
    ensures |ds| == |lines|
  {
    if lines == [] then [] else [Classify(lines[0])] + Directives(lines[1..])
  }

  function Parse(lines: seq<string>): Result<seq<Record>, ParseError> {
    Finish(Run(START, Directives(lines)))
  }

  lemma {:induction false} DirectivesAppend(a: seq<string>, b: seq<string>)
    ensures Directives(a + b) == Directives(a) + Directives(b)
  {
    if a == [] {
      assert a + b == b;
    } else {
      assert (a + b)[0] == a[0] && (a + b)[1..] == a[1..] + b;
      DirectivesAppend(a[1..], b);
    }
  }

  lemma {:induction false} RunAppend(st: State, a: seq<Directive>, b: seq<Directive>)
    ensures Run(st, a + b) == (var r := Run(st, a); if r.Failure? then r else Run(r.value, b))
    decreases |a|
  {
    if a == [] {
      assert a + b == b;
    } else {
      assert (a + b)[0] == a[0] && (a + b)[1..] == a[1..] + b;
      var r := Step(st, a[0]);
      if r.Success? {
        RunAppend(r.value, a[1..], b);
      }
    }
  }

  lemma RunOneMore(lines: seq<string>, n: nat, st: State)
    requires n < |lines| && Run(START, Directives(lines[..n])) == Success(st)
    ensures var r := Step(st, Classify(lines[n]));
            Run(START, Directives(lines[..n + 1])) == r && (r.Failure? ==> Parse(lines) == Finish(r))
  {
    var d := Classify(lines[n]);
    assert lines[..n + 1] == lines[..n] + [lines[n]] && lines == lines[..n + 1] + lines[n + 1..];
    DirectivesAppend(lines[..n], [lines[n]]);
    DirectivesAppend(lines[..n + 1], lines[n + 1..]);
    assert Directives([lines[n]]) == [d];
    RunAppend(START, Directives(lines[..n]), [d]);
    RunAppend(START, Directives(lines[..n + 1]), Directives(lines[n + 1..]));
    assert Run(st, [d]) == Step(st, d);
  }

  /** The loop of `parse_exceptions` over the lines of the file. */
  method ParseExceptions(lines: seq<string>) returns (r: Result<seq<Record>, ParseError>)
    ensures r == Parse(lines)
  {
    var exceptions: seq<Record> := [];
    var current: Option<Record> := None;
    var n := 0;
    while n < |lines|
      invariant n <= |lines|
      invariant Run(START, Directives(lines[..n])) == Success(State(exceptions, current))
    {
      RunOneMore(lines, n, State(exceptions, current));
      var line := Strip(lines[n]);
      n := n + 1;
      if line == "" || "#" <= line {
        continue;
      }
      if "version:" <= line || "exceptions:" <= line {
        continue;
      }
      if "- " <= line {
        if current.Some? && current.value != map[] {
          exceptions := exceptions + [current.value];
        }
        current := Some(map[]);
        line := Strip(line[2..]);
        if line != "" {
          if ':' !in line {
            return Failure(MissingColon(line));
          }
          var kv := SplitKV(line);
          current := Some(current.value[kv.0 := kv.1]);
        }
        continue;
      }
      if current.Some? && ':' in line {
        var kv := SplitKV(line);
        current := Some(current.value[kv.0 := kv.1]);
      }
    }
    assert lines[..n] == lines;
    if current.Some? && current.value != map[] {
      exceptions := exceptions + [current.value];
    }
    return Success(exceptions);
  }

  // ----- noise lines -----

  /** Blank lines, comments, the two header keys, and lines with neither an item mark nor a colon. */
  predicate IsNoise(raw: string) {
    var line := Strip(raw);
    line == "" || line[0] == '#' || "version:" <= line || "exceptions:" <= line ||
    (!("- " <= line) && ':' !in line)
  }

  lemma NoiseIsSkipped(raw: string)
    requires IsNoise(raw)
    ensures Classify(raw) == Skip
  {
  }

  /** A dash alone on its line is such a line: stripping has taken the space off the item mark. */
  lemma DashAloneIsNoise(before: string, after: string)
    requires AllSpace(before) && AllSpace(after)
    ensures IsNoise(before + "-" + after)
  {
    StripBetween(before, "-", after);
    StripTrimmed("-");
  }

  function WithoutNoise(lines: seq<string>): seq<string> {
    if lines == [] then []
    else if IsNoise(lines[0]) then WithoutNoise(lines[1..])
    else [lines[0]] + WithoutNoise(lines[1..])
  }

  lemma {:induction false} RunWithoutNoise(st: State, lines: seq<string>)
    ensures Run(st, Directives(lines)) == Run(st, Directives(WithoutNoise(lines)))
    decreases |lines|
  {
    if lines != [] {
      var d := Classify(lines[0]);
      var r := Step(st, d);
      assert Directives(lines)[1..] == Directives(lines[1..]);
      if r.Success? {
        RunWithoutNoise(r.value, lines[1..]);
      }
      if IsNoise(lines[0]) {
        NoiseIsSkipped(lines[0]);
      } else {
        var kept := WithoutNoise(lines);
        assert kept[0] == lines[0] && kept[1..] == WithoutNoise(lines[1..]);
        assert Directives(kept)[0] == d && Directives(kept)[1..] == Directives(kept[1..]);
      }
    }
  }

  /** Two files that differ only in noise lines, wherever those stand, parse alike. */
  lemma NoiseIsIrrelevant(a: seq<string>, b: seq<string>)
    requires WithoutNoise(a) == WithoutNoise(b)
    ensures Parse(a) == Parse(b)
  {
    RunWithoutNoise(START, a);
    RunWithoutNoise(START, b);
  }

  lemma {:induction false} WithoutNoiseAppend(a: seq<string>, b: seq<string>)
    ensures WithoutNoise(a + b) == WithoutNoise(a) + WithoutNoise(b)
  {
    if a == [] {
      assert a + b == b;
    } else {
      assert (a + b)[0] == a[0] && (a + b)[1..] == a[1..] + b;
      WithoutNoiseAppend(a[1..], b);
    }
  }

  lemma {:induction false} OnlyNoise(noise: seq<string>)
    requires forall i | 0 <= i < |noise| :: IsNoise(noise[i])
    ensures WithoutNoise(noise) == []
  {
    if noise != [] {
      OnlyNoise(noise[1..]);
    }
  }

  lemma InsertNoise(a: seq<string>, noise: seq<string>, b: seq<string>)
    requires forall i | 0 <= i < |noise| :: IsNoise(noise[i])
    ensures Parse(a + noise + b) == Parse(a + b)
  {
    OnlyNoise(noise);
    WithoutNoiseAppend(a + noise, b);
    WithoutNoiseAppend(a, noise);
    WithoutNoiseAppend(a, b);
    NoiseIsIrrelevant(a + noise + b, a + b);
  }

  // ----- when parsing fails, and when it finds nothing -----

  /** An item line whose rest has no colon. */
  predicate IsBadItem(raw: string) {
    var line := Strip(raw);
    "- " <= line && ':' !in Strip(line[2..])
  }

  predicate OpensItem(raw: string) {
    "- " <= Strip(raw)
  }

  /** What follows an item mark is never empty: the line itself has been stripped. */
  lemma ItemHasRest(line: string)
    requires Trimmed(line) && "- " <= line
    ensures Strip(line[2..]) != ""
  {
    assert |line| > 2 by {
      assert line[1] == ' ';
    }
    var rest := line[2..];
    var before, after := StripExactly(rest);
    assert !IsSpace(rest[|rest| - 1]);
    assert rest == before + after ==> AllSpace(rest);
  }

  lemma BadItems(raw: string)
    ensures Classify(raw).Malformed? <==> IsBadItem(raw)
    ensures IsBadItem(raw) ==> Classify(raw) == Malformed(Strip(Strip(raw)[2..]))
    ensures Classify(raw).Item? <==> OpensItem(raw) && !IsBadItem(raw)
    ensures Classify(raw) != Item(None)
  {
    if OpensItem(raw) {
      ItemHasRest(Strip(raw));
    }
  }

  /** A line is split at its first colon; key and value lose their padding, and then the value its quotes. */
  lemma SplitExactly(key: string, value: string)
    requires ':' !in key
    ensures var line := key + ":" + value; ':' in line && SplitKV(line) == (Strip(key), Unquote(Strip(value)))
  {
    var line := key + ":" + value;
    assert line == key + [':'] + value && line[|key|] == ':';
    FindAfter(key, ':', value);
    assert line[..|key|] == key && line[|key| + 1..] == value;
  }

  /** What every other line means: a pair of the current record, or of a new one after an item mark. */
  lemma PairExactly(raw: string, key: string, value: string)
    requires ':' !in key
    ensures !IsNoise(raw) && !OpensItem(raw) && Strip(raw) == key + ":" + value ==>
              Classify(raw) == Entry((Strip(key), Unquote(Strip(value))))
    ensures OpensItem(raw) && Strip(Strip(raw)[2..]) == key + ":" + value ==>
              Classify(raw) == Item(Some((Strip(key), Unquote(Strip(value)))))
  {
    SplitExactly(key, value);
  }

  ghost predicate FirstBad(lines: seq<string>, i: nat)
    requires i < |lines|
  {
    IsBadItem(lines[i]) && forall j :: 0 <= j < i ==> !IsBadItem(lines[j])
  }

  lemma {:induction false} RunFails(st: State, lines: seq<string>, i: nat)
    requires i < |lines| && FirstBad(lines, i)
    ensures Run(st, Directives(lines)) == Failure(MissingColon(Strip(Strip(lines[i])[2..])))
    decreases i
  {
    BadItems(lines[0]);
    assert Directives(lines)[1..] == Directives(lines[1..]);
    if i > 0 {
      assert !IsBadItem(lines[0]);
      RunFails(Step(st, Classify(lines[0])).value, lines[1..], i - 1);
    }
  }

  lemma {:induction false} RunSucceeds(st: State, lines: seq<string>)
    requires forall i :: 0 <= i < |lines| ==> !IsBadItem(lines[i])
    ensures Run(st, Directives(lines)).Success?
    ensures (forall i :: 0 <= i < |lines| ==> !OpensItem(lines[i])) && st.current.None? ==>
              Run(st, Directives(lines)) == Success(st)
    decreases |lines|
  {
    if lines != [] {
      BadItems(lines[0]);
      assert !IsBadItem(lines[0]) && Directives(lines)[1..] == Directives(lines[1..]);
      assert forall i :: 0 <= i < |lines[1..]| ==> lines[1..][i] == lines[i + 1];
      RunSucceeds(Step(st, Classify(lines[0])).value, lines[1..]);
    }
  }

  /** Parsing fails at the first item line whose rest has no colon, and only then. */
  lemma ParseFailsExactly(lines: seq<string>)
    ensures Parse(lines).Failure? <==> exists i :: 0 <= i < |lines| && IsBadItem(lines[i])
    ensures forall i: nat :: i < |lines| && FirstBad(lines, i) ==>
              Parse(lines) == Failure(MissingColon(Strip(Strip(lines[i])[2..])))
  {
    forall i: nat | i < |lines| && FirstBad(lines, i) { RunFails(START, lines, i); }
    if k :| 0 <= k < |lines| && IsBadItem(lines[k]) {
      var i := FirstBadExists(lines, k);
    } else {
      RunSucceeds(START, lines);
    }
  }

  lemma FirstBadExists(lines: seq<string>, k: nat) returns (i: nat)
    requires k < |lines| && IsBadItem(lines[k])
    ensures i < |lines| && FirstBad(lines, i)
  {
    i := k;
    if j :| 0 <= j < k && IsBadItem(lines[j]) {
      i := FirstBadExists(lines, j);
    }
  }

  /** Without an item mark there are no records, whatever the lines say. */
  lemma NothingWithoutItems(lines: seq<string>)
    requires forall i :: 0 <= i < |lines| ==> !OpensItem(lines[i])
    ensures Parse(lines) == Success([])
  {
    RunSucceeds(START, lines);
  }

  // ----- compositionality -----

  /** The first directive that is not a skip, if there is one, opens an item. */
  predicate StartsWithItem(ds: seq<Directive>) {
    ds != [] && !ds[0].Item? && !ds[0].Malformed? ==> ds[0].Skip? && StartsWithItem(ds[1..])
  }

  function Prefix(front: seq<Record>, r: Result<State, ParseError>): Result<State, ParseError> {
    if r.Failure? then r else Success(State(front + r.value.done, r.value.current))
  }

  lemma FlushPrefix(front: seq<Record>, st: State)
    ensures State(front + st.done, st.current).Flush() == front + st.Flush()
  {
    if st.current.Some? {
      assert front + (st.done + [st.current.value]) == (front + st.done) + [st.current.value];
    }
  }

  lemma {:induction false} RunPrefix(front: seq<Record>, st: State, ds: seq<Directive>)
    ensures Run(State(front + st.done, st.current), ds) == Prefix(front, Run(st, ds))
    decreases |ds|
  {
    if ds != [] {
      FlushPrefix(front, st);
      var r := Step(st, ds[0]);
      if r.Success? {
        RunPrefix(front, r.value, ds[1..]);
      }
    }
  }

  function Concat(a: Result<seq<Record>, ParseError>, b: Result<seq<Record>, ParseError>)
    : Result<seq<Record>, ParseError>
  {
    if a.Failure? then a else if b.Failure? then b else Success(a.value + b.value)
  }

  lemma {:induction false} RunFromItem(st: State, ds: seq<Directive>)
    requires StartsWithItem(ds)
    ensures Finish(Run(st, ds)) == Concat(Success(st.Flush()), Finish(Run(START, ds)))
    decreases |ds|
  {
    if ds == [] {
      assert st.Flush() + [] == st.Flush();
    } else {
      if ds[0].Skip? {
        RunFromItem(st, ds[1..]);
      } else if ds[0].Item? {
        var next := Step(START, ds[0]).value;
        assert st.Flush() + next.done == st.Flush();
        RunPrefix(st.Flush(), next, ds[1..]);
        var r := Run(next, ds[1..]);
        if r.Success? {
          FlushPrefix(st.Flush(), r.value);
        }
      }
    }
  }

  /** Reading one file after another is reading their concatenation. */
  lemma ParseComposes(a: seq<string>, b: seq<string>)
    requires StartsWithItem(Directives(b))
    ensures Parse(a + b) == Concat(Parse(a), Parse(b))
  {
    DirectivesAppend(a, b);
    RunAppend(START, Directives(a), Directives(b));
    var r := Run(START, Directives(a));
    if r.Success? {
      RunFromItem(r.value, Directives(b));
    }
  }

  // ----- printing -----

  predicate PlainKey(k: string) {
    Trimmed(k) && ':' !in k && SingleLine(k)
  }

  /** A key that may open a continuation line: not taken for a comment, an item or a header. */
  predicate InnerKey(k: string) {
    !("#" <= k) && !("- " <= k) && k != "version" && k != "exceptions"
  }

  /** How the value of a pair is written. */
  datatype Style = Bare | Single | Double

  function Shown(value: string, style: Style): string {
    match style
    case Bare => value
    case Single => "'" + value + "'"
    case Double => "\"" + value + "\""
  }

  /** Without quotes a value must have neither padding nor the same quote at both ends. */
  predicate Showable(value: string, style: Style) {
    SingleLine(value) &&
    (style.Bare? ==> value != "" && Trimmed(value) && !(value[0] in "\"'" && value[|value| - 1] == value[0]))
  }

  predicate Printable(r: seq<Pair>, style: Pair -> Style) {
    r != [] &&
    (forall i | 0 <= i < |r| :: PlainKey(r[i].0) && Showable(r[i].1, style(r[i]))) &&
    (forall i | 1 <= i < |r| :: InnerKey(r[i].0))
  }

  function PrintPair(p: Pair, style: Style): string {
    p.0 + ":" + " " + Shown(p.1, style)
  }

  function PrintInner(pairs: seq<Pair>, indent: string, style: Pair -> Style): seq<string> {
    if pairs == [] then []
    else [indent + PrintPair(pairs[0], style(pairs[0]))] + PrintInner(pairs[1..], indent, style)
  }

  function PrintRecord(r: seq<Pair>, outer: string, inner: string, style: Pair -> Style): seq<string> {
    if r == [] then [] else [outer + "- " + PrintPair(r[0], style(r[0]))] + PrintInner(r[1..], inner, style)
  }

  function Print(rs: seq<seq<Pair>>, outer: string, inner: string, style: Pair -> Style): seq<string> {
    if rs == [] then [] else PrintRecord(rs[0], outer, inner, style) + Print(rs[1..], outer, inner, style)
  }

  /** The dictionary a list of pairs denotes: later pairs win. */
  function AddAll(m: Record, pairs: seq<Pair>): Record
    decreases |pairs|
  {
    if pairs == [] then m else AddAll(m[pairs[0].0 := pairs[0].1], pairs[1..])
  }

  function ToRecords(rs: seq<seq<Pair>>): seq<Record> {
    if rs == [] then [] else [AddAll(map[], rs[0])] + ToRecords(rs[1..])
  }

  lemma UnquotePrinted(v: string, style: Style)
    requires Showable(v, style)
    ensures Unquote(Shown(v, style)) == v && Trimmed(Shown(v, style)) && Shown(v, style) != ""
  {
    UnquoteExactly(v);
  }

  /** Quotes are taken off exactly when both ends carry the same one; the lone quote character is
      such a value too. */
  lemma UnquoteExactly(value: string)
    ensures Unquote("\"" + value + "\"") == Unquote("'" + value + "'") == value
    ensures Unquote("\"" + value + "'") == "\"" + value + "'" && Unquote("'" + value + "\"") == "'" + value + "\""
    ensures Unquote(value) == value <==> value == "" || !(value[0] in "\"'" && value[|value| - 1] == value[0])
  {
    var a, b := "\"" + value + "\"", "'" + value + "'";
    assert a[1..|a| - 1] == value && b[1..|b| - 1] == value;
    var c, d := "\"" + value + "'", "'" + value + "\"";
    assert c[0] == '"' && c[|c| - 1] == '\'' && d[0] == '\'' && d[|d| - 1] == '"';
  }

  lemma SplitPrinted(p: Pair, style: Style)
    requires PlainKey(p.0) && Showable(p.1, style)
    ensures ':' in PrintPair(p, style) && SplitKV(PrintPair(p, style)) == p
  {
    var line := PrintPair(p, style);
    var value := Shown(p.1, style);
    assert line == p.0 + [':'] + (" " + value);
    assert line[|p.0|] == ':';
    FindAfter(p.0, ':', " " + value);
    assert line[..|p.0|] == p.0 && line[|p.0| + 1..] == " " + value;
    StripTrimmed(p.0);
    UnquotePrinted(p.1, style);
    StripPadding(" ", value);
  }

  lemma PrintedIsTrimmed(p: Pair, style: Style)
    requires PlainKey(p.0) && Showable(p.1, style)
    ensures Trimmed(PrintPair(p, style))
  {
    var line, value := PrintPair(p, style), Shown(p.1, style);
    UnquotePrinted(p.1, style);
    assert line[|line| - 1] == value[|value| - 1];
    assert line[0] == if p.0 == "" then ':' else p.0[0];
  }

  /** A header `h:` opens the printed line exactly when the key is `h`. */
  lemma HeaderPrefix(h: string, p: Pair, style: Style)
    requires ':' !in h && PlainKey(p.0)
    ensures h + ":" <= PrintPair(p, style) <==> p.0 == h
  {
    var line := PrintPair(p, style);
    var after := " " + Shown(p.1, style);
    assert line == p.0 + [':'] + after;
    if h + ":" <= line {
      var tail := line[|h| + 1..];
      assert line == h + [':'] + tail;
      FindAfter(h, ':', tail);
      FindAfter(p.0, ':', after);
      assert line[..|h|] == h && line[..|p.0|] == p.0;
    }
  }

  lemma MarkPrefix(p: Pair, style: Style)
    requires PlainKey(p.0)
    ensures "#" <= PrintPair(p, style) <==> "#" <= p.0
    ensures "- " <= PrintPair(p, style) <==> "- " <= p.0
  {
    var line := PrintPair(p, style);
    assert line[|p.0|] == ':';
    assert forall i | 0 <= i < |p.0| :: line[i] == p.0[i];
  }

  lemma EntryLine(line: string)
    requires ':' in line
    ensures ClassifyLine(line) == Entry(SplitKV(line)) <==>
            !("#" <= line) && !("version:" <= line) && !("exceptions:" <= line) && !("- " <= line)
  {
  }

  lemma ItemLine(rest: string)
    ensures ClassifyLine("- " + rest) == ClassifyItem(Strip(rest))
  {
    var line := "- " + rest;
    assert line[0] == '-' && line[1] == ' ' && line[2..] == rest;
  }

  lemma KeyIsInner(p: Pair, style: Style)
    requires PlainKey(p.0)
    ensures var line := PrintPair(p, style);
            InnerKey(p.0) <==>
            !("#" <= line) && !("version:" <= line) && !("exceptions:" <= line) && !("- " <= line)
  {
    MarkPrefix(p, style);
    HeaderPrefix("version", p, style);
    HeaderPrefix("exceptions", p, style);
    assert "version" + ":" == "version:" && "exceptions" + ":" == "exceptions:";
  }

  /** A printed pair on a line of its own is read back exactly when its key is not a mark or a header. */
  lemma PrintedEntry(p: Pair, style: Style, indent: string)
    requires PlainKey(p.0) && Showable(p.1, style) && AllSpace(indent)
    ensures Classify(indent + PrintPair(p, style)) == Entry(p) <==> InnerKey(p.0)
  {
    assert Strip(indent + PrintPair(p, style)) == PrintPair(p, style) by {
      PrintedIsTrimmed(p, style);
      StripPadding(indent, PrintPair(p, style));
    }
    SplitPrinted(p, style);
    EntryLine(PrintPair(p, style));
    KeyIsInner(p, style);
  }

  lemma PrintedItem(p: Pair, style: Style, indent: string)
    requires PlainKey(p.0) && Showable(p.1, style) && AllSpace(indent)
    ensures Classify(indent + "- " + PrintPair(p, style)) == Item(Some(p))
  {
    var body := PrintPair(p, style);
    assert Strip(indent + "- " + body) == "- " + body by {
      PrintedIsTrimmed(p, style);
      assert indent + "- " + body == indent + ("- " + body);
      StripPadding(indent, "- " + body);
    }
    ItemLine(body);
    assert ClassifyItem(Strip(body)) == Item(Some(p)) by {
      PrintedIsTrimmed(p, style);
      StripTrimmed(body);
      SplitPrinted(p, style);
    }
  }

  // ----- the directives of a printed file -----

  function Entries(pairs: seq<Pair>): seq<Directive> {
    if pairs == [] then [] else [Entry(pairs[0])] + Entries(pairs[1..])
  }

  function RecordDirectives(r: seq<Pair>): seq<Directive> {
    if r == [] then [] else [Item(Some(r[0]))] + Entries(r[1..])
  }

  function FileDirectives(rs: seq<seq<Pair>>): seq<Directive> {
    if rs == [] then [] else RecordDirectives(rs[0]) + FileDirectives(rs[1..])
  }

  lemma {:induction false} InnerDirectives(pairs: seq<Pair>, indent: string, style: Pair -> Style)
    requires forall i | 0 <= i < |pairs| ::
      PlainKey(pairs[i].0) && InnerKey(pairs[i].0) && Showable(pairs[i].1, style(pairs[i]))
    requires AllSpace(indent)
    ensures Directives(PrintInner(pairs, indent, style)) == Entries(pairs)
  {
    if pairs != [] {
      PrintedEntry(pairs[0], style(pairs[0]), indent);
      InnerDirectives(pairs[1..], indent, style);
      assert PrintInner(pairs, indent, style)[1..] == PrintInner(pairs[1..], indent, style);
    }
  }

  lemma {:induction false} PrintedDirectives(rs: seq<seq<Pair>>, outer: string, inner: string, style: Pair -> Style)
    requires forall i | 0 <= i < |rs| :: Printable(rs[i], style)
    requires AllSpace(outer) && AllSpace(inner)
    ensures Directives(Print(rs, outer, inner, style)) == FileDirectives(rs)
  {
    if rs != [] {
      var r := rs[0];
      PrintedItem(r[0], style(r[0]), outer);
      InnerDirectives(r[1..], inner, style);
      assert PrintRecord(r, outer, inner, style)[1..] == PrintInner(r[1..], inner, style);
      DirectivesAppend(PrintRecord(r, outer, inner, style), Print(rs[1..], outer, inner, style));
      PrintedDirectives(rs[1..], outer, inner, style);
    }
  }

  lemma {:induction false} RunEntries(st: State, pairs: seq<Pair>)
    requires st.current.Some?
    ensures Run(st, Entries(pairs)) == Success(st.(current := Some(AddAll(st.current.value, pairs))))
    decreases |pairs|
  {
    if pairs != [] {
      assert Entries(pairs)[1..] == Entries(pairs[1..]);
      RunEntries(st.(current := Some(st.current.value[pairs[0].0 := pairs[0].1])), pairs[1..]);
    }
  }

  lemma {:induction false} AddAllGrows(m: Record, pairs: seq<Pair>)
    ensures m.Keys <= AddAll(m, pairs).Keys
    decreases |pairs|
  {
    if pairs != [] {
      AddAllGrows(m[pairs[0].0 := pairs[0].1], pairs[1..]);
    }
  }

  lemma RunRecord(st: State, r: seq<Pair>)
    requires r != []
    ensures var record := AddAll(map[], r);
            record != map[] && Run(st, RecordDirectives(r)) == Success(State(st.Flush(), Some(record)))
  {
    var one: Record := map[][r[0].0 := r[0].1];
    AddAllGrows(one, r[1..]);
    assert r[0].0 in AddAll(map[], r);
    assert RecordDirectives(r)[1..] == Entries(r[1..]);
    assert map[r[0].0 := r[0].1] == one;
    RunEntries(State(st.Flush(), Some(one)), r[1..]);
  }

  lemma FlushRecord(front: seq<Record>, record: Record, rest: seq<Record>)
    requires record != map[]
    ensures State(front, Some(record)).Flush() + rest == front + ([record] + rest)
  {
  }

  lemma {:induction false} RunFile(st: State, rs: seq<seq<Pair>>)
    requires forall i | 0 <= i < |rs| :: rs[i] != []
    ensures Finish(Run(st, FileDirectives(rs))) == Success(st.Flush() + ToRecords(rs))
    decreases |rs|
  {
    if rs == [] {
      assert st.Flush() + [] == st.Flush();
    } else {
      var record, tail := AddAll(map[], rs[0]), rs[1..];
      var head, rest := RecordDirectives(rs[0]), FileDirectives(tail);
      var next := State(st.Flush(), Some(record));
      assert record != map[] && Run(st, head) == Success(next) by {
        RunRecord(st, rs[0]);
      }
      assert Run(st, head + rest) == Run(next, rest) by {
        RunAppend(st, head, rest);
      }
      RunFile(next, tail);
      FlushRecord(st.Flush(), record, ToRecords(tail));
    }
  }

  predicate SingleLines(ls: seq<string>) {
    forall i | 0 <= i < |ls| :: SingleLine(ls[i])
  }

  lemma {:induction false} PrintInnerSingleLine(pairs: seq<Pair>, indent: string, style: Pair -> Style)
    requires forall i | 0 <= i < |pairs| :: SingleLine(pairs[i].0) && SingleLine(pairs[i].1)
    requires SingleLine(indent)
    ensures SingleLines(PrintInner(pairs, indent, style))
  {
    if pairs != [] {
      PrintInnerSingleLine(pairs[1..], indent, style);
    }
  }

  lemma RecordSingleLine(r: seq<Pair>, outer: string, inner: string, style: Pair -> Style)
    requires Printable(r, style) && SingleLine(outer) && SingleLine(inner)
    ensures SingleLines(PrintRecord(r, outer, inner, style))
  {
    PrintInnerSingleLine(r[1..], inner, style);
    assert SingleLine(PrintPair(r[0], style(r[0])));
  }

  lemma {:induction false} PrintSingleLine(rs: seq<seq<Pair>>, outer: string, inner: string, style: Pair -> Style)
    requires forall i | 0 <= i < |rs| :: Printable(rs[i], style)
    requires SingleLine(outer) && SingleLine(inner)
    ensures SingleLines(Print(rs, outer, inner, style))
  {
    if rs != [] {
      RecordSingleLine(rs[0], outer, inner, style);
      PrintSingleLine(rs[1..], outer, inner, style);
    }
  }

  /** The last pair with the key. */
  ghost predicate LastPair(pairs: seq<Pair>, key: string, i: int) {
    0 <= i < |pairs| && pairs[i].0 == key && forall j :: i < j < |pairs| ==> pairs[j].0 != key
  }

  lemma {:induction false} AddAllOther(m: Record, pairs: seq<Pair>, key: string)
    requires forall i :: 0 <= i < |pairs| ==> pairs[i].0 != key
    ensures (key in AddAll(m, pairs) <==> key in m) && (key in m ==> AddAll(m, pairs)[key] == m[key])
    decreases |pairs|
  {
    if pairs != [] {
      assert pairs[0].0 != key;
      AddAllOther(m[pairs[0].0 := pairs[0].1], pairs[1..], key);
    }
  }

  lemma {:induction false} AddAllLast(m: Record, pairs: seq<Pair>, key: string, i: int)
    requires LastPair(pairs, key, i)
    ensures key in AddAll(m, pairs) && AddAll(m, pairs)[key] == pairs[i].1
    decreases |pairs|
  {
    var m1 := m[pairs[0].0 := pairs[0].1];
    if i == 0 {
      AddAllOther(m1, pairs[1..], key);
    } else {
      AddAllLast(m1, pairs[1..], key, i - 1);
    }
  }

  lemma {:induction false} RecordAt(rs: seq<seq<Pair>>, n: nat)
    requires n < |rs|
    ensures n < |ToRecords(rs)| == |rs| && ToRecords(rs)[n] == AddAll(map[], rs[n])
  {
    if n > 0 {
      RecordAt(rs[1..], n - 1);
    } else if |rs| > 1 {
      RecordAt(rs[1..], 0);
    }
  }

  /** In the n-th dictionary a key has the value of its last pair, and there are no other keys. */
  lemma RecordExactly(rs: seq<seq<Pair>>, n: nat, key: string)
    requires n < |rs|
    ensures |ToRecords(rs)| == |rs|
    ensures forall i :: LastPair(rs[n], key, i) ==> key in ToRecords(rs)[n] && ToRecords(rs)[n][key] == rs[n][i].1
    ensures (forall i :: 0 <= i < |rs[n]| ==> rs[n][i].0 != key) ==> key !in ToRecords(rs)[n]
  {
    RecordAt(rs, n);
    forall i | LastPair(rs[n], key, i) { AddAllLast(map[], rs[n], key, i); }
    if forall i :: 0 <= i < |rs[n]| ==> rs[n][i].0 != key {
      AddAllOther(map[], rs[n], key);
    }
  }

  /** Parser undoes printer, from the text of the file on, however each value is quoted, if at all. */
  lemma RoundTrip(rs: seq<seq<Pair>>, outer: string, inner: string, style: Pair -> Style)
    requires forall i | 0 <= i < |rs| :: Printable(rs[i], style)
    requires AllSpace(outer) && AllSpace(inner) && SingleLine(outer) && SingleLine(inner)
    ensures Parse(Lines(Join(Print(rs, outer, inner, style)))) == Success(ToRecords(rs))
  {
    PrintSingleLine(rs, outer, inner, style);
    LinesOfJoin(Print(rs, outer, inner, style));
    PrintedDirectives(rs, outer, inner, style);
    RunFile(START, rs);
    assert [] + ToRecords(rs) == ToRecords(rs);
  }
}
