/** The few string operations the exceptions-file parser relies on. */
module Text {

  /** ASCII part of what Python's `str.strip` removes. */
  predicate IsSpace(c: char) {
    c == ' ' || 9 <= c as int <= 13 || 28 <= c as int <= 31
  }

  /** Tab, line feed, vertical tab, form feed, carriage return, the four separators, and the space. */
  lemma SpacesAre(c: char)
    ensures IsSpace(c) <==> c as int in [9, 10, 11, 12, 13, 28, 29, 30, 31, 32]
  {
  }

  predicate AllSpace(s: string) {
    forall i | 0 <= i < |s| :: IsSpace(s[i])
  }

  predicate Trimmed(s: string) {
    s != "" ==> !IsSpace(s[0]) && !IsSpace(s[|s| - 1])
  }

  function StripLeft(s: string): (r: string)
    ensures r != "" ==> !IsSpace(r[0])
  {
    if s != "" && IsSpace(s[0]) then StripLeft(s[1..]) else s
  }

  function StripRight(s: string): (r: string)
    ensures |r| <= |s| && (r != "" ==> r[0] == s[0] && !IsSpace(r[|r| - 1]))
  {
    if s != "" && IsSpace(s[|s| - 1]) then StripRight(s[..|s| - 1]) else s
  }

  function Strip(s: string): (r: string)
    ensures Trimmed(r)
  {
    StripRight(StripLeft(s))
  }

  lemma {:induction false} StripLeftPadding(pad: string, s: string)
    requires AllSpace(pad)
    requires s != "" ==> !IsSpace(s[0])
    ensures StripLeft(pad + s) == s
  {
    if pad == "" {
      assert pad + s == s;
    } else {
      assert (pad + s)[1..] == pad[1..] + s;
      StripLeftPadding(pad[1..], s);
    }
  }

  lemma StripPadding(pad: string, s: string)
    requires AllSpace(pad) && Trimmed(s)
    ensures Strip(pad + s) == s
  {
    StripLeftPadding(pad, s);
  }

  lemma {:induction false} StripLeftAppend(s: string, after: string)
    ensures StripLeft(s + after) == if StripLeft(s) == "" then StripLeft(after) else StripLeft(s) + after
  {
    if s == "" {
      assert s + after == after;
    } else if IsSpace(s[0]) {
      assert (s + after)[1..] == s[1..] + after;
      StripLeftAppend(s[1..], after);
    }
  }

  lemma {:induction false} StripLeftSpace(s: string)
    requires AllSpace(s)
    ensures StripLeft(s) == ""
  {
    if s != "" {
      StripLeftSpace(s[1..]);
    }
  }

  lemma {:induction false} StripRightPadding(s: string, pad: string)
    requires AllSpace(pad)
    ensures StripRight(s + pad) == StripRight(s)
  {
    if pad == "" {
      assert s + pad == s;
    } else {
      var n := |pad| - 1;
      assert (s + pad)[..|s| + n] == s + pad[..n];
      StripRightPadding(s, pad[..n]);
    }
  }

  /** Padding on both sides does not matter: with `StripTrimmed` this says what is kept. */
  lemma StripBetween(before: string, s: string, after: string)
    requires AllSpace(before) && AllSpace(after)
    ensures Strip(before + s + after) == Strip(s)
  {
    assert before + s + after == before + (s + after);
    StripLeftSpace(before);
    StripLeftSpace(after);
    StripLeftAppend(before, s + after);
    StripLeftAppend(s, after);
    StripRightPadding(StripLeft(s), after);
  }

  lemma {:induction false} StripLeftSplits(s: string) returns (before: string)
    ensures AllSpace(before) && s == before + StripLeft(s)
  {
    before := "";
    if s != "" && IsSpace(s[0]) {
      before := StripLeftSplits(s[1..]);
      before := [s[0]] + before;
    }
  }

  lemma {:induction false} StripRightSplits(s: string) returns (after: string)
    ensures AllSpace(after) && s == StripRight(s) + after
  {
    after := "";
    if s != "" && IsSpace(s[|s| - 1]) {
      after := StripRightSplits(s[..|s| - 1]);
      after := after + [s[|s| - 1]];
    }
  }

  /** Stripping takes off white space at both ends, all of it and nothing else. */
  lemma StripExactly(s: string) returns (before: string, after: string)
    ensures AllSpace(before) && AllSpace(after) && s == before + Strip(s) + after && Trimmed(Strip(s))
  {
    before := StripLeftSplits(s);
    after := StripRightSplits(StripLeft(s));
  }

  lemma StripTrimmed(s: string)
    requires Trimmed(s)
    ensures Strip(s) == s
  {
  }

  /** Index of the first `c`, or the length when there is none. */
  function Find(s: string, c: char): (i: nat)
    ensures i <= |s| && (i < |s| ==> s[i] == c)
    ensures c in s ==> i < |s|
  {
    if s == "" || s[0] == c then 0 else 1 + Find(s[1..], c)
  }

  lemma {:induction false} FindAfter(p: string, c: char, rest: string)
    requires c !in p
    ensures Find(p + [c] + rest, c) == |p|
  {
    if p != "" {
      assert (p + [c] + rest)[1..] == p[1..] + [c] + rest;
      FindAfter(p[1..], c, rest);
    }
  }

  // ----- text files read line by line -----

  predicate IsBreak(c: char) {
    c == '\n' || c == '\r'
  }

  predicate SingleLine(s: string) {
    forall i | 0 <= i < |s| :: !IsBreak(s[i])
  }

  function FirstBreak(s: string): (i: nat)
    ensures i <= |s| && SingleLine(s[..i])
    ensures i < |s| ==> IsBreak(s[i])
  {
    if s == "" || IsBreak(s[0]) then 0
    else
      var k := FirstBreak(s[1..]);
      assert s[..1 + k] == [s[0]] + s[1..][..k];
      1 + k
  }

  /** Lines of a file opened in text mode: a line ends at LF, CR or CR LF. */
  function Lines(s: string): (ls: seq<string>)
  {
    if s == "" then []
    else
      var b := FirstBreak(s);
      if b == |s| then [s]
      else
        var width := if s[b] == '\r' && b + 1 < |s| && s[b + 1] == '\n' then 2 else 1;
        [s[..b]] + Lines(s[b + width..])
  }

  function Join(ls: seq<string>): string {
    if ls == [] then "" else ls[0] + "\n" + Join(ls[1..])
  }

  lemma {:induction false} BreakAt(line: string, end: char, rest: string)
    requires SingleLine(line) && IsBreak(end)
    ensures FirstBreak(line + [end] + rest) == |line|
  {
    if line != "" {
      assert (line + [end] + rest)[1..] == line[1..] + [end] + rest;
      BreakAt(line[1..], end, rest);
    }
  }

  lemma {:induction false} WholeLine(line: string)
    requires SingleLine(line)
    ensures FirstBreak(line) == |line|
  {
    if line != "" {
      WholeLine(line[1..]);
    }
  }

  lemma LineAt(line: string, end: string, rest: string)
    requires end == "\n" || end == "\r\n" || (end == "\r" && (rest == "" || rest[0] != '\n'))
    requires FirstBreak(line + end + rest) == |line|
    ensures Lines(line + end + rest) == [line] + Lines(rest)
  {
    var s := line + end + rest;
    assert s[|line|] == end[0] && s[..|line|] == line && s[|line| + |end|..] == rest;
    assert |line| + 1 < |s| ==> s[|line| + 1] == (end + rest)[1];
  }

  lemma EndsAtLF(line: string, rest: string)
    requires SingleLine(line)
    ensures Lines(line + "\n" + rest) == [line] + Lines(rest)
  {
    BreakAt(line, '\n', rest);
    LineAt(line, "\n", rest);
  }

  lemma EndsAtCR(line: string, rest: string)
    requires SingleLine(line) && (rest == "" || rest[0] != '\n')
    ensures Lines(line + "\r" + rest) == [line] + Lines(rest)
  {
    BreakAt(line, '\r', rest);
    LineAt(line, "\r", rest);
  }

  lemma EndsAtCRLF(line: string, rest: string)
    requires SingleLine(line)
    ensures Lines(line + "\r\n" + rest) == [line] + Lines(rest)
  {
    BreakAt(line, '\r', "\n" + rest);
    assert line + ['\r'] + ("\n" + rest) == line + "\r\n" + rest;
    LineAt(line, "\r\n", rest);
  }

  /** A line ends at LF, at CR LF, at a CR that no LF follows, or with the file. */
  lemma LineEnds(line: string, rest: string)
    requires SingleLine(line)
    ensures Lines(line) == if line == "" then [] else [line]
    ensures Lines(line + "\n" + rest) == Lines(line + "\r\n" + rest) == [line] + Lines(rest)
    ensures rest == "" || rest[0] != '\n' ==> Lines(line + "\r" + rest) == [line] + Lines(rest)
  {
    WholeLine(line);
    EndsAtLF(line, rest);
    EndsAtCRLF(line, rest);
    if rest == "" || rest[0] != '\n' {
      EndsAtCR(line, rest);
    }
  }

  lemma {:induction false} LinesOfJoin(ls: seq<string>)
    requires forall i | 0 <= i < |ls| :: SingleLine(ls[i])
    ensures Lines(Join(ls)) == ls
  {
    if ls != [] {
      var rest := Join(ls[1..]);
      var s := ls[0] + "\n" + rest;
      BreakAt(ls[0], '\n', rest);
      assert s[|ls[0]|] == '\n';
      assert s[..|ls[0]|] == ls[0] && s[|ls[0]| + 1..] == rest;
      LinesOfJoin(ls[1..]);
    }
  }
}
