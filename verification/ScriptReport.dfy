/** The verdict a script prints on a marker line of its output (libs/core/src/script.cpp,
    parse_reported_result). JSON text is parsed by a function passed in, None when it is not JSON. */
module ScriptReport {
  import opened Base
  import opened Sequences
  import opened Text
  import opened Json
  import opened ScriptRuns

  const MARKER := "LM-RESULT:"

  type JsonParser = string -> Option<Json>

  // ----- lines -----

  function Lines(s: string): (lines: seq<string>)
    ensures lines != []
    decreases |s|
  {
    var end := Find(s, '\n', 0);
    if end == |s| then [s] else [s[..end]] + Lines(s[end + 1..])
  }

  function Joined(lines: seq<string>): string
    requires lines != []
  {
    if |lines| == 1 then lines[0] else lines[0] + "\n" + Joined(lines[1..])
  }

  ghost predicate OneLine(s: string) {
    forall i | 0 <= i < |s| :: s[i] != '\n'
  }

  lemma CutWhole(a: string, b: string, end: nat)
    requires end <= |a|
    ensures var whole := a + "\n" + b;
      && whole[..end] == a[..end]
      && (if end == |a| then whole[end] == '\n' && whole[end + 1..] == b
          else whole[end] == a[end] && whole[end + 1..] == a[end + 1..] + "\n" + b)
  {
  }

  lemma LinesFrom(s: string, end: nat)
    requires end < |s| && s[end] == '\n' && OneLine(s[..end])
    ensures Lines(s) == [s[..end]] + Lines(s[end + 1..])
  {
    assert forall j | 0 <= j < end :: s[j] == s[..end][j];
    FindIs(s, '\n', 0, end);
  }

  lemma LinesAppendLast(a: string, b: string)
    requires OneLine(a)
    ensures Lines(a + "\n" + b) == Lines(a) + Lines(b)
  {
    FindIs(a, '\n', 0, |a|);
    CutWhole(a, b, |a|);
    LinesFrom(a + "\n" + b, |a|);
    assert a[..|a|] == a && Lines(a) == [a];
  }

  lemma {:induction false} LinesAppend(a: string, b: string)
    ensures Lines(a + "\n" + b) == Lines(a) + Lines(b)
    decreases |a|
  {
    var end := Find(a, '\n', 0);
    if end == |a| {
      LinesAppendLast(a, b);
    } else {
      CutWhole(a, b, end);
      LinesFrom(a, end);
      LinesFrom(a + "\n" + b, end);
      LinesAppend(a[end + 1..], b);
      Regroup([a[..end]], Lines(a[end + 1..]), Lines(b));
    }
  }

  /** Lines is the plain split: the only way to write the text as newline-free lines joined by newlines. */
  lemma {:induction false} LinesJoin(s: string)
    ensures Joined(Lines(s)) == s && forall i | 0 <= i < |Lines(s)| :: OneLine(Lines(s)[i])
    decreases |s|
  {
    var end := Find(s, '\n', 0);
    if end < |s| {
      LinesJoin(s[end + 1..]);
      assert s == s[..end] + "\n" + s[end + 1..];
    }
  }

  lemma {:induction false} JoinedLines(lines: seq<string>)
    requires lines != [] && forall i | 0 <= i < |lines| :: OneLine(lines[i])
    ensures Lines(Joined(lines)) == lines
    decreases |lines|
  {
    assert OneLine(lines[0]);
    FindIs(lines[0], '\n', 0, |lines[0]|);
    if |lines| > 1 {
      JoinedLines(lines[1..]);
      LinesAppend(lines[0], Joined(lines[1..]));
    }
  }

  // ----- one line -----

  function WithoutReturn(line: string): string {
    if line != "" && line[|line| - 1] == '\r' then line[..|line| - 1] else line
  }

  function WithoutSpaces(s: string): string {
    if s != "" && s[0] == ' ' then WithoutSpaces(s[1..]) else s
  }

  function VerdictOf(parsed: Option<Json>): Option<ReportedResult> {
    if parsed.None? then None
    else
      var ok := BoolAt(parsed.value, "ok");
      var message := StringAt(parsed.value, "message");
      if ok.Success? then Some(ReportedResult(ok.value, if message.Success? then message.value else "")) else None
  }

  /** What a line reports, if anything. */
  function Verdict(parse: JsonParser, line: string): Option<ReportedResult> {
    var text := WithoutReturn(line);
    if MARKER <= text then VerdictOf(parse(WithoutSpaces(text[|MARKER|..]))) else None
  }

  method ReadLine(parse: JsonParser, line: string) returns (verdict: Option<ReportedResult>)
    ensures verdict == Verdict(parse, line)
  {
    var text := line;
    if text != "" && text[|text| - 1] == '\r' {
      text := text[..|text| - 1];
    }
    verdict := None;
    if MARKER <= text {
      var payload := text[|MARKER|..];
      while payload != "" && payload[0] == ' '
        invariant WithoutSpaces(payload) == WithoutSpaces(text[|MARKER|..])
        decreases |payload|
      {
        payload := payload[1..];
      }
      var parsed := parse(payload);
      if parsed.Some? && parsed.value.JObject? && "ok" in parsed.value.members && parsed.value.members["ok"].JBool? {
        var result := ReportedResult(parsed.value.members["ok"].flag, "");
        if "message" in parsed.value.members && parsed.value.members["message"].JString? {
          result := result.(message := parsed.value.members["message"].text);
        }
        verdict := Some(result);
      }
    }
  }

  // ----- the whole output -----

  type LineReader = string -> Option<ReportedResult>

  function Reader(parse: JsonParser): LineReader {
    line => Verdict(parse, line)
  }

  function Last(read: LineReader, lines: seq<string>): Option<ReportedResult> {
    if lines == [] then None
    else
      var verdict := read(lines[|lines| - 1]);
      if verdict.Some? then verdict else Last(read, lines[..|lines| - 1])
  }

  function Reported(read: LineReader, output: string): Option<ReportedResult> {
    Last(read, Lines(output))
  }

  function Else<T>(first: Option<T>, second: Option<T>): Option<T> {
    if first.Some? then first else second
  }

  lemma {:induction false} LastAppend(read: LineReader, a: seq<string>, b: seq<string>)
    ensures Last(read, a + b) == Else(Last(read, b), Last(read, a))
    decreases |b|
  {
    if b == [] {
      assert a + b == a;
    } else {
      assert (a + b)[..|a + b| - 1] == a + b[..|b| - 1];
      LastAppend(read, a, b[..|b| - 1]);
    }
  }

  lemma LastOfOne(read: LineReader, line: string)
    ensures Last(read, [line]) == read(line)
  {
    assert [line][..0] == [];
  }

  lemma ReportedLine(read: LineReader, line: string)
    requires OneLine(line)
    ensures Reported(read, line) == read(line)
  {
    FindIs(line, '\n', 0, |line|);
    LastOfOne(read, line);
  }

  lemma ReportedSplit(read: LineReader, s: string, end: nat)
    requires end < |s| && s[end] == '\n' && OneLine(s[..end])
    ensures Reported(read, s) == Else(Reported(read, s[end + 1..]), read(s[..end]))
  {
    LinesFrom(s, end);
    LastOfOne(read, s[..end]);
    LastAppend(read, [s[..end]], Lines(s[end + 1..]));
  }

  /** What scanning from `start` on makes of `found`. */
  function Scanned(read: LineReader, output: string, start: nat, found: Option<ReportedResult>): Option<ReportedResult>
    requires start <= |output|
    decreases |output| - start
  {
    var end := Find(output, '\n', start);
    var kept := Else(read(output[start..end]), found);
    if end == |output| then kept else Scanned(read, output, end + 1, kept)
  }

  lemma ScanLastLine(read: LineReader, output: string, start: nat)
    requires start <= |output| && Find(output, '\n', start) == |output|
    ensures Reported(read, output[start..]) == read(output[start..|output|])
  {
    RestOf(output, start, |output|);
    ReportedLine(read, output[start..|output|]);
  }

  lemma ScanLine(read: LineReader, output: string, start: nat, end: nat)
    requires start <= end < |output| && Find(output, '\n', start) == end
    ensures Reported(read, output[start..]) == Else(Reported(read, output[end + 1..]), read(output[start..end]))
  {
    RestOf(output, start, end);
    ReportedSplit(read, output[start..], end - start);
  }

  lemma ElseAssociates<T>(a: Option<T>, b: Option<T>, c: Option<T>)
    ensures Else(Else(a, b), c) == Else(a, Else(b, c))
  {
  }

  /** Scanning from `start` on finds what the lines from there report, else keeps `found`. */
  lemma {:induction false} ScanningReports(read: LineReader, output: string, start: nat, found: Option<ReportedResult>)
    requires start <= |output|
    ensures Scanned(read, output, start, found) == Else(Reported(read, output[start..]), found)
    decreases |output| - start
  {
    var end := Find(output, '\n', start);
    if end == |output| {
      ScanLastLine(read, output, start);
    } else {
      var here := read(output[start..end]);
      ScanLine(read, output, start, end);
      ScanningReports(read, output, end + 1, Else(here, found));
      ElseAssociates(Reported(read, output[end + 1..]), here, found);
    }
  }

  lemma RestOf(output: string, start: nat, end: nat)
    requires start <= |output| && end == Find(output, '\n', start)
    ensures var rest := output[start..];
      && rest[..end - start] == output[start..end] && OneLine(output[start..end])
      && (if end == |output| then rest == output[start..end]
          else rest[end - start] == '\n' && rest[end - start + 1..] == output[end + 1..])
  {
  }

  /** The scanning loop. */
  method ScanOutput(parse: JsonParser, output: string) returns (found: Option<ReportedResult>)
    ensures found == Scanned(Reader(parse), output, 0, None)
  {
    found := None;
    var start := 0;
    while start <= |output|
      invariant start <= |output|
      invariant Scanned(Reader(parse), output, start, found) == Scanned(Reader(parse), output, 0, None)
      decreases |output| - start
    {
      var end := Find(output, '\n', start);
      var verdict := ReadLine(parse, output[start..end]);
      if verdict.Some? {
        found := verdict;
      }
      if end == |output| {
        break;
      }
      start := end + 1;
    }
  }

  method ParseReportedResult(parse: JsonParser, output: string) returns (found: Option<ReportedResult>)
    ensures found == Reported(Reader(parse), output)
  {
    found := ScanOutput(parse, output);
    ScanningReports(Reader(parse), output, 0, None);
    assert output[0..] == output;
  }

  // ----- what it promises -----

  ghost predicate IsLast(read: LineReader, lines: seq<string>, i: nat, r: ReportedResult) {
    && i < |lines| && read(lines[i]) == Some(r)
    && forall j | i < j < |lines| :: read(lines[j]) == None
  }

  lemma {:induction false} LastIs(read: LineReader, lines: seq<string>, i: nat, r: ReportedResult)
    requires IsLast(read, lines, i, r)
    ensures Last(read, lines) == Some(r)
  {
    var n := |lines| - 1;
    if i < n {
      assert read(lines[n]) == None;
      LastIs(read, lines[..n], i, r);
    }
  }

  lemma {:induction false} LastIsSomewhere(read: LineReader, lines: seq<string>) returns (i: nat)
    requires Last(read, lines).Some?
    ensures IsLast(read, lines, i, Last(read, lines).value)
  {
    var n := |lines| - 1;
    i := n;
    if read(lines[n]) == None {
      i := LastIsSomewhere(read, lines[..n]);
      forall j | i < j < |lines|
        ensures read(lines[j]) == None
      {
        if j < n {
          assert lines[..n][j] == lines[j];
        }
      }
    }
  }

  /** Over the lines of the output, the answer is the last line that reports anything. */
  lemma LastLineWins(read: LineReader, lines: seq<string>, r: ReportedResult)
    ensures Last(read, lines) == Some(r) <==> exists i: nat :: IsLast(read, lines, i, r)
  {
    if Last(read, lines) == Some(r) {
      var i := LastIsSomewhere(read, lines);
      assert IsLast(read, lines, i, r);
    }
    if i: nat :| IsLast(read, lines, i, r) {
      LastIs(read, lines, i, r);
    }
  }

  /** Output that grows by whole lines: what the later part reports stands, else what the earlier part did. */
  lemma ReportedAppend(read: LineReader, a: string, b: string)
    ensures Reported(read, a + "\n" + b) == Else(Reported(read, b), Reported(read, a))
  {
    LinesAppend(a, b);
    LastAppend(read, Lines(a), Lines(b));
  }

  /** A line that reports nothing, such as a malformed marker, changes the answer nowhere in the output. */
  lemma SilentLineChangesNothing(read: LineReader, a: string, line: string, b: string)
    requires OneLine(line) && read(line) == None
    ensures Reported(read, a + "\n" + line + "\n" + b) == Reported(read, a + "\n" + b)
    ensures Reported(read, line + "\n" + b) == Reported(read, b)
    ensures Reported(read, a + "\n" + line) == Reported(read, a)
  {
    ReportedLine(read, line);
    ReportedAppend(read, a, line);
    ReportedAppend(read, line, b);
    ReportedAppend(read, a + "\n" + line, b);
    ReportedAppend(read, a, b);
  }

  /** Output written with Windows line ends reads the same. */
  lemma {:induction false} WindowsLineEnds(parse: JsonParser, lines: seq<string>)
    requires forall i | 0 <= i < |lines| :: lines[i] == WithoutReturn(lines[i])
    ensures Last(Reader(parse), seq(|lines|, i requires 0 <= i < |lines| => lines[i] + "\r"))
      == Last(Reader(parse), lines)
  {
    if lines != [] {
      var n := |lines| - 1;
      var ended := seq(|lines|, i requires 0 <= i < |lines| => lines[i] + "\r");
      WindowsLineEnds(parse, lines[..n]);
      assert ended[..n] == seq(n, i requires 0 <= i < n => lines[..n][i] + "\r");
      assert WithoutReturn(lines[n] + "\r") == WithoutReturn(lines[n]);
    }
  }

  /** Only a line that begins with the marker reports anything; one that mentions it later is prose. */
  lemma MentionIsNotAVerdict(parse: JsonParser, line: string)
    requires !(MARKER <= line)
    ensures Verdict(parse, line) == None
  {
    assert MARKER <= WithoutReturn(line) ==> MARKER <= line;
  }
}
