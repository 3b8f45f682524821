/**
 * `parse_data`: a saved capture is cut into sections at `COMMAND:` markers
 * and each non-empty section is handed to the extractor dispatch. The
 * splitting is specified on its own (`Splitter`, `Sections`), the properties
 * of the capture format are proved there, and the interleaved loop of
 * `parse_data` is proved equal to applying the sections in order.
 */
module Capture {
  import opened Wrappers
  import opened Text
  import opened Snapshots
  import opened Extractors

  /** A command name and the lines kept for it. */
  datatype Section = Section(command: string, output: seq<string>)

  /** The registers of the splitter: last timestamp, `current_command`, `command_output`, and the sections flushed so far. */
  datatype Splitter = Splitter(timestamp: string, current: string, output: seq<string>, sections: seq<Section>)

  const Start := Splitter("", "", [], [])

  /** The text after `TIMESTAMP:`, stripped (`line.split(':', 1)[1].strip()`). */
  function TimestampOf(line: string): string
    requires StartsWith(line, "TIMESTAMP:")
  {
    Strip(line[10..])
  }

  /** The text after `COMMAND:`, stripped. */
  function CommandOf(line: string): string
    requires StartsWith(line, "COMMAND:")
  {
    Strip(line[8..])
  }

  /** The sections after a flush: the open one is kept only when it has a name and at least one line. */
  function Flushed(s: Splitter): seq<Section> {
    if s.current != "" && s.output != [] then s.sections + [Section(s.current, s.output)] else s.sections
  }

  /**
   * One line: a `TIMESTAMP:` line records its value; a `COMMAND:` line flushes
   * and opens a section; inside a section every other line not starting with
   * `===` is kept (a `TIMESTAMP:` line included).
   */
  function SplitStep(s: Splitter, line: string): Splitter {
    var ts := if StartsWith(line, "TIMESTAMP:") then TimestampOf(line) else s.timestamp;
    if StartsWith(line, "COMMAND:") then Splitter(ts, CommandOf(line), [], Flushed(s))
    else if s.current != "" && !StartsWith(line, "===") then Splitter(ts, s.current, s.output + [line], s.sections)
    else s.(timestamp := ts)
  }

  function SplitLines(s: Splitter, lines: seq<string>): Splitter
    decreases |lines|
  {
    if lines == [] then s else SplitStep(SplitLines(s, lines[..|lines| - 1]), lines[|lines| - 1])
  }

  /** Every section of the capture, the last one flushed at end of input. */
  function Sections(lines: seq<string>): seq<Section> {
    Flushed(SplitLines(Start, lines))
  }

  /** The value of the capture's timestamp field. */
  function Timestamp(lines: seq<string>): string {
    SplitLines(Start, lines).timestamp
  }

  // ---------------------------------------------------------------- the capture format

  /** A line that can be part of a section: not a separator and not a marker. */
  predicate KeptLine(line: string) {
    !StartsWith(line, "===") && !StartsWith(line, "COMMAND:")
  }

  predicate NoNewline(line: string) {
    '\n' !in line
  }

  /** A section handed to the extractors: named, non-empty, separators and markers dropped. */
  predicate GoodSection(sec: Section) {
    sec.command != "" && sec.output != []
    && forall k :: 0 <= k < |sec.output| ==> KeptLine(sec.output[k]) && NoNewline(sec.output[k])
  }

  predicate SplitterInv(s: Splitter) {
    (s.current == "" ==> s.output == [])
    && (forall k :: 0 <= k < |s.output| ==> KeptLine(s.output[k]) && NoNewline(s.output[k]))
    && (forall j :: 0 <= j < |s.sections| ==> GoodSection(s.sections[j]))
  }

  lemma SplitStepInv(s: Splitter, line: string)
    requires SplitterInv(s) && NoNewline(line)
    ensures SplitterInv(SplitStep(s, line))
  {
    var r := SplitStep(s, line);
    if StartsWith(line, "COMMAND:") {
      assert r.output == [];
      var secs := Flushed(s);
      assert r.sections == secs;
      if s.current != "" && s.output != [] {
        assert GoodSection(Section(s.current, s.output));
        forall j | 0 <= j < |secs|
          ensures GoodSection(secs[j])
        {
          if j < |s.sections| {
            assert secs[j] == s.sections[j];
          }
        }
      }
    } else if s.current != "" && !StartsWith(line, "===") {
      assert KeptLine(line);
      assert r.output == s.output + [line] && r.sections == s.sections;
      forall k | 0 <= k < |r.output|
        ensures KeptLine(r.output[k]) && NoNewline(r.output[k])
      {
        if k < |s.output| {
          assert r.output[k] == s.output[k];
        }
      }
    } else {
      assert r.output == s.output && r.sections == s.sections && r.current == s.current;
    }
  }

  lemma {:induction false} SplitLinesInv(s: Splitter, lines: seq<string>)
    requires SplitterInv(s)
    requires forall i :: 0 <= i < |lines| ==> NoNewline(lines[i])
    ensures SplitterInv(SplitLines(s, lines))
    decreases |lines|
  {
    if lines != [] {
      var init := lines[..|lines| - 1];
      assert forall i :: 0 <= i < |init| ==> NoNewline(init[i]) by {
        forall i | 0 <= i < |init| ensures NoNewline(init[i]) {
          assert init[i] == lines[i];
        }
      }
      SplitLinesInv(s, init);
      SplitStepInv(SplitLines(s, init), lines[|lines| - 1]);
    }
  }

  /**
   * Every section of a capture cut at newlines has a non-empty command name
   * and at least one line, and none of its lines is a `===` separator or a
   * `COMMAND:` marker.
   */
  lemma SectionsAreGood(content: string)
    ensures forall j :: 0 <= j < |Sections(Split(content, '\n'))| ==> GoodSection(Sections(Split(content, '\n'))[j])
  {
    var lines := Split(content, '\n');
    SplitLinesInv(Start, lines);
  }

  /** The extractors see exactly a section's lines: joining and re-splitting at newlines gives them back. */
  lemma SectionRoundTrip(sec: Section)
    requires GoodSection(sec)
    ensures Split(Join(sec.output, '\n'), '\n') == sec.output
  {
    SplitJoin(sec.output, '\n');
  }

  /** Splitting a concatenation is splitting the second part from where the first left off. */
  lemma {:induction false} SplitLinesAppend(s: Splitter, a: seq<string>, b: seq<string>)
    ensures SplitLines(s, a + b) == SplitLines(SplitLines(s, a), b)
    decreases |b|
  {
    if b == [] {
      assert a + b == a;
    } else {
      assert (a + b)[..|a + b| - 1] == a + b[..|b| - 1];
      SplitLinesAppend(s, a, b[..|b| - 1]);
    }
  }

  /** The timestamp register never influences the sections. */
  lemma {:induction false} SplitLinesTimestampFree(s: Splitter, t: string, lines: seq<string>)
    ensures SplitLines(s.(timestamp := t), lines).(timestamp := "") == SplitLines(s, lines).(timestamp := "")
    decreases |lines|
  {
    if lines != [] {
      SplitLinesTimestampFree(s, t, lines[..|lines| - 1]);
    }
  }

  /** Before the first marker the splitter holds no command and no lines. */
  lemma {:induction false} PreambleIdle(pre: seq<string>)
    requires forall i :: 0 <= i < |pre| ==> !StartsWith(pre[i], "COMMAND:")
    ensures SplitLines(Start, pre) == Start.(timestamp := SplitLines(Start, pre).timestamp)
    decreases |pre|
  {
    if pre != [] {
      PreambleIdle(pre[..|pre| - 1]);
    }
  }

  /** Lines before the first `COMMAND:` marker are never part of any section. */
  lemma PreambleIgnored(pre: seq<string>, rest: seq<string>)
    requires forall i :: 0 <= i < |pre| ==> !StartsWith(pre[i], "COMMAND:")
    ensures Sections(pre + rest) == Sections(rest)
  {
    SplitLinesAppend(Start, pre, rest);
    PreambleIdle(pre);
    SplitLinesTimestampFree(Start, SplitLines(Start, pre).timestamp, rest);
    var a := SplitLines(Start, pre + rest);
    var b := SplitLines(Start, rest);
    assert a.(timestamp := "") == b.(timestamp := "");
    assert a.current == b.current && a.output == b.output && a.sections == b.sections;
  }

  predicate IsTimestampLine(lines: seq<string>, i: int) {
    0 <= i < |lines| && StartsWith(lines[i], "TIMESTAMP:")
  }

  /** The timestamp is the value of the last `TIMESTAMP:` line. */
  lemma {:induction false} TimestampIsLast(lines: seq<string>, i: int)
    requires IsTimestampLine(lines, i)
    requires forall j :: i < j < |lines| ==> !IsTimestampLine(lines, j)
    ensures Timestamp(lines) == TimestampOf(lines[i])
    decreases |lines|
  {
    var init := lines[..|lines| - 1];
    StepTimestamp(SplitLines(Start, init), lines[|lines| - 1]);
    if i < |lines| - 1 {
      assert IsTimestampLine(init, i);
      forall j | i < j < |init|
        ensures !IsTimestampLine(init, j)
      {
        assert !IsTimestampLine(lines, j);
      }
      TimestampIsLast(init, i);
      assert !IsTimestampLine(lines, |lines| - 1);
    }
  }

  /** Without a `TIMESTAMP:` line the timestamp stays empty. */
  lemma {:induction false} NoTimestamp(lines: seq<string>)
    requires forall j :: 0 <= j < |lines| ==> !IsTimestampLine(lines, j)
    ensures Timestamp(lines) == ""
    decreases |lines|
  {
    if lines != [] {
      var init := lines[..|lines| - 1];
      StepTimestamp(SplitLines(Start, init), lines[|lines| - 1]);
      forall j | 0 <= j < |init|
        ensures !IsTimestampLine(init, j)
      {
        assert !IsTimestampLine(lines, j);
      }
      NoTimestamp(init);
      assert !IsTimestampLine(lines, |lines| - 1);
    }
  }

  // ---------------------------------------------------------------- applying the sections

  /** The snapshot after the sections were parsed in order, stopping at the first failure. */
  function ApplySections(d: Snapshot, secs: seq<Section>): (r: Result<Snapshot, ParseError>)
    requires d.Valid()
    ensures r.Ok? ==> r.value.Valid()
    decreases |secs|
  {
    if secs == [] then Ok(d)
    else
      match ApplySections(d, secs[..|secs| - 1])
      case Err(e) => Err(e)
      case Ok(p) =>
        var sec := secs[|secs| - 1];
        ApplyCommand(sec.command, Join(sec.output, '\n'), p)
  }

  /** `parse_data(content)`: the sections applied to the empty snapshot, stamped with the capture's timestamp. */
  function ParseCapture(content: string): (r: Result<Snapshot, ParseError>)
    ensures r.Ok? ==> r.value.Valid()
  {
    var lines := Split(content, '\n');
    match ApplySections(EmptySnapshot(), Sections(lines))
    case Ok(d) => Ok(d.(timestamp := Timestamp(lines)))
    case Err(e) => Err(e)
  }

  /** A capture without `COMMAND:` and `TIMESTAMP:` lines parses to the empty snapshot, whose version is `''`. */
  lemma EmptyCapture(content: string)
    requires forall i :: 0 <= i < |Split(content, '\n')| ==> !StartsWith(Split(content, '\n')[i], "COMMAND:")
    requires forall i :: 0 <= i < |Split(content, '\n')| ==> !IsTimestampLine(Split(content, '\n'), i)
    ensures ParseCapture(content) == Ok(EmptySnapshot())
    ensures ParseCapture(content).value.version == ""
  {
    var lines := Split(content, '\n');
    PreambleIdle(lines);
    NoTimestamp(lines);
  }

  /** Parsing a section does not read the timestamp and keeps it. */
  lemma ApplyCommandTimestamp(command: string, output: string, d: Snapshot, t: string)
    requires d.Valid()
    ensures ApplyCommand(command, output, d.(timestamp := t))
         == (match ApplyCommand(command, output, d)
             case Ok(x) => Ok(x.(timestamp := t))
             case Err(e) => Err(e))
  {
    ApplyDomainTimestamp(DomainOf(command), Split(output, '\n'), d, t);
  }

  lemma ApplyDomainTimestamp(m: Domain, lines: seq<string>, d: Snapshot, t: string)
    requires d.Valid()
    ensures ApplyDomain(m, lines, d.(timestamp := t))
         == (match ApplyDomain(m, lines, d)
             case Ok(x) => Ok(x.(timestamp := t))
             case Err(e) => Err(e))
  {
    match m
    case SummaryDomain =>
      assert d.(timestamp := t).routeSummary == d.routeSummary;
    case _ =>
  }

  /** Once a prefix of the sections fails, parsing fails with the same error. */
  lemma {:induction false} ApplySectionsErrorSticks(d: Snapshot, done: seq<Section>, secs: seq<Section>)
    requires d.Valid() && done <= secs
    requires ApplySections(d, done).Err?
    ensures ApplySections(d, secs) == ApplySections(d, done)
    decreases |secs|
  {
    if |done| < |secs| {
      assert done <= secs[..|secs| - 1];
      ApplySectionsErrorSticks(d, done, secs[..|secs| - 1]);
    } else {
      assert done == secs;
    }
  }

  /** A flush only appends. */
  lemma FlushGrows(s: Splitter)
    ensures s.sections <= Flushed(s)
  {
  }

  /** The sections flushed so far are a prefix of those flushed after more lines. */
  lemma {:induction false} SectionsGrow(s: Splitter, lines: seq<string>)
    ensures s.sections <= SplitLines(s, lines).sections
    decreases |lines|
  {
    if lines != [] {
      var p := SplitLines(s, lines[..|lines| - 1]);
      SectionsGrow(s, lines[..|lines| - 1]);
      FlushGrows(p);
      assert p.sections <= SplitStep(p, lines[|lines| - 1]).sections;
    }
  }

  /** The loop state of `parse_data` after `prefix`: the registers match the splitter and `data` holds its sections, parsed. */
  predicate ParsedUpTo(prefix: seq<string>, current: string, output: seq<string>, data: Snapshot) {
    var s := SplitLines(Start, prefix);
    data.Valid() && current == s.current && output == s.output && data.timestamp == s.timestamp
    && ApplySections(EmptySnapshot(), s.sections) == Ok(data.(timestamp := ""))
  }

  /** The loop state once the current line's timestamp, if any, was recorded. */
  predicate StampedAt(prefix: seq<string>, line: string, current: string, output: seq<string>, data: Snapshot) {
    var s := SplitLines(Start, prefix);
    data.Valid() && current == s.current && output == s.output && data.timestamp == SplitStep(s, line).timestamp
    && ApplySections(EmptySnapshot(), s.sections) == Ok(data.(timestamp := ""))
  }

  /** Recording a `TIMESTAMP:` line. */
  lemma StampStep(prefix: seq<string>, line: string, current: string, output: seq<string>, data: Snapshot)
    requires ParsedUpTo(prefix, current, output, data)
    ensures StartsWith(line, "TIMESTAMP:") ==> StampedAt(prefix, line, current, output, data.(timestamp := Strip(line[10..])))
    ensures !StartsWith(line, "TIMESTAMP:") ==> StampedAt(prefix, line, current, output, data)
  {
    var s := SplitLines(Start, prefix);
    StepTimestamp(s, line);
    if StartsWith(line, "TIMESTAMP:") {
      var d := data.(timestamp := Strip(line[10..]));
      assert d.(timestamp := "") == data.(timestamp := "");
      assert d.Valid();
    }
  }

  /** The timestamp register after one line. */
  lemma StepTimestamp(s: Splitter, line: string)
    ensures SplitStep(s, line).timestamp == if StartsWith(line, "TIMESTAMP:") then Strip(line[10..]) else s.timestamp
  {
  }

  /**
   * A `COMMAND:` line: the open section, when it has a name and lines, is
   * parsed into the snapshot (its failure is the capture's failure), and a new
   * section opens.
   */
  lemma MarkerStep(prefix: seq<string>, line: string, current: string, output: seq<string>, data: Snapshot)
    requires StampedAt(prefix, line, current, output, data)
    requires StartsWith(line, "COMMAND:")
    ensures current != "" && output != [] ==>
      match ApplyCommand(current, Join(output, '\n'), data)
      case Ok(d) => ParsedUpTo(prefix + [line], Strip(line[8..]), [], d)
      case Err(e) => ApplySections(EmptySnapshot(), SplitLines(Start, prefix + [line]).sections) == Err(e)
    ensures !(current != "" && output != []) ==> ParsedUpTo(prefix + [line], Strip(line[8..]), [], data)
  {
    var s := SplitLines(Start, prefix);
    assert (prefix + [line])[..|prefix|] == prefix;
    var secs := SplitLines(Start, prefix + [line]).sections;
    if current != "" && output != [] {
      assert secs == s.sections + [Section(s.current, s.output)];
      assert secs[..|secs| - 1] == s.sections;
      ApplyCommandTimestamp(current, Join(output, '\n'), data.(timestamp := ""), data.timestamp);
      assert data.(timestamp := "").(timestamp := data.timestamp) == data;
      ApplyDomainFrame(DomainOf(current), Split(Join(output, '\n'), '\n'), data.(timestamp := ""));
    }
  }

  /** Any other line leaves the parsed sections alone and only moves the registers. */
  lemma OtherStep(prefix: seq<string>, line: string, current: string, output: seq<string>, data: Snapshot)
    requires StampedAt(prefix, line, current, output, data)
    requires !StartsWith(line, "COMMAND:")
    ensures ParsedUpTo(prefix + [line], current,
                       if current != "" && !StartsWith(line, "===") then output + [line] else output, data)
  {
    assert (prefix + [line])[..|prefix|] == prefix;
  }

  /** A section that fails to parse makes the whole capture fail with its error. */
  lemma FailureIsFinal(lines: seq<string>, k: nat, e: ParseError)
    requires k <= |lines|
    requires ApplySections(EmptySnapshot(), SplitLines(Start, lines[..k]).sections) == Err(e)
    ensures ApplySections(EmptySnapshot(), Sections(lines)) == Err(e)
  {
    SectionsOfPrefix(lines, k);
    ApplySectionsErrorSticks(EmptySnapshot(), SplitLines(Start, lines[..k]).sections, Sections(lines));
  }

  /** The sections flushed after a prefix of the lines are a prefix of the capture's sections. */
  lemma SectionsOfPrefix(lines: seq<string>, k: nat)
    requires k <= |lines|
    ensures SplitLines(Start, lines[..k]).sections <= Sections(lines)
  {
    var a, b := lines[..k], lines[k..];
    assert a + b == lines;
    SplitLinesAppend(Start, a, b);
    var s := SplitLines(Start, a);
    var t := SplitLines(s, b);
    SectionsGrow(s, b);
    FlushGrows(t);
    PrefixTransitive(s.sections, t.sections, Flushed(t));
  }

  lemma PrefixTransitive<T>(a: seq<T>, b: seq<T>, c: seq<T>)
    requires a <= b && b <= c
    ensures a <= c
  {
  }

  /** At end of input the open section is flushed, and the result is that of the whole capture. */
  lemma FinalFlush(content: string, current: string, output: seq<string>, data: Snapshot)
    requires ParsedUpTo(Split(content, '\n'), current, output, data)
    ensures current != "" && output != [] ==> ParseCapture(content) == ApplyCommand(current, Join(output, '\n'), data)
    ensures !(current != "" && output != []) ==> ParseCapture(content) == Ok(data)
  {
    var lines := Split(content, '\n');
    var s := SplitLines(Start, lines);
    ApplyCommandTimestamp(current, Join(output, '\n'), data.(timestamp := ""), data.timestamp);
    assert data.(timestamp := "").(timestamp := data.timestamp) == data;
    if current != "" && output != [] {
      assert Sections(lines) == s.sections + [Section(current, output)];
      assert Sections(lines)[..|Sections(lines)| - 1] == s.sections;
      ApplyDomainFrame(DomainOf(current), Split(Join(output, '\n'), '\n'), data.(timestamp := ""));
    }
  }

  /**
   * The flush of `parse_data`: the open section, when it has a name and at
   * least one line, is joined at newlines and parsed into the snapshot.
   */
  method FlushSection(current: string, output: seq<string>, data: Snapshot) returns (r: Result<Snapshot, ParseError>)
    requires data.Valid()
    ensures current != "" && output != [] ==> r == ApplyCommand(current, Join(output, '\n'), data)
    ensures !(current != "" && output != []) ==> r == Ok(data)
  {
    if current != "" && output != [] {
      r := ParseCommandOutput(current, Join(output, '\n'), data);
    } else {
      r := Ok(data);
    }
  }

  /** One line of the `parse_data` loop: the registers and the snapshot afterwards, or the error that ends parsing. */
  method ParseLine(ghost prefix: seq<string>, line: string, current: string, output: seq<string>, data: Snapshot)
    returns (r: Result<(string, seq<string>, Snapshot), ParseError>)
    requires ParsedUpTo(prefix, current, output, data)
    ensures r.Ok? ==> ParsedUpTo(prefix + [line], r.value.0, r.value.1, r.value.2)
    ensures r.Err? ==> ApplySections(EmptySnapshot(), SplitLines(Start, prefix + [line]).sections) == Err(r.error)
  {
    var data := data;
    StampStep(prefix, line, current, output, data);
    if StartsWith(line, "TIMESTAMP:") {
      data := data.(timestamp := Strip(line[10..]));
    }
    if StartsWith(line, "COMMAND:") {
      MarkerStep(prefix, line, current, output, data);
      var next := FlushSection(current, output, data);
      match next {
        case Err(e) =>
          return Err(e);
        case Ok(d) =>
          return Ok((Strip(line[8..]), [], d));
      }
    }
    OtherStep(prefix, line, current, output, data);
    if current != "" && !StartsWith(line, "===") {
      return Ok((current, output + [line], data));
    }
    return Ok((current, output, data));
  }

  /** The `parse_data` loop: sections are parsed as their closing marker (or the end of input) is reached. */
  method ParseData(content: string) returns (r: Result<Snapshot, ParseError>)
    ensures r == ParseCapture(content)
  {
    var data := EmptySnapshot();
    var lines := Split(content, '\n');
    var currentCommand := "";
    var commandOutput: seq<string> := [];
    for i := 0 to |lines|
      invariant ParsedUpTo(lines[..i], currentCommand, commandOutput, data)
    {
      assert lines[..i + 1] == lines[..i] + [lines[i]];
      var step := ParseLine(lines[..i], lines[i], currentCommand, commandOutput, data);
      if step.Err? {
        FailureIsFinal(lines, i + 1, step.error);
        return Err(step.error);
      }
      currentCommand, commandOutput, data := step.value.0, step.value.1, step.value.2;
    }
    assert lines[..|lines|] == lines;
    FinalFlush(content, currentCommand, commandOutput, data);
    r := FlushSection(currentCommand, commandOutput, data);
  }
}
