/** The blind label sheet: the renderer that wraps each agent output in a computed fence, and the
    line-by-line reader of the filled sheet. */
module LabelSheet {
  import opened Options
  import opened Text

  // ---------------------------------------------------------------- lines

  /** `s.splitlines()`; `buf` is the line read so far. */
  function SplitLines(s: string, buf: string := ""): seq<string> {
    if s == "" then (if buf == "" then [] else [buf])
    else if IsLineBreak(s[0]) then
      [buf] + SplitLines(if s[0] == '\r' && |s| > 1 && s[1] == '\n' then s[2..] else s[1..], "")
    else SplitLines(s[1..], buf + [s[0]])
  }

  // ---------------------------------------------------------------- the line patterns

  /** The length of the run of `c` at the start of `s`. */
  function RunLength(s: string, c: char): (n: nat)
    ensures n <= |s|
  {
    if s != "" && s[0] == c then 1 + RunLength(s[1..], c) else 0
  }

  datatype Fence = Fence(mark: char, length: nat)

  /** A fence line: white space, three or more backticks or tildes, then no backtick. */
  function MatchFence(line: string): Option<Fence> {
    var t := LStrip(line);
    if t == "" || (t[0] != '`' && t[0] != '~') then None
    else
      var n := RunLength(t, t[0]);
      if n < 3 || '`' in t[n..] then None else Some(Fence(t[0], n))
  }

  const HEADING := "## Item "

  /** An item heading: the fixed words, digits, then white space only. */
  function MatchHeading(digit: DigitMap, line: string): Option<nat> {
    if !(HEADING <= line) then None
    else
      var rest := line[|HEADING|..];
      var n := DigitRun(digit, rest, 0);
      if n == 0 || LStrip(rest[n..]) != "" then None else DigitsValue(digit, rest[..n])
  }

  /** Equality under the pattern flag IGNORECASE, for a lower-case ASCII letter or a colon `p`. */
  predicate EqFold(c: char, p: char) {
    || c == p
    || ('a' <= p <= 'z' && c as int == p as int - 32)
    || (p == 'i' && (c as int == 0x130 || c as int == 0x131))
    || (p == 's' && c as int == 0x17f)
    || (p == 'k' && c as int == 0x212a)
  }

  predicate HasLabel(line: string, tag: string) {
    |tag| <= |line| && forall i :: 0 <= i < |tag| ==> EqFold(line[i], tag[i])
  }

  const VERDICT := "verdict:"
  const REASON := "reason:"

  /** The text after a label, without the white space around it. */
  function LabelValue(line: string, tag: string): Option<string> {
    if HasLabel(line, tag) then Some(Strip(line[|tag|..])) else None
  }

  // ---------------------------------------------------------------- reading

  datatype Fields = Fields(verdict: Option<string>, reason: string)

  datatype HumanLabel = HumanLabel(item: nat, verdict: bool, reason: string)

  datatype SheetError =
    | DuplicateHeading(item: nat)
    | DuplicateVerdict(item: nat)
    | NoItems
    | BadVerdicts(unfilled: seq<nat>, unparseable: seq<nat>)

  /** The reader's state: the items in the order of their headings, what is known of each, the
      current item, and the open fence. */
  datatype State = State(
    order: seq<nat>,
    values: map<nat, Fields>,
    current: Option<nat>,
    fence: Option<Fence>)

  ghost predicate Sound(s: State) {
    && (s.current.Some? ==> s.current.value in s.values)
    && (forall i :: i in s.order ==> i in s.values)
  }

  const START := State([], map[], None, None)

  function Step(digit: DigitMap, s: State, line: string): Result<State, SheetError>
    requires s.current.Some? ==> s.current.value in s.values
  {
    var fence := MatchFence(line);
    if s.fence.Some? then
      if fence.Some? && fence.value.mark == s.fence.value.mark && fence.value.length >= s.fence.value.length
      then Ok(s.(fence := None))
      else Ok(s)
    else if fence.Some? then Ok(s.(fence := fence))
    else
      var item := MatchHeading(digit, line);
      if item.Some? then
        if item.value in s.values then Err(DuplicateHeading(item.value))
        else Ok(s.(order := s.order + [item.value],
                   values := s.values[item.value := Fields(None, "")],
                   current := item))
      else if s.current.None? then Ok(s)
      else StepFields(s, line)
  }

  /** A line of an item that is no fence and no heading. */
  function StepFields(s: State, line: string): Result<State, SheetError>
    requires s.current.Some? && s.current.value in s.values
  {
    var (item, verdict, reason) := (s.current.value, LabelValue(line, VERDICT), LabelValue(line, REASON));
    var fields := s.values[item];
    if verdict.Some? then
      if fields.verdict.Some? then Err(DuplicateVerdict(item))
      else Ok(s.(values := s.values[item := fields.(verdict := verdict)]))
    else if reason.Some? then Ok(s.(values := s.values[item := fields.(reason := reason.value)]))
    else Ok(s)
  }

  lemma StepSound(digit: DigitMap, s: State, line: string)
    requires Sound(s)
    ensures Step(digit, s, line).Ok? ==> Sound(Step(digit, s, line).value)
  {
    hide MatchFence, MatchHeading, LabelValue;
  }

  function Steps(digit: DigitMap, s: State, lines: seq<string>): (r: Result<State, SheetError>)
    requires Sound(s)
    ensures r.Ok? ==> Sound(r.value)
    decreases |lines|
  {
    if lines == [] then Ok(s)
    else
      StepSound(digit, s, lines[0]);
      var next := Step(digit, s, lines[0]);
      if next.Err? then next else Steps(digit, next.value, lines[1..])
  }

  /** `casefold`, exact for every character whose folding is a part of "pass" or of "fail"; a text
      with any other character folds to neither. */
  function FoldChar(c: char): string {
    var n := c as int;
    if 'A' <= c <= 'Z' then [(n + 32) as char]
    else if n == 0x17f then "s"
    else if n == 0xdf || n == 0x1e9e then "ss"
    else [c]
  }

  function Fold(s: string): string {
    if s == "" then "" else FoldChar(s[0]) + Fold(s[1..])
  }

  /** Whether a verdict is left blank, cannot be read, or is a label. */
  datatype Reading = Unfilled | Unparseable | Label(passed: bool)

  function Read(verdict: Option<string>): Reading {
    if verdict.None? || Strip(verdict.value) == "" then Unfilled
    else
      var word := Fold(Strip(verdict.value));
      if word == "pass" then Label(true) else if word == "fail" then Label(false) else Unparseable
  }

  /** The items with the given reading, in heading order. */
  function ItemsRead(order: seq<nat>, values: map<nat, Fields>, r: Reading): seq<nat> {
    if order == [] then []
    else
      Pick(order[0] in values && Read(values[order[0]].verdict) == r, order[0]) + ItemsRead(order[1..], values, r)
  }

  function Pick(hit: bool, n: nat): seq<nat> {
    if hit then [n] else []
  }

  function Finish(s: State): Result<map<nat, HumanLabel>, SheetError>
    requires Sound(s)
  {
    if s.order == [] then Err(NoItems)
    else
      var unfilled := ItemsRead(s.order, s.values, Unfilled);
      var unparseable := ItemsRead(s.order, s.values, Unparseable);
      if unfilled != [] || unparseable != [] then Err(BadVerdicts(unfilled, unparseable))
      else Ok(map i | i in s.values :: LabelFor(i, s.values[i]))
  }

  function LabelFor(item: nat, fields: Fields): HumanLabel {
    HumanLabel(item, Read(fields.verdict) == Label(true), Strip(fields.reason))
  }

  function ReadSheet(digit: DigitMap, text: string): Result<map<nat, HumanLabel>, SheetError> {
    var s := Steps(digit, START, SplitLines(text));
    if s.Err? then Err(s.error) else Finish(s.value)
  }

  // ---------------------------------------------------------------- rendering

  /** The longest run of backticks. */
  function LongestRun(s: string): (n: nat) {
    if s == "" then 0
    else if RunLength(s, '`') >= LongestRun(s[1..]) then RunLength(s, '`')
    else LongestRun(s[1..])
  }

  function FenceLength(text: string): nat {
    if LongestRun(text) + 1 > 3 then LongestRun(text) + 1 else 3
  }

  function FenceFor(text: string): string {
    seq(FenceLength(text), _ => '`')
  }

  datatype Run = Run(caseId: string, output: string)

  /** What a rater writes after the two labels of an item. */
  datatype Answer = Answer(verdict: string, reason: string)

  const BLANK := Answer("", "")

  function OutputBlock(output: string): string {
    var fence := FenceFor(output);
    fence + "\n" + output + (if output != "" && output[|output| - 1] == '\n' then "" else "\n") + fence
  }

  const INTENT_TITLE := "### Rubric intent"
  const OUTPUT_TITLE := "### Agent output (verbatim)"
  const LABEL_TITLE := "### Human label"

  /** The sections of one item, with the given text after its labels. */
  function ItemSections(number: nat, intent: string, output: string, a: Answer): seq<string> {
    ["", HEADING + NatText(number), "", INTENT_TITLE, "", intent, "",
     OUTPUT_TITLE, "", OutputBlock(output), "", LABEL_TITLE, "",
     VERDICT + a.verdict, REASON + a.reason]
  }

  /** A run whose rubric intent is known, as loading the runs makes sure. */
  predicate Known(intents: map<string, string>, runs: seq<Run>) {
    forall r :: r in runs ==> r.caseId in intents
  }

  function ItemsSections(intents: map<string, string>, runs: seq<Run>, answers: seq<Answer>, from: nat): seq<string>
    requires |answers| == |runs| && Known(intents, runs)
    decreases |runs|
  {
    if runs == [] then []
    else
      assert runs[0] in runs;
      ItemSections(from, intents[runs[0].caseId], runs[0].output, answers[0])
      + ItemsSections(intents, runs[1..], answers[1..], from + 1)
  }

  /** The sheet, below its introduction, once a rater has filled it in. With blank answers it is the
      sheet as rendered. */
  function FilledSheet(intro: seq<string>, intents: map<string, string>, runs: seq<Run>, answers: seq<Answer>): string
    requires |answers| == |runs| && Known(intents, runs)
  {
    Join("\n", intro + ItemsSections(intents, runs, answers, 1)) + "\n"
  }

  function Blank(runs: seq<Run>): (r: seq<Answer>)
    ensures |r| == |runs|
  {
    seq(|runs|, _ => BLANK)
  }

  // ---------------------------------------------------------------- splitting what was joined

  /** A line feed ends a line, whatever stands before it. */
  lemma {:induction false} SplitAfterFeed(a: string, b: string, buf: string)
    ensures SplitLines(a + "\n" + b, buf) == SplitLines(a + "\n", buf) + SplitLines(b)
    decreases |a|, 1
  {
    var s := a + "\n" + b;
    if a == "" {
      assert s[1..] == b && ("" + "\n")[1..] == "";
    } else {
      assert s[1..] == a[1..] + "\n" + b && (a + "\n")[1..] == a[1..] + "\n";
      if IsLineBreak(a[0]) {
        if a[0] == '\r' && s[1] == '\n' {
          SplitAfterReturn(a, b, buf);
        } else {
          SplitAfterFeed(a[1..], b, "");
        }
      } else {
        SplitAfterFeed(a[1..], b, buf + [a[0]]);
      }
    }
  }

  lemma {:induction false} SplitAfterReturn(a: string, b: string, buf: string)
    requires a != "" && a[0] == '\r' && (a + "\n" + b)[1] == '\n'
    ensures SplitLines(a + "\n" + b, buf) == SplitLines(a + "\n", buf) + SplitLines(b)
    decreases |a|, 0
  {
    var s := a + "\n" + b;
    if |a| == 1 {
      assert s[2..] == b && (a + "\n")[2..] == "";
    } else {
      assert a[1] == '\n' && s[2..] == a[2..] + "\n" + b && (a + "\n")[2..] == a[2..] + "\n";
      SplitAfterFeed(a[2..], b, "");
    }
  }

  lemma {:induction false} SplitOneLine(p: string, buf: string)
    requires OneLine(p)
    ensures SplitLines(p + "\n", buf) == [buf + p]
  {
    if p == "" {
      assert ("" + "\n")[1..] == "" && buf + p == buf;
      assert SplitLines("", "") == [];
    } else {
      assert (p + "\n")[1..] == p[1..] + "\n" && buf + [p[0]] + p[1..] == buf + p;
      SplitOneLine(p[1..], buf + [p[0]]);
    }
  }

  /** The lines of sections that are joined by line feeds. */
  function Lines(sections: seq<string>): seq<string> {
    if sections == [] then [] else SplitLines(sections[0] + "\n") + Lines(sections[1..])
  }

  lemma {:induction false} SplitSections(sections: seq<string>)
    requires sections != []
    ensures SplitLines(Join("\n", sections) + "\n") == Lines(sections)
  {
    if |sections| > 1 {
      var tail := Join("\n", sections[1..]);
      assert sections[0] + "\n" + tail + "\n" == sections[0] + "\n" + (tail + "\n");
      SplitAfterFeed(sections[0], tail + "\n", "");
      SplitSections(sections[1..]);
    }
  }

  lemma {:induction false} LinesAppend(a: seq<string>, b: seq<string>)
    ensures Lines(a + b) == Lines(a) + Lines(b)
  {
    if a == [] {
      assert a + b == b;
    } else {
      assert (a + b)[1..] == a[1..] + b;
      LinesAppend(a[1..], b);
    }
  }

  lemma {:induction false} LinesOfOneLines(sections: seq<string>)
    requires forall i :: 0 <= i < |sections| ==> OneLine(sections[i])
    ensures Lines(sections) == sections
  {
    if sections != [] {
      SplitOneLine(sections[0], "");
      assert "" + sections[0] == sections[0];
      LinesOfOneLines(sections[1..]);
      assert [sections[0]] + sections[1..] == sections;
    }
  }

  // ---------------------------------------------------------------- fences

  lemma {:induction false} RunOfSuffix(s: string, k: nat)
    requires k <= |s|
    ensures LongestRun(s[k..]) <= LongestRun(s)
  {
    if k > 0 {
      RunOfSuffix(s[1..], k - 1);
      assert s[1..][k - 1..] == s[k..];
    } else {
      assert s[0..] == s;
    }
  }

  lemma {:induction false} RunLengthOfPrefix(a: string, b: string)
    ensures RunLength(a, '`') <= RunLength(a + b, '`')
  {
    if a != "" {
      assert (a + b)[1..] == a[1..] + b;
      RunLengthOfPrefix(a[1..], b);
    }
  }

  lemma {:induction false} RunOfPrefix(a: string, b: string)
    ensures LongestRun(a) <= LongestRun(a + b)
  {
    if a != "" {
      assert (a + b)[1..] == a[1..] + b;
      RunLengthOfPrefix(a, b);
      RunOfPrefix(a[1..], b);
    }
  }

  /** No line of a text holds a longer run of backticks than the text. */
  lemma {:induction false} LineRuns(s: string, buf: string)
    ensures forall l :: l in SplitLines(s, buf) ==> LongestRun(l) <= LongestRun(buf + s)
    decreases |s|
  {
    var all := buf + s;
    if s == "" {
      assert all == buf;
    } else if IsLineBreak(s[0]) {
      var k := if s[0] == '\r' && |s| > 1 && s[1] == '\n' then 2 else 1;
      assert all[|buf| + k..] == s[k..] == "" + s[k..];
      RunOfPrefix(buf, s);
      RunOfSuffix(all, |buf| + k);
      LineRuns(s[k..], "");
    } else {
      assert buf + [s[0]] + s[1..] == all;
      LineRuns(s[1..], buf + [s[0]]);
    }
  }

  /** A line whose runs of backticks are all shorter than the fence does not close it. */
  lemma CannotClose(line: string, length: nat)
    requires LongestRun(line) < length
    ensures var f := MatchFence(line); f.Some? && f.value.mark == '`' ==> f.value.length < length
  {
    var t := LStrip(line);
    RunOfSuffix(line, |line| - |t|);
  }

  lemma {:induction false} InsideFence(digit: DigitMap, s: State, lines: seq<string>, length: nat)
    requires Sound(s) && s.fence == Some(Fence('`', length))
    requires forall i :: 0 <= i < |lines| ==> LongestRun(lines[i]) < length
    ensures Steps(digit, s, lines) == Ok(s)
  {
    if lines != [] {
      CannotClose(lines[0], length);
      assert Step(digit, s, lines[0]) == Ok(s);
      InsideFence(digit, s, lines[1..], length);
    }
  }

  lemma {:induction false} RunWithFeed(s: string)
    ensures RunLength(s + "\n", '`') == RunLength(s, '`')
    ensures LongestRun(s + "\n") == LongestRun(s)
  {
    if s == "" {
      assert LongestRun("") == 0 && ("" + "\n")[1..] == "";
    } else {
      assert (s + "\n")[1..] == s[1..] + "\n";
      RunWithFeed(s[1..]);
    }
  }

  lemma {:induction false} FenceRun(n: nat)
    ensures RunLength(seq(n, _ => '`'), '`') == n
  {
    if n > 0 {
      assert seq(n, _ => '`')[1..] == seq(n - 1, _ => '`');
      FenceRun(n - 1);
    }
  }

  lemma FenceOpens(output: string)
    ensures MatchFence(FenceFor(output)) == Some(Fence('`', FenceLength(output)))
    ensures OneLine(FenceFor(output))
  {
    var fence := FenceFor(output);
    FenceRun(FenceLength(output));
    assert LStrip(fence) == fence && fence[|fence|..] == "";
  }

  /** The output as it stands between the fences, its last line ended. */
  function Body(output: string): string {
    output + (if output != "" && output[|output| - 1] == '\n' then "" else "\n")
  }

  lemma BodyLines(output: string)
    ensures SplitLines(OutputBlock(output) + "\n")
         == [FenceFor(output)] + SplitLines(Body(output)) + [FenceFor(output)]
  {
    hide SplitLines, FenceFor;
    var (fence, stem) := (FenceFor(output), Body(output)[..|Body(output)| - 1]);
    FenceOpens(output);
    SplitOneLine(fence, "");
    BlockText(output, fence, stem);
    SplitAfterFeed(fence, stem + "\n" + (fence + "\n"), "");
    SplitAfterFeed(stem, fence + "\n", "");
    Grouped([fence], SplitLines(Body(output)), [fence]);
  }

  lemma Grouped<T>(a: seq<T>, b: seq<T>, c: seq<T>)
    ensures a + b + c == a + (b + c)
  {
  }

  lemma BlockText(output: string, fence: string, stem: string)
    requires fence == FenceFor(output) && stem == Body(output)[..|Body(output)| - 1]
    ensures OutputBlock(output) + "\n" == fence + "\n" + (stem + "\n" + (fence + "\n"))
    ensures Body(output) == stem + "\n" && "" + fence == fence
  {
    hide FenceFor;
    assert Body(output) == stem + "\n";
    assert OutputBlock(output) == fence + "\n" + Body(output) + fence;
  }

  lemma BodyRuns(output: string)
    ensures forall l :: l in SplitLines(Body(output)) ==> LongestRun(l) < FenceLength(output)
  {
    RunWithFeed(output);
    LineRuns(Body(output), "");
    assert output + "" == output && "" + Body(output) == Body(output);
  }

  lemma {:induction false} StepsAppend(digit: DigitMap, s: State, a: seq<string>, b: seq<string>)
    requires Sound(s) && Steps(digit, s, a).Ok?
    ensures Steps(digit, s, a + b) == Steps(digit, Steps(digit, s, a).value, b)
    decreases |a|
  {
    if a == [] {
      assert a + b == b;
    } else {
      assert (a + b)[1..] == a[1..] + b;
      StepSound(digit, s, a[0]);
      StepsAppend(digit, Step(digit, s, a[0]).value, a[1..], b);
    }
  }

  /** A fenced output is skipped whole, whatever it holds: headings, labels or fences. */
  lemma BlockSkipped(digit: DigitMap, s: State, output: string)
    requires Sound(s) && s.fence == None
    ensures Steps(digit, s, SplitLines(OutputBlock(output) + "\n")) == Ok(s)
  {
    hide MatchFence, OutputBlock, FenceFor, FenceLength, SplitLines, LongestRun, MatchHeading;
    var (fence, lines) := (FenceFor(output), SplitLines(Body(output)));
    FenceOpens(output);
    BodyLines(output);
    BodyRuns(output);
    var open := s.(fence := Some(Fence('`', FenceLength(output))));
    InsideFence(digit, open, lines, FenceLength(output));
    StepsAppend(digit, open, lines, [fence]);
    OneStep(digit, open, fence);
    OneStep(digit, s, fence);
    StepsAppend(digit, s, [fence], lines + [fence]);
    assert [fence] + lines + [fence] == [fence] + (lines + [fence]);
  }

  lemma OneStep(digit: DigitMap, s: State, line: string)
    requires Sound(s)
    ensures Steps(digit, s, [line]) == Step(digit, s, line)
  {
    StepSound(digit, s, line);
    assert [line][1..] == [];
  }

  // ---------------------------------------------------------------- the lines around a fence

  /** A line that is no fence, no heading and no label. */
  predicate Quiet(digit: DigitMap, line: string) {
    && OneLine(line) && MatchFence(line).None? && MatchHeading(digit, line).None?
    && !HasLabel(line, VERDICT) && !HasLabel(line, REASON)
  }

  lemma {:induction false} QuietSkipped(digit: DigitMap, s: State, lines: seq<string>)
    requires Sound(s) && s.fence == None
    requires forall i :: 0 <= i < |lines| ==> Quiet(digit, lines[i])
    ensures Steps(digit, s, lines) == Ok(s)
  {
    if lines != [] {
      hide MatchFence, MatchHeading, HasLabel;
      assert Step(digit, s, lines[0]) == Ok(s);
      QuietSkipped(digit, s, lines[1..]);
    }
  }

  lemma NotHeading(digit: DigitMap, line: string, k: nat)
    requires k < |HEADING| && (|line| <= k || line[k] != HEADING[k])
    ensures MatchHeading(digit, line).None?
  {
    hide DigitRun;
  }

  lemma EmptyQuiet(digit: DigitMap)
    ensures Quiet(digit, "")
  {
    hide DigitRun;
  }

  lemma HashQuiet(digit: DigitMap, line: string)
    requires |line| > 2 && line[0] == '#' && line[2] == '#' && OneLine(line)
    ensures Quiet(digit, line)
  {
    hide MatchHeading, OneLine;
    assert LStrip(line) == line;
    assert !EqFold(line[0], VERDICT[0]) && !EqFold(line[0], REASON[0]);
    NotHeading(digit, line, 2);
  }

  lemma TitlesQuiet(digit: DigitMap)
    ensures Quiet(digit, INTENT_TITLE) && Quiet(digit, OUTPUT_TITLE) && Quiet(digit, LABEL_TITLE)
  {
    hide Quiet, OneLine;
    TitlesOneLine();
    HashQuiet(digit, INTENT_TITLE);
    HashQuiet(digit, OUTPUT_TITLE);
    HashQuiet(digit, LABEL_TITLE);
  }

  lemma TitlesOneLine()
    ensures OneLine(INTENT_TITLE) && OneLine(OUTPUT_TITLE) && OneLine(LABEL_TITLE)
  {
  }

  lemma AsciiRun(digit: DigitMap, s: string)
    requires IsDigitMap(digit) && forall i :: 0 <= i < |s| ==> '0' <= s[i] <= '9'
    ensures DigitRun(digit, s, 0) == |s|
  {
    DigitRunStops(digit, s, 0, |s|);
  }

  lemma HeadingRead(digit: DigitMap, n: nat)
    requires IsDigitMap(digit)
    ensures var line := HEADING + NatText(n);
      OneLine(line) && MatchFence(line).None? && MatchHeading(digit, line) == Some(n)
  {
    hide IsDigitMap, NatText, DigitsValue, DigitRun;
    var (digits, line) := (NatText(n), HEADING + NatText(n));
    assert forall i :: 0 <= i < |digits| ==> digits[i] in digits;
    AsciiRun(digit, digits);
    NatTextValue(digit, n);
    assert line[|HEADING|..] == digits && digits[|digits|..] == "" && digits[..|digits|] == digits;
    assert OneLine(HEADING) && LStrip(line) == line;
  }

  lemma VerdictRead(digit: DigitMap, v: string)
    requires OneLine(v)
    ensures var line := VERDICT + v;
      && OneLine(line) && MatchFence(line).None? && MatchHeading(digit, line).None?
      && LabelValue(line, VERDICT) == Some(Strip(v))
  {
    hide Strip, MatchHeading;
    var line := VERDICT + v;
    assert OneLine(VERDICT) && LStrip(line) == line && line[|VERDICT|..] == v;
    NotHeading(digit, line, 0);
  }

  lemma ReasonRead(digit: DigitMap, r: string)
    requires OneLine(r)
    ensures var line := REASON + r;
      && OneLine(line) && MatchFence(line).None? && MatchHeading(digit, line).None?
      && LabelValue(line, VERDICT) == None && LabelValue(line, REASON) == Some(Strip(r))
  {
    hide Strip, MatchHeading;
    var line := REASON + r;
    assert OneLine(REASON) && LStrip(line) == line && line[|REASON|..] == r;
    assert !EqFold(line[0], VERDICT[0]);
    NotHeading(digit, line, 0);
  }

  // ---------------------------------------------------------------- whole items

  predicate OneLineAnswer(a: Answer) {
    OneLine(a.verdict) && OneLine(a.reason)
  }

  function FieldsOf(a: Answer): Fields {
    Fields(Some(Strip(a.verdict)), Strip(a.reason))
  }

  function AfterItem(s: State, n: nat, a: Answer): State {
    s.(order := s.order + [n], values := s.values[n := FieldsOf(a)], current := Some(n))
  }

  lemma HeadStep(digit: DigitMap, s: State, n: nat, intent: string)
    requires IsDigitMap(digit) && Sound(s) && s.fence == None && n !in s.values && Quiet(digit, intent)
    ensures var head := ["", HEADING + NatText(n), "", INTENT_TITLE, "", intent, "", OUTPUT_TITLE, ""];
      && Lines(head) == head
      && Steps(digit, s, head)
         == Ok(s.(order := s.order + [n], values := s.values[n := Fields(None, "")], current := Some(n)))
  {
    hide IsDigitMap, NatText, MatchFence, MatchHeading, HasLabel, Steps, Quiet;
    var (title, rest) := (HEADING + NatText(n), ["", INTENT_TITLE, "", intent, "", OUTPUT_TITLE, ""]);
    var next := s.(order := s.order + [n], values := s.values[n := Fields(None, "")], current := Some(n));
    EmptyQuiet(digit);
    TitlesQuiet(digit);
    HeadingRead(digit, n);
    QuietSkipped(digit, s, [""]);
    OneStep(digit, s, title);
    QuietSkipped(digit, next, rest);
    StepsAppend(digit, s, [title], rest);
    StepsAppend(digit, s, [""], [title] + rest);
    HeadLines(digit, title, rest);
  }

  lemma HeadLines(digit: DigitMap, title: string, rest: seq<string>)
    requires OneLine(title) && Quiet(digit, "") && forall i :: 0 <= i < |rest| ==> Quiet(digit, rest[i])
    ensures var head := [""] + ([title] + rest); Lines(head) == head
  {
    LinesOfOneLines([""] + ([title] + rest));
  }

  lemma TailStep(digit: DigitMap, s: State, n: nat, a: Answer)
    requires Sound(s) && s.fence == None && s.current == Some(n) && s.values[n] == Fields(None, "")
    requires OneLineAnswer(a)
    ensures var tail := ["", LABEL_TITLE, "", VERDICT + a.verdict, REASON + a.reason];
      && Lines(tail) == tail
      && Steps(digit, s, tail) == Ok(s.(values := s.values[n := FieldsOf(a)]))
  {
    hide MatchFence, MatchHeading, HasLabel, LabelValue, Steps, Quiet, Strip;
    var (verdict, reason) := (VERDICT + a.verdict, REASON + a.reason);
    VerdictRead(digit, a.verdict);
    ReasonRead(digit, a.reason);
    EmptyQuiet(digit);
    TitlesQuiet(digit);
    QuietSkipped(digit, s, ["", LABEL_TITLE, ""]);
    var filled := s.(values := s.values[n := Fields(Some(Strip(a.verdict)), "")]);
    OneStep(digit, s, verdict);
    OneStep(digit, filled, reason);
    StepsAppend(digit, s, [verdict], [reason]);
    StepsAppend(digit, s, ["", LABEL_TITLE, ""], [verdict] + [reason]);
    assert filled.values[n := FieldsOf(a)] == s.values[n := FieldsOf(a)];
    assert ["", LABEL_TITLE, ""] + ([verdict] + [reason]) == ["", LABEL_TITLE, "", verdict, reason];
    assert OneLine("") && OneLine(LABEL_TITLE) by { QuietOneLine(digit, ""); QuietOneLine(digit, LABEL_TITLE); }
    TailLines("", LABEL_TITLE, "", verdict, reason);
  }

  lemma QuietOneLine(digit: DigitMap, line: string)
    requires Quiet(digit, line)
    ensures OneLine(line)
  {
  }

  lemma TailLines(a: string, b: string, c: string, d: string, e: string)
    requires OneLine(a) && OneLine(b) && OneLine(c) && OneLine(d) && OneLine(e)
    ensures Lines([a, b, c, d, e]) == [a, b, c, d, e]
  {
    hide OneLine;
    LinesOfOneLines([a, b, c, d, e]);
  }

  /** Reading one item: its own two labels are kept, and nothing inside its output is read. */
  lemma ItemStep(digit: DigitMap, s: State, n: nat, intent: string, output: string, a: Answer)
    requires IsDigitMap(digit) && Sound(s) && s.fence == None && n !in s.values
    requires Quiet(digit, intent) && OneLineAnswer(a)
    ensures Steps(digit, s, Lines(ItemSections(n, intent, output, a))) == Ok(AfterItem(s, n, a))
  {
    hide IsDigitMap, Lines, Steps, Quiet, NatText, OutputBlock, OneLineAnswer, FieldsOf;
    var head := ["", HEADING + NatText(n), "", INTENT_TITLE, "", intent, "", OUTPUT_TITLE, ""];
    var tail := ["", LABEL_TITLE, "", VERDICT + a.verdict, REASON + a.reason];
    var block := OutputBlock(output);
    var started := s.(order := s.order + [n], values := s.values[n := Fields(None, "")], current := Some(n));
    HeadStep(digit, s, n, intent);
    BlockSkipped(digit, started, output);
    TailStep(digit, started, n, a);
    SectionLines(head, block, tail);
    SectionParts(n, intent, output, a);
    ThreeSteps(digit, s, started, head, SplitLines(block + "\n"), tail);
    UpdateTwice(s.values, n, Fields(None, ""), FieldsOf(a));
  }

  lemma UpdateTwice<K, V>(m: map<K, V>, k: K, v: V, w: V)
    ensures m[k := v][k := w] == m[k := w]
  {
  }

  lemma SectionParts(n: nat, intent: string, output: string, a: Answer)
    ensures ItemSections(n, intent, output, a)
      == ["", HEADING + NatText(n), "", INTENT_TITLE, "", intent, "", OUTPUT_TITLE, ""]
         + ([OutputBlock(output)] + ["", LABEL_TITLE, "", VERDICT + a.verdict, REASON + a.reason])
  {
    hide NatText, OutputBlock;
  }

  lemma ThreeSteps(digit: DigitMap, s: State, t: State, a: seq<string>, b: seq<string>, c: seq<string>)
    requires Sound(s) && Sound(t)
    requires Steps(digit, s, a) == Ok(t) && Steps(digit, t, b) == Ok(t)
    ensures Steps(digit, s, a + (b + c)) == Steps(digit, t, c)
  {
    StepsAppend(digit, t, b, c);
    StepsAppend(digit, s, a, b + c);
  }

  lemma SectionLines(head: seq<string>, block: string, tail: seq<string>)
    requires Lines(head) == head && Lines(tail) == tail
    ensures Lines(head + ([block] + tail)) == head + (SplitLines(block + "\n") + tail)
  {
    LinesAppend(head, [block] + tail);
    LinesAppend([block], tail);
    assert [block][1..] == [] && Lines([block]) == SplitLines(block + "\n") + [];
  }

  function AfterItems(s: State, n: nat, answers: seq<Answer>): State
    decreases |answers|
  {
    if answers == [] then s else AfterItems(AfterItem(s, n, answers[0]), n + 1, answers[1..])
  }

  predicate QuietIntents(digit: DigitMap, intents: map<string, string>) {
    forall k :: k in intents ==> Quiet(digit, intents[k])
  }

  lemma {:induction false} ItemsStep(
    digit: DigitMap, s: State, intents: map<string, string>, runs: seq<Run>, answers: seq<Answer>, n: nat)
    requires IsDigitMap(digit) && Sound(s) && s.fence == None && forall i :: i in s.values ==> i < n
    requires |answers| == |runs| && Known(intents, runs) && QuietIntents(digit, intents)
    requires forall i :: 0 <= i < |answers| ==> OneLineAnswer(answers[i])
    ensures Steps(digit, s, Lines(ItemsSections(intents, runs, answers, n))) == Ok(AfterItems(s, n, answers))
    decreases |runs|
  {
    hide IsDigitMap, Lines, Steps, Quiet, OneLineAnswer, ItemSections, FieldsOf, Step, SplitLines;
    if runs == [] {
      NoSections(digit, s);
    } else {
      var (r, a) := (runs[0], answers[0]);
      assert r in runs && Quiet(digit, intents[r.caseId]);
      hide QuietIntents;
      var (first, more) := (ItemSections(n, intents[r.caseId], r.output, a),
                            ItemsSections(intents, runs[1..], answers[1..], n + 1));
      ItemStep(digit, s, n, intents[r.caseId], r.output, a);
      ItemsStep(digit, AfterItem(s, n, a), intents, runs[1..], answers[1..], n + 1);
      TwoSteps(digit, s, AfterItem(s, n, a), first, more);
    }
  }

  lemma NoSections(digit: DigitMap, s: State)
    requires Sound(s)
    ensures Steps(digit, s, Lines([])) == Ok(s)
  {
  }

  lemma TwoSteps(digit: DigitMap, s: State, t: State, a: seq<string>, b: seq<string>)
    requires Sound(s) && Sound(t) && Steps(digit, s, Lines(a)) == Ok(t)
    ensures Steps(digit, s, Lines(a + b)) == Steps(digit, t, Lines(b))
  {
    LinesAppend(a, b);
    StepsAppend(digit, s, Lines(a), Lines(b));
  }

  // ---------------------------------------------------------------- what the reader finds

  function ReadingOf(a: Answer): Reading {
    Read(Some(a.verdict))
  }

  /** The numbers, from `n` on, of the answers with the given reading. */
  function NumbersOf(answers: seq<Answer>, r: Reading, n: nat): seq<nat>
    decreases |answers|
  {
    if answers == [] then []
    else Pick(ReadingOf(answers[0]) == r, n) + NumbersOf(answers[1..], r, n + 1)
  }

  /** What a sheet with these answers must give: the blank and the unreadable items if there are
      any, or else the label of every item. */
  function Expected(answers: seq<Answer>): Result<map<nat, HumanLabel>, SheetError> {
    if answers == [] then Err(NoItems)
    else
      var (unfilled, unparseable) := (NumbersOf(answers, Unfilled, 1), NumbersOf(answers, Unparseable, 1));
      if unfilled != [] || unparseable != [] then Err(BadVerdicts(unfilled, unparseable))
      else
        Ok(map i | 1 <= i <= |answers| :: LabelAt(answers, i))
  }

  function LabelAt(answers: seq<Answer>, i: nat): HumanLabel
    requires 1 <= i <= |answers|
  {
    HumanLabel(i, ReadingOf(answers[i - 1]) == Label(true), Strip(answers[i - 1].reason))
  }

  lemma {:induction false} RStripIdempotent(s: string)
    ensures RStrip(RStrip(s)) == RStrip(s)
  {
  }

  lemma StripIdempotent(s: string)
    ensures Strip(Strip(s)) == Strip(s)
  {
    var t := LStrip(s);
    assert LStrip(RStrip(t)) == RStrip(t);
    RStripIdempotent(t);
  }

  predicate Listed(order: seq<nat>, values: map<nat, Fields>, answers: seq<Answer>, n: nat) {
    |order| == |answers| && forall k :: 0 <= k < |order| ==>
      order[k] == n + k && order[k] in values && values[order[k]] == FieldsOf(answers[k])
  }

  lemma ListedStep(order: seq<nat>, values: map<nat, Fields>, answers: seq<Answer>, n: nat)
    requires Listed(order, values, answers, n) && answers != []
    ensures order != [] && order[0] == n && n in values && values[n] == FieldsOf(answers[0])
    ensures Listed(order[1..], values, answers[1..], n + 1)
  {
    hide FieldsOf;
  }

  lemma {:induction false} ItemsReadShape(
    order: seq<nat>, values: map<nat, Fields>, answers: seq<Answer>, r: Reading, n: nat)
    requires Listed(order, values, answers, n)
    ensures ItemsRead(order, values, r) == NumbersOf(answers, r, n)
    decreases |answers|
  {
    hide Listed, Read, FieldsOf, ReadingOf, Pick;
    if answers == [] {
      ListedLength(order, values, answers, n);
    } else {
      ListedStep(order, values, answers, n);
      ReadStripped(answers[0]);
      ItemsReadShape(order[1..], values, answers[1..], r, n + 1);
      var hit := ReadingOf(answers[0]) == r;
      assert ItemsRead(order, values, r) == Pick(hit, n) + ItemsRead(order[1..], values, r);
    }
  }

  lemma ReadStripped(a: Answer)
    ensures Read(FieldsOf(a).verdict) == ReadingOf(a)
    ensures Strip(FieldsOf(a).reason) == Strip(a.reason)
  {
    hide Fold, Strip;
    StripIdempotent(a.verdict);
    StripIdempotent(a.reason);
  }

  lemma {:induction false} AfterItemsShape(s: State, n: nat, answers: seq<Answer>)
    requires forall i :: i in s.values ==> i < n
    ensures var t := AfterItems(s, n, answers);
      && s.order <= t.order && Listed(t.order[|s.order|..], t.values, answers, n)
      && (forall i :: i in t.values <==> i in s.values || n <= i < n + |answers|)
      && (forall i :: i in s.values ==> t.values[i] == s.values[i])
    decreases |answers|
  {
    hide FieldsOf;
    if answers != [] {
      var (s', t) := (AfterItem(s, n, answers[0]), AfterItems(s, n, answers));
      AfterItemsShape(s', n + 1, answers[1..]);
      assert t.values[n] == FieldsOf(answers[0]);
      ListedCons(t.order[|s.order|..], t.values, answers, n);
    }
  }

  lemma ListedCons(order: seq<nat>, values: map<nat, Fields>, answers: seq<Answer>, n: nat)
    requires answers != [] && order != [] && order[0] == n && n in values && values[n] == FieldsOf(answers[0])
    requires Listed(order[1..], values, answers[1..], n + 1)
    ensures Listed(order, values, answers, n)
  {
    hide FieldsOf;
    assert forall k :: 0 < k < |order| ==> order[k] == order[1..][k - 1] && answers[k] == answers[1..][k - 1];
  }

  lemma FinalState(answers: seq<Answer>)
    ensures var t := AfterItems(START, 1, answers);
      && Sound(t) && Listed(t.order, t.values, answers, 1)
      && (forall i :: i in t.values <==> 1 <= i <= |answers|)
  {
    hide FieldsOf, AfterItems;
    var t := AfterItems(START, 1, answers);
    AfterItemsShape(START, 1, answers);
    CurrentKnown(START, 1, answers);
    assert t.order[0..] == t.order;
    ListedInside(t.order, t.values, answers);
  }

  lemma ListedInside(order: seq<nat>, values: map<nat, Fields>, answers: seq<Answer>)
    requires Listed(order, values, answers, 1)
    requires forall i :: i in values ==> 1 <= i <= |answers|
    ensures forall i :: i in order <==> i in values
  {
    hide FieldsOf;
    forall i | i in values ensures i in order {
      assert order[i - 1] == i;
    }
  }

  lemma ListedLabels(order: seq<nat>, values: map<nat, Fields>, answers: seq<Answer>, i: nat)
    requires Listed(order, values, answers, 1) && 1 <= i <= |answers|
    ensures i in values && LabelFor(i, values[i]) == LabelAt(answers, i)
  {
    hide Read, Strip;
    assert order[i - 1] == i;
    ReadStripped(answers[i - 1]);
  }

  lemma FinishExpected(answers: seq<Answer>)
    ensures Sound(AfterItems(START, 1, answers))
    ensures Finish(AfterItems(START, 1, answers)) == Expected(answers)
  {
    hide NumbersOf, ItemsRead, AfterItems, LabelFor, LabelAt, Listed;
    var t := AfterItems(START, 1, answers);
    FinalState(answers);
    ListedLength(t.order, t.values, answers, 1);
    ItemsReadShape(t.order, t.values, answers, Unfilled, 1);
    ItemsReadShape(t.order, t.values, answers, Unparseable, 1);
    forall i | 1 <= i <= |answers| ensures i in t.values && LabelFor(i, t.values[i]) == LabelAt(answers, i) {
      ListedLabels(t.order, t.values, answers, i);
    }
    assert (map i | i in t.values :: LabelFor(i, t.values[i])) == map i | 1 <= i <= |answers| :: LabelAt(answers, i);
  }

  lemma ListedLength(order: seq<nat>, values: map<nat, Fields>, answers: seq<Answer>, n: nat)
    requires Listed(order, values, answers, n)
    ensures order == [] <==> answers == []
  {
  }

  lemma {:induction false} CurrentKnown(s: State, n: nat, answers: seq<Answer>)
    requires s.current.Some? ==> s.current.value in s.values
    ensures var t := AfterItems(s, n, answers); t.current.Some? ==> t.current.value in t.values
    decreases |answers|
  {
    hide FieldsOf;
    if answers != [] {
      CurrentKnown(AfterItem(s, n, answers[0]), n + 1, answers[1..]);
    }
  }

  // ---------------------------------------------------------------- the round trip

  /** The introduction lines: no fence and no item heading. */
  predicate IsIntro(digit: DigitMap, intro: seq<string>) {
    forall i :: 0 <= i < |intro| ==>
      OneLine(intro[i]) && MatchFence(intro[i]).None? && MatchHeading(digit, intro[i]).None?
  }

  lemma {:induction false} IntroSkipped(digit: DigitMap, intro: seq<string>)
    requires IsIntro(digit, intro)
    ensures Lines(intro) == intro && Steps(digit, START, intro) == Ok(START)
  {
    hide MatchFence, MatchHeading;
    LinesOfOneLines(intro);
    if intro != [] {
      assert Step(digit, START, intro[0]) == Ok(START);
      IntroSkipped(digit, intro[1..]);
    }
  }

  /** Reading back a filled sheet gives exactly what the rater wrote: for any outputs, fake
      headings, labels and fences in them included, the labels of items 1 to N, or the numbers of the
      items whose verdict is blank or cannot be read. */
  lemma SheetRoundTrip(
    digit: DigitMap, intro: seq<string>, intents: map<string, string>, runs: seq<Run>, answers: seq<Answer>)
    requires IsDigitMap(digit) && IsIntro(digit, intro) && intro != [] && QuietIntents(digit, intents)
    requires |answers| == |runs| && Known(intents, runs)
    requires forall i :: 0 <= i < |answers| ==> OneLineAnswer(answers[i])
    ensures ReadSheet(digit, FilledSheet(intro, intents, runs, answers)) == Expected(answers)
  {
    hide IsDigitMap, IsIntro, QuietIntents, OneLineAnswer, Lines, Steps, Finish, Expected, ItemsSections, AfterItems;
    var items := ItemsSections(intents, runs, answers, 1);
    IntroSkipped(digit, intro);
    ItemsStep(digit, START, intents, runs, answers, 1);
    SplitSections(intro + items);
    FinishExpected(answers);
    TwoSteps(digit, START, START, intro, items);
  }

  /** The words a rater is asked for. */
  function Word(passed: bool): string {
    if passed then " pass" else " fail"
  }

  function Labelled(passed: seq<bool>, reasons: seq<string>): (r: seq<Answer>)
    requires |passed| == |reasons|
    ensures |r| == |passed|
    ensures forall i :: 0 <= i < |r| ==> r[i] == Answer(Word(passed[i]), reasons[i])
  {
    seq(|passed|, i requires 0 <= i < |passed| => Answer(Word(passed[i]), reasons[i]))
  }

  lemma WordRead(passed: bool)
    ensures Read(Some(Word(passed))) == Label(passed) && OneLine(Word(passed))
  {
    var word := if passed then "pass" else "fail";
    hide Strip, Fold;
    WordStrip(passed);
    FoldWords();
    assert word[0] != ' ' && word != "";
  }

  lemma WordStrip(passed: bool)
    ensures Strip(Word(passed)) == if passed then "pass" else "fail"
  {
    var word := if passed then "pass" else "fail";
    StripPadded(1, word);
    assert Blanks(1) + word == Word(passed);
    assert RStrip(word) == word;
  }

  lemma FoldWords()
    ensures Fold("pass") == "pass" && Fold("fail") == "fail"
  {
    assert Fold("s") == "s" && Fold("ss") == "ss" && Fold("ass") == "ass";
    assert Fold("l") == "l" && Fold("il") == "il" && Fold("ail") == "ail";
  }

  lemma {:induction false} AllLabels(answers: seq<Answer>, r: Reading, n: nat)
    requires forall i :: 0 <= i < |answers| ==> ReadingOf(answers[i]) != r
    ensures NumbersOf(answers, r, n) == []
    decreases |answers|
  {
    hide ReadingOf;
    if answers != [] {
      AllLabels(answers[1..], r, n + 1);
    }
  }

  /** With a pass or fail for every item, the sheet gives items 1 to N with those labels and the
      reasons without the white space around them. */
  lemma LabelsComeBack(
    digit: DigitMap, intro: seq<string>, intents: map<string, string>, runs: seq<Run>,
    passed: seq<bool>, reasons: seq<string>)
    requires IsDigitMap(digit) && IsIntro(digit, intro) && intro != [] && QuietIntents(digit, intents)
    requires |passed| == |reasons| == |runs| > 0 && Known(intents, runs)
    requires forall i :: 0 <= i < |reasons| ==> OneLine(reasons[i])
    ensures var r := ReadSheet(digit, FilledSheet(intro, intents, runs, Labelled(passed, reasons)));
      && r.Ok?
      && (forall i :: i in r.value <==> 1 <= i <= |runs|)
      && (forall i :: 1 <= i <= |runs| ==> r.value[i] == HumanLabel(i, passed[i - 1], Strip(reasons[i - 1])))
  {
    hide IsDigitMap, IsIntro, QuietIntents, Known, ReadSheet, FilledSheet, Read, Word, Strip, OneLine, NumbersOf;
    var answers := Labelled(passed, reasons);
    forall i | 0 <= i < |answers| ensures OneLineAnswer(answers[i]) && ReadingOf(answers[i]) == Label(passed[i]) {
      WordRead(passed[i]);
    }
    SheetRoundTrip(digit, intro, intents, runs, answers);
    AllLabels(answers, Unfilled, 1);
    AllLabels(answers, Unparseable, 1);
  }

  // ---------------------------------------------------------------- the two programs

  /** Renders the sheet, one block of sections after another; a run without a rubric intent is
      refused. */
  method RenderSheet(intro: seq<string>, intents: map<string, string>, runs: seq<Run>)
    returns (sheet: Option<string>)
    ensures sheet.Some? <==> Known(intents, runs)
    ensures sheet.Some? ==> sheet.value == FilledSheet(intro, intents, runs, Blank(runs))
  {
    hide ItemSections, Join;
    var sections := intro;
    ghost var blank := Blank(runs);
    var i := 0;
    while i < |runs|
      invariant i <= |runs| && forall j :: 0 <= j < i ==> runs[j].caseId in intents
      invariant Known(intents, runs) ==>
        sections + ItemsSections(intents, runs[i..], blank[i..], i + 1)
        == intro + ItemsSections(intents, runs, blank, 1)
    {
      var run := runs[i];
      assert run in runs;
      if run.caseId !in intents {
        return None;
      }
      var item := ItemSections(i + 1, intents[run.caseId], run.output, BLANK);
      if Known(intents, runs) {
        SectionsStep(intents, runs[i..], blank[i..], i + 1, sections);
        assert runs[i..][1..] == runs[i + 1..] && blank[i..][1..] == blank[i + 1..];
      }
      sections := sections + item;
      i := i + 1;
    }
    assert Known(intents, runs);
    assert sections + [] == sections;
    sheet := Some(Join("\n", sections) + "\n");
  }

  lemma SectionsStep(intents: map<string, string>, runs: seq<Run>, answers: seq<Answer>, n: nat, done: seq<string>)
    requires |answers| == |runs| > 0 && Known(intents, runs)
    ensures runs[0].caseId in intents && Known(intents, runs[1..])
    ensures done + ItemsSections(intents, runs, answers, n)
         == done + ItemSections(n, intents[runs[0].caseId], runs[0].output, answers[0])
            + ItemsSections(intents, runs[1..], answers[1..], n + 1)
  {
    hide ItemSections;
    assert runs[0] in runs;
    Grouped(done, ItemSections(n, intents[runs[0].caseId], runs[0].output, answers[0]),
            ItemsSections(intents, runs[1..], answers[1..], n + 1));
  }

  /** Reads a filled sheet line by line. */
  method ParseFilledSheet(digit: DigitMap, text: string) returns (r: Result<map<nat, HumanLabel>, SheetError>)
    ensures r == ReadSheet(digit, text)
  {
    hide MatchFence, MatchHeading, LabelValue, SplitLines;
    var lines := SplitLines(text);
    var order: seq<nat>, values: map<nat, Fields> := [], map[];
    var current: Option<nat>, fence: Option<Fence> := None, None;
    var i := 0;
    while i < |lines|
      invariant i <= |lines| && Sound(State(order, values, current, fence))
      invariant Steps(digit, START, lines) == Steps(digit, State(order, values, current, fence), lines[i..])
    {
      var line := lines[i];
      ghost var before := State(order, values, current, fence);
      StepSound(digit, before, line);
      assert lines[i..][0] == line && lines[i..][1..] == lines[i + 1..];
      i := i + 1;
      var match_ := MatchFence(line);
      if fence.Some? {
        if match_.Some? && match_.value.mark == fence.value.mark && match_.value.length >= fence.value.length {
          fence := None;
        }
        continue;
      }
      if match_.Some? {
        fence := match_;
        continue;
      }
      var item := MatchHeading(digit, line);
      if item.Some? {
        if item.value in values {
          return Err(DuplicateHeading(item.value));
        }
        order, values := order + [item.value], values[item.value := Fields(None, "")];
        current := item;
        continue;
      }
      if current.None? {
        continue;
      }
      var (verdict, reason) := (LabelValue(line, VERDICT), LabelValue(line, REASON));
      if verdict.Some? {
        if values[current.value].verdict.Some? {
          return Err(DuplicateVerdict(current.value));
        }
        values := values[current.value := values[current.value].(verdict := verdict)];
      } else if reason.Some? {
        values := values[current.value := values[current.value].(reason := reason.value)];
      }
    }
    r := Finish(State(order, values, current, fence));
  }
}
