/** The edit that keeps one block of learned guidelines inside a `system_prompt` block scalar. */
module LearnedBlock {
  import opened Options
  import opened Text

  const BLOCK_START := "# --- fabri: learned from prior runs (auto-proposed) ---"
  const BLOCK_END := "# --- end fabri ---"
  const KEY := "system_prompt:"

  datatype EditError = NoBlockScalar

  // ---------------------------------------------------------------- lines

  /** The length of the first line, its ending included. */
  function LineEnd(s: string): (n: nat)
    requires s != ""
    ensures 0 < n <= |s|
  {
    if IsLineBreak(s[0]) then if s[0] == '\r' && |s| > 1 && s[1] == '\n' then 2 else 1
    else if |s| == 1 then 1
    else 1 + LineEnd(s[1..])
  }

  /** `s.splitlines(keepends=True)` */
  function KeepLines(s: string): seq<string> {
    if s == "" then [] else [s[..LineEnd(s)]] + KeepLines(s[LineEnd(s)..])
  }

  /** `"".join(lines)` */
  function Concat(lines: seq<string>): string {
    if lines == [] then "" else lines[0] + Concat(lines[1..])
  }

  predicate HasCrLf(s: string) {
    exists i :: 0 <= i < |s| - 1 && s[i] == '\r' && s[i + 1] == '\n'
  }

  function IndentOf(line: string): (r: string)
    ensures r <= line
  {
    if line != "" && (line[0] == ' ' || line[0] == '\t') then [line[0]] + IndentOf(line[1..]) else ""
  }

  predicate IsBlank(line: string) {
    Strip(line) == ""
  }

  // ---------------------------------------------------------------- the block scalar

  /** The indentation of a line that opens a literal or folded `system_prompt`: the key, then `>` or
      `|`, a chomping sign or none, and nothing but white space and a comment. */
  function KeyIndent(line: string): Option<string> {
    var indent := IndentOf(line);
    var rest := line[|indent|..];
    if !(KEY <= rest) then None
    else
      var value := LStrip(rest[|KEY|..]);
      if value == "" || (value[0] != '>' && value[0] != '|') then None
      else
        var signed := value[1..];
        var plain := if signed != "" && (signed[0] == '+' || signed[0] == '-') then signed[1..] else signed;
        var comment := LStrip(plain);
        if comment == "" || comment[0] == '#' then Some(indent) else None
  }

  /** The line is content and not indented deeper than the key. */
  predicate Ends(line: string, width: nat) {
    !IsBlank(line) && |IndentOf(line)| <= width
  }

  /** The first header from `i` on: its index and its indentation. */
  function HeaderFrom(lines: seq<string>, i: nat): (r: Option<(nat, string)>)
    requires i <= |lines|
    ensures r.Some? ==> i <= r.value.0 < |lines|
    decreases |lines| - i
  {
    if i == |lines| then None
    else
      match KeyIndent(lines[i])
      case Some(indent) => Some((i, indent))
      case None => HeaderFrom(lines, i + 1)
  }

  function EndFrom(lines: seq<string>, i: nat, width: nat): (r: nat)
    requires i <= |lines|
    ensures i <= r <= |lines|
    decreases |lines| - i
  {
    if i == |lines| || Ends(lines[i], width) then i else EndFrom(lines, i + 1, width)
  }

  /** The indentation of the first line with content, or the default. */
  function ContentIndent(body: seq<string>, default: string): string {
    if body == [] then default
    else if !IsBlank(body[0]) then IndentOf(body[0])
    else ContentIndent(body[1..], default)
  }

  /** What a line is to the scan for an earlier block. */
  datatype Mark = StartMark | EndMark | Other

  function MarkOf(line: string): Mark {
    var stripped := Strip(line);
    if stripped == BLOCK_START then StartMark else if stripped == BLOCK_END then EndMark else Other
  }

  function Marks(body: seq<string>): (r: seq<Mark>)
    ensures |r| == |body|
  {
    seq(|body|, i requires 0 <= i < |body| => MarkOf(body[i]))
  }

  /** The lines from `start` up to `stop`, if the scan found any. */
  datatype Span = NoSpan | Span(start: nat, stop: nat)

  /** The block already there: the first end marker with a start marker before it, and the last such
      start marker. `start` is the last one seen before `i`. */
  function Scan(marks: seq<Mark>, i: nat, start: Option<nat>): (r: Span)
    requires i <= |marks| && (start.Some? ==> start.value < i)
    ensures r.Span? ==> r.start < r.stop <= |marks|
    ensures r.Span? ==> r.start >= i || start == Some(r.start)
    decreases |marks| - i
  {
    if i == |marks| then NoSpan
    else if marks[i] == StartMark then Scan(marks, i + 1, Some(i))
    else if start.Some? && marks[i] == EndMark then Span(start.value, i + 1)
    else Scan(marks, i + 1, start)
  }

  // ---------------------------------------------------------------- the edit

  function Bullets(indent: string, guidelines: seq<string>, newline: string): (r: seq<string>)
    ensures |r| == |guidelines|
    ensures forall i :: 0 <= i < |r| ==> r[i] == indent + "# - " + guidelines[i] + newline
  {
    seq(|guidelines|, i requires 0 <= i < |guidelines| => indent + "# - " + guidelines[i] + newline)
  }

  function Block(indent: string, guidelines: seq<string>, newline: string): seq<string> {
    [indent + BLOCK_START + newline] + Bullets(indent, guidelines, newline) + [indent + BLOCK_END + newline]
  }

  /** What an edit keeps, and how the new block between is written. */
  datatype Place = Place(before: seq<string>, after: seq<string>, indent: string, newline: string)

  function Locate(lines: seq<string>, crLf: bool): Option<Place> {
    match HeaderFrom(lines, 0)
    case None => None
    case Some((at, keyIndent)) =>
      Some(LocateIn(lines, at, keyIndent, EndFrom(lines, at + 1, |keyIndent|), crLf))
  }

  /** The place inside the scalar with its key on line `at` and its end before line `end`: an earlier
      block, or the scalar's end. */
  function LocateIn(lines: seq<string>, at: nat, keyIndent: string, end: nat, crLf: bool): Place
    requires at < end <= |lines|
  {
    var body := lines[at + 1..end];
    var indent := ContentIndent(body, keyIndent + "  ");
    var newline := if crLf then "\r\n" else "\n";
    match Scan(Marks(body), 0, None)
    case Span(start, stop) =>
      Place(lines[..at + 1 + start], lines[at + 1 + stop..], indent, newline)
    case NoSpan =>
      Place(lines[..end], lines[end..], indent, newline)
  }

  function Edited(p: Place, guidelines: seq<string>): seq<string> {
    p.before + Block(p.indent, guidelines, p.newline) + p.after
  }

  /** The edited text. */
  function Apply(text: string, guidelines: seq<string>): Result<string, EditError> {
    match Locate(KeepLines(text), HasCrLf(text))
    case None => Err(NoBlockScalar)
    case Some(p) => Ok(Concat(Edited(p, guidelines)))
  }

  // ---------------------------------------------------------------- the code's loops

  method FindHeader(lines: seq<string>) returns (scalarAt: Option<nat>, keyIndent: string)
    ensures match HeaderFrom(lines, 0)
            case Some((at, indent)) => scalarAt == Some(at) && keyIndent == indent
            case None => scalarAt == None
  {
    hide KeyIndent;
    scalarAt, keyIndent := None, "";
    var index := 0;
    while index < |lines|
      invariant 0 <= index <= |lines| && scalarAt == None
      invariant HeaderFrom(lines, 0) == HeaderFrom(lines, index)
    {
      var found := KeyIndent(lines[index]);
      if found.Some? {
        scalarAt, keyIndent := Some(index), found.value;
        return;
      }
      index := index + 1;
    }
  }

  method FindScalarEnd(lines: seq<string>, at: nat, keyIndent: string) returns (end: nat)
    requires at < |lines|
    ensures end == EndFrom(lines, at + 1, |keyIndent|)
  {
    end := |lines|;
    var index := at + 1;
    while index < |lines|
      invariant at + 1 <= index <= |lines| && end == |lines|
      invariant EndFrom(lines, at + 1, |keyIndent|) == EndFrom(lines, index, |keyIndent|)
    {
      if !IsBlank(lines[index]) && |IndentOf(lines[index])| <= |keyIndent| {
        return index;
      }
      index := index + 1;
    }
  }

  method FindContentIndent(body: seq<string>, keyIndent: string) returns (indent: string)
    ensures indent == ContentIndent(body, keyIndent + "  ")
  {
    indent := keyIndent + "  ";
    var index := 0;
    while index < |body|
      invariant 0 <= index <= |body| && indent == keyIndent + "  "
      invariant ContentIndent(body, indent) == ContentIndent(body[index..], indent)
    {
      assert body[index..][1..] == body[index + 1..];
      if !IsBlank(body[index]) {
        return IndentOf(body[index]);
      }
      index := index + 1;
    }
  }

  method FindBlock(lines: seq<string>, at: nat, scalarEnd: nat) returns (start: Option<nat>, end: Option<nat>)
    requires at < scalarEnd <= |lines|
    ensures match Scan(Marks(lines[at + 1..scalarEnd]), 0, None)
            case Span(first, stop) => start == Some(at + 1 + first) && end == Some(at + 1 + stop)
            case NoSpan => start.None? || end.None?
  {
    hide Strip;
    start, end := None, None;
    ghost var marks := Marks(lines[at + 1..scalarEnd]);
    var index := at + 1;
    while index < scalarEnd
      invariant at + 1 <= index <= scalarEnd && end.None?
      invariant start.Some? ==> at + 1 <= start.value < index
      invariant Scan(marks, 0, None)
                == Scan(marks, index - at - 1, if start.Some? then Some(start.value - at - 1) else None)
    {
      assert marks[index - at - 1] == MarkOf(lines[index]);
      var stripped := Strip(lines[index]);
      if stripped == BLOCK_START {
        start := Some(index);
      } else if start.Some? && stripped == BLOCK_END {
        end := Some(index + 1);
        break;
      }
      index := index + 1;
    }
  }

  method NewBlock(indent: string, guidelines: seq<string>, newline: string) returns (block: seq<string>)
    ensures block == Block(indent, guidelines, newline)
  {
    block := [indent + BLOCK_START + newline];
    var index := 0;
    while index < |guidelines|
      invariant 0 <= index <= |guidelines|
      invariant block == [indent + BLOCK_START + newline] + Bullets(indent, guidelines, newline)[..index]
    {
      block := block + [indent + "# - " + guidelines[index] + newline];
      index := index + 1;
    }
    assert Bullets(indent, guidelines, newline)[..index] == Bullets(indent, guidelines, newline);
    block := block + [indent + BLOCK_END + newline];
  }

  method ApplyLearnedBlock(text: string, guidelines: seq<string>) returns (r: Result<string, EditError>)
    ensures r == Apply(text, guidelines)
  {
    hide KeyIndent, KeepLines, Concat, ContentIndent, Scan, Marks, HeaderFrom, EndFrom, HasCrLf, Block, Edited;
    var lines := KeepLines(text);
    var scalarAt, keyIndent := FindHeader(lines);
    if scalarAt.None? {
      return Err(NoBlockScalar);
    }
    var at := scalarAt.value;
    var scalarEnd := FindScalarEnd(lines, at, keyIndent);
    var indent := FindContentIndent(lines[at + 1..scalarEnd], keyIndent);
    var newline := if HasCrLf(text) then "\r\n" else "\n";
    var block := NewBlock(indent, guidelines, newline);
    var start, end := FindBlock(lines, at, scalarEnd);
    ghost var p := Locate(lines, HasCrLf(text)).value;
    if start.Some? && end.Some? {
      lines := lines[..start.value] + block + lines[end.value..];
    } else {
      lines := lines[..scalarEnd] + block + lines[scalarEnd..];
    }
    EditedIs(p, guidelines);
    r := Ok(Concat(lines));
  }

  lemma EditedIs(p: Place, guidelines: seq<string>)
    ensures Edited(p, guidelines) == p.before + Block(p.indent, guidelines, p.newline) + p.after
  {
  }

  // ---------------------------------------------------------------- finding the new block again

  predicate OneLiners(guidelines: seq<string>) {
    forall i :: 0 <= i < |guidelines| ==> OneLine(guidelines[i])
  }

  predicate BlanksOnly(s: string) {
    forall i :: 0 <= i < |s| ==> s[i] == ' ' || s[i] == '\t'
  }

  lemma {:induction false} IndentBlank(line: string)
    ensures BlanksOnly(IndentOf(line))
  {
    if line != "" && (line[0] == ' ' || line[0] == '\t') {
      IndentBlank(line[1..]);
    }
  }

  /** An indented line that goes on with other text. */
  lemma {:induction false} IndentOfIndented(indent: string, rest: string)
    requires BlanksOnly(indent) && rest != "" && rest[0] != ' ' && rest[0] != '\t'
    ensures IndentOf(indent + rest) == indent
  {
    if indent == "" {
      assert indent + rest == rest;
    } else {
      assert (indent + rest)[1..] == indent[1..] + rest;
      IndentOfIndented(indent[1..], rest);
      assert [indent[0]] + indent[1..] == indent;
    }
  }

  lemma {:induction false} LStripIndented(indent: string, rest: string)
    requires BlanksOnly(indent) && rest != "" && !IsSpace(rest[0])
    ensures LStrip(indent + rest) == rest
  {
    if indent == "" {
      assert indent + rest == rest;
    } else {
      assert (indent + rest)[1..] == indent[1..] + rest;
      LStripIndented(indent[1..], rest);
    }
  }

  predicate IsNewline(newline: string) {
    newline == "\n" || newline == "\r\n"
  }

  /** Stripping a marker line gives the marker. */
  lemma MarkerStripped(indent: string, marker: string, newline: string)
    requires BlanksOnly(indent) && IsNewline(newline) && Tight(marker)
    ensures Strip(indent + marker + newline) == marker
  {
    var line := indent + marker + newline;
    assert line == indent + (marker + newline);
    LStripIndented(indent, marker + newline);
    RStripNewline(marker, newline);
  }

  lemma RStripNewline(marker: string, newline: string)
    requires IsNewline(newline) && Tight(marker)
    ensures RStrip(marker + newline) == marker
  {
    var line := marker + newline;
    hide Tight;
    assert line[..|line| - 1] == marker + newline[..|newline| - 1];
    if newline == "\n" {
      assert line[..|line| - 1] == marker;
    } else {
      assert line[..|line| - 1][..|line| - 2] == marker;
    }
    RStripTight(marker);
  }

  lemma RStripTight(marker: string)
    requires Tight(marker)
    ensures RStrip(marker) == marker
  {
  }

  lemma Prefixed(p: string, s: string)
    requires p <= s
    ensures forall i :: 0 <= i < |p| ==> s[i] == p[i]
  {
  }

  lemma HalfFirst()
    ensures var half := "# --- fabri: learned from prior runs";
            |half| == 36 && half[0] == '#' && half[3] == '-' && half[6] == 'f'
  {
    assert "# --- f"[0] == '#' && "# --- f"[3] == '-' && "# --- f"[6] == 'f';
    Prefixed("# --- f", "# --- fabri: learned");
    Prefixed("# --- fabri: learned", "# --- fabri: learned from prior runs");
  }

  lemma StartFirst()
    ensures |BLOCK_START| > 6 && BLOCK_START[0] == '#' && BLOCK_START[3] == '-' && BLOCK_START[6] == 'f'
  {
    HalfFirst();
    Prefixed("# --- fabri: learned from prior runs", BLOCK_START);
  }

  lemma StartLast()
    ensures |BLOCK_START| == 56 && BLOCK_START[55] == '-'
  {
  }

  lemma EndShape()
    ensures |BLOCK_END| == 19 && BLOCK_END[0] == '#' && BLOCK_END[3] == '-' && BLOCK_END[6] == 'e'
    ensures BLOCK_END[18] == '-'
  {
  }

  /** The markers differ, are tight, and are told from a guideline line by their fourth character. */
  lemma MarkersTight()
    ensures Tight(BLOCK_START) && Tight(BLOCK_END)
    ensures BLOCK_START[0] == '#' && BLOCK_END[0] == '#'
    ensures |BLOCK_START| > 3 && |BLOCK_END| > 3 && BLOCK_START[3] == '-' && BLOCK_END[3] == '-'
    ensures |BLOCK_START| > 6 && |BLOCK_END| > 6 && BLOCK_START[6] != BLOCK_END[6]
  {
    StartFirst();
    StartLast();
    EndShape();
  }

  /** A guideline line is never taken for a marker: its fourth visible character is a space, a marker's
      a dash. */
  lemma BulletStripped(indent: string, guideline: string, newline: string)
    requires BlanksOnly(indent)
    ensures var s := Strip(indent + "# - " + guideline + newline);
            s != "" && s != BLOCK_START && s != BLOCK_END
  {
    var rest := "# - " + guideline + newline;
    assert indent + "# - " + guideline + newline == indent + rest;
    LStripIndented(indent, rest);
    assert rest[0] == '#' && rest[3] == ' ';
    RStripKeepsFirst(rest);
    MarkersTight();
  }

  lemma {:induction false} RStripKeepsFirst(s: string)
    requires s != "" && !IsSpace(s[0])
    ensures RStrip(s) != ""
  {
    if IsSpace(s[|s| - 1]) {
      RStripKeepsFirst(s[..|s| - 1]);
    }
  }

  lemma {:induction false} HeaderKept(lines: seq<string>, other: seq<string>, i: nat, at: nat, indent: string)
    requires i <= |lines| && HeaderFrom(lines, i) == Some((at, indent))
    requires i <= |other| && at < |other| && other[..at + 1] == lines[..at + 1]
    ensures HeaderFrom(other, i) == Some((at, indent))
    decreases |lines| - i
  {
    hide KeyIndent;
    assert other[i] == other[..at + 1][i] == lines[..at + 1][i] == lines[i];
    if KeyIndent(lines[i]).None? {
      HeaderKept(lines, other, i + 1, at, indent);
    }
  }

  predicate Inside(body: seq<string>, width: nat) {
    forall i :: 0 <= i < |body| ==> !Ends(body[i], width)
  }

  lemma {:induction false} EndExact(lines: seq<string>, i: nat, width: nat)
    requires i <= |lines|
    ensures Inside(lines[i..EndFrom(lines, i, width)], width)
    ensures EndFrom(lines, i, width) < |lines| ==> Ends(lines[EndFrom(lines, i, width)], width)
    decreases |lines| - i
  {
    hide Ends;
    if i < |lines| && !Ends(lines[i], width) {
      EndExact(lines, i + 1, width);
      var e := EndFrom(lines, i, width);
      assert lines[i..e] == [lines[i]] + lines[i + 1..e];
    }
  }

  lemma {:induction false} EndIs(lines: seq<string>, i: nat, e: nat, width: nat)
    requires i <= e <= |lines| && Inside(lines[i..e], width)
    requires e < |lines| ==> Ends(lines[e], width)
    ensures EndFrom(lines, i, width) == e
    decreases e - i
  {
    hide Ends;
    if i < e {
      assert lines[i..e][0] == lines[i] && lines[i..e][1..] == lines[i + 1..e];
      EndIs(lines, i + 1, e, width);
    }
  }

  lemma {:induction false} ScanBefore(marks: seq<Mark>, i: nat, start: Option<nat>, found: Span)
    requires i <= |marks| && (start.Some? ==> start.value < i)
    requires Scan(marks, i, start) == found && found.Span? && i <= found.start
    ensures Scan(marks[..found.start], i, start) == NoSpan
    decreases |marks| - i
  {
    if i < found.start {
      ScanBefore(marks, i + 1, if marks[i] == StartMark then Some(i) else start, found);
    }
  }

  lemma {:induction false} ScanPrefix(p: seq<Mark>, x: seq<Mark>, i: nat, start: Option<nat>)
    returns (seen: Option<nat>)
    requires i <= |p| && (start.Some? ==> start.value < i)
    requires Scan(p, i, start) == NoSpan
    ensures seen.Some? ==> seen.value < |p|
    ensures Scan(p + x, i, start) == Scan(p + x, |p|, seen)
    decreases |p| - i
  {
    if i == |p| {
      seen := start;
    } else {
      assert (p + x)[i] == p[i];
      seen := ScanPrefix(p, x, i + 1, if p[i] == StartMark then Some(i) else start);
    }
  }

  lemma {:induction false} ScanEnds(marks: seq<Mark>, i: nat, start: Option<nat>)
    requires i <= |marks| && (start.Some? ==> start.value < i && marks[start.value] == StartMark)
    requires Scan(marks, i, start).Span?
    ensures marks[Scan(marks, i, start).start] == StartMark
    ensures marks[Scan(marks, i, start).stop - 1] == EndMark
    ensures Scan(marks, i, start).start + 2 <= Scan(marks, i, start).stop
    decreases |marks| - i
  {
    if marks[i] == StartMark {
      ScanEnds(marks, i + 1, Some(i));
    } else if start.None? || marks[i] != EndMark {
      ScanEnds(marks, i + 1, start);
    }
  }

  /** The marks of a block: markers at both ends and none between. */
  function BlockMarks(n: nat): (r: seq<Mark>)
    ensures |r| == n + 2
    ensures r[0] == StartMark && r[n + 1] == EndMark
    ensures forall i :: 0 < i <= n ==> r[i] == Other
  {
    [StartMark] + seq(n, _ => Other) + [EndMark]
  }

  lemma {:induction false} ScanMiddle(marks: seq<Mark>, i: nat, start: nat, stop: nat)
    requires start < i < stop <= |marks| && marks[stop - 1] == EndMark
    requires forall j :: i <= j < stop - 1 ==> marks[j] == Other
    ensures Scan(marks, i, Some(start)) == Span(start, stop)
    decreases stop - i
  {
    if i < stop - 1 {
      ScanMiddle(marks, i + 1, start, stop);
    }
  }

  /** After text without a complete block the scan finds the block that comes next. */
  lemma ScanFinds(p: seq<Mark>, n: nat, q: seq<Mark>)
    requires Scan(p, 0, None) == NoSpan
    ensures Scan(p + (BlockMarks(n) + q), 0, None) == Span(|p|, |p| + n + 2)
  {
    var seen := ScanPrefix(p, BlockMarks(n) + q, 0, None);
    BlockMarksAt(p, n, q);
    ScanMiddle(p + (BlockMarks(n) + q), |p| + 1, |p|, |p| + n + 2);
  }

  lemma BlockMarksAt(p: seq<Mark>, n: nat, q: seq<Mark>)
    ensures var marks := p + (BlockMarks(n) + q);
            && marks[|p|] == StartMark && marks[|p| + n + 1] == EndMark
            && forall j :: |p| < j <= |p| + n ==> marks[j] == Other
  {
    var marks := p + (BlockMarks(n) + q);
    assert marks[|p|] == BlockMarks(n)[0] && marks[|p| + n + 1] == BlockMarks(n)[n + 1];
    assert forall j :: |p| < j <= |p| + n ==> marks[j] == BlockMarks(n)[j - |p|];
  }

  lemma MarksOfBlock(indent: string, guidelines: seq<string>, newline: string)
    requires BlanksOnly(indent) && IsNewline(newline)
    ensures Marks(Block(indent, guidelines, newline)) == BlockMarks(|guidelines|)
  {
    var block := Block(indent, guidelines, newline);
    MarkersTight();
    hide Tight, BlanksOnly, IsNewline, Strip;
    MarkerStripped(indent, BLOCK_START, newline);
    MarkerStripped(indent, BLOCK_END, newline);
    forall i | 0 < i <= |guidelines|
      ensures MarkOf(block[i]) == Other
    {
      assert block[i] == indent + "# - " + guidelines[i - 1] + newline;
      BulletStripped(indent, guidelines[i - 1], newline);
    }
  }

  lemma NewBlockComplete(indent: string, guidelines: seq<string>, newline: string)
    requires BlanksOnly(indent) && IsNewline(newline)
    ensures CompleteBlock(Block(indent, guidelines, newline))
  {
    MarksOfBlock(indent, guidelines, newline);
    var block := Block(indent, guidelines, newline);
    hide Block, MarkOf;
    assert Marks(block)[0] == MarkOf(block[0]) && Marks(block)[|block| - 1] == MarkOf(block[|block| - 1]);
  }

  lemma MarksOfParts(a: seq<string>, b: seq<string>, c: seq<string>)
    ensures Marks(a + (b + c)) == Marks(a) + (Marks(b) + Marks(c))
  {
    hide MarkOf;
  }

  // ---------------------------------------------------------------- the same place again

  predicate AllBlank(body: seq<string>) {
    forall i :: 0 <= i < |body| ==> IsBlank(body[i])
  }

  /** Content lines before decide the indentation; without any, what follows does. */
  lemma {:induction false} ContentIndentOf(p: seq<string>, x: seq<string>, default: string)
    ensures AllBlank(p) ==> ContentIndent(p + x, default) == ContentIndent(x, default)
    ensures !AllBlank(p) ==> ContentIndent(p + x, default) == ContentIndent(p, default)
  {
    hide IsBlank;
    if p == [] {
      assert p + x == x;
    } else {
      assert (p + x)[1..] == p[1..] + x;
      ContentIndentOf(p[1..], x, default);
      assert p == [p[0]] + p[1..];
    }
  }

  lemma {:induction false} ContentIndentWide(body: seq<string>, default: string, width: nat)
    requires Inside(body, width) && BlanksOnly(default) && |default| > width
    ensures BlanksOnly(ContentIndent(body, default)) && |ContentIndent(body, default)| > width
  {
    if body != [] {
      IndentBlank(body[0]);
      hide IsBlank, BlanksOnly;
      assert !Ends(body[0], width);
      assert Inside(body[1..], width);
      ContentIndentWide(body[1..], default, width);
    }
  }

  /** A line the edit writes: indented as asked, and not blank. */
  lemma WrittenLine(indent: string, text: string)
    requires BlanksOnly(indent) && text != "" && text[0] == '#'
    ensures IndentOf(indent + text) == indent && !IsBlank(indent + text)
  {
    IndentOfIndented(indent, text);
    LStripIndented(indent, text);
    RStripKeepsFirst(text);
  }

  lemma BlockLines(indent: string, guidelines: seq<string>, newline: string, i: nat)
    requires BlanksOnly(indent) && i < |guidelines| + 2
    ensures var line := Block(indent, guidelines, newline)[i];
            IndentOf(line) == indent && !IsBlank(line)
  {
    var line := Block(indent, guidelines, newline)[i];
    MarkersTight();
    hide Tight, BlanksOnly, IsBlank;
    if i == 0 {
      assert line == indent + (BLOCK_START + newline);
      WrittenLine(indent, BLOCK_START + newline);
    } else if i == |guidelines| + 1 {
      assert line == indent + (BLOCK_END + newline);
      WrittenLine(indent, BLOCK_END + newline);
    } else {
      var g := guidelines[i - 1];
      assert line == indent + ("# - " + g + newline);
      WrittenLine(indent, "# - " + g + newline);
    }
  }

  lemma BlockInside(indent: string, guidelines: seq<string>, newline: string, width: nat)
    requires BlanksOnly(indent) && |indent| > width
    ensures Inside(Block(indent, guidelines, newline), width)
  {
    var block := Block(indent, guidelines, newline);
    hide Block, BlanksOnly;
    forall i | 0 <= i < |block|
      ensures !Ends(block[i], width)
    {
      BlockLength(indent, guidelines, newline);
      BlockLines(indent, guidelines, newline, i);
    }
  }

  lemma BlockLength(indent: string, guidelines: seq<string>, newline: string)
    ensures |Block(indent, guidelines, newline)| == |guidelines| + 2
  {
  }

  predicate CompleteBlock(block: seq<string>) {
    |block| >= 2 && MarkOf(block[0]) == StartMark && MarkOf(block[|block| - 1]) == EndMark
  }

  /** The body of the scalar around the block: `p` has no complete block, `p` and `q` are kept. */
  lemma BodyParts(body: seq<string>) returns (p: seq<string>, old': seq<string>, q: seq<string>)
    ensures body == p + (old' + q)
    ensures Scan(Marks(p), 0, None) == NoSpan
    ensures match Scan(Marks(body), 0, None)
            case Span(start, stop) => p == body[..start] && q == body[stop..] && old' == body[start..stop]
            case NoSpan => p == body && q == [] && old' == []
    ensures if old' == [] then q == [] else CompleteBlock(old')
  {
    hide Scan, MarkOf;
    match Scan(Marks(body), 0, None)
    case Span(start, stop) =>
      ScanBefore(Marks(body), 0, None, Span(start, stop));
      ScanEnds(Marks(body), 0, None);
      p, old', q := body[..start], body[start..stop], body[stop..];
      assert Marks(p) == Marks(body)[..start];
    case NoSpan =>
      p, old', q := body, [], [];
  }

  /** The new body's indentation is the old one's. */
  lemma SameContentIndent(p: seq<string>, old': seq<string>, q: seq<string>, block: seq<string>, default: string)
    requires block != [] && !IsBlank(block[0])
    requires IndentOf(block[0]) == ContentIndent(p + (old' + q), default)
    ensures ContentIndent(p + (block + q), default) == ContentIndent(p + (old' + q), default)
  {
    hide IsBlank, AllBlank;
    ContentIndentOf(p, old' + q, default);
    ContentIndentOf(p, block + q, default);
    assert (block + q)[0] == block[0];
  }

  lemma InsideParts(a: seq<string>, b: seq<string>, width: nat)
    ensures Inside(a + b, width) <==> Inside(a, width) && Inside(b, width)
  {
    hide Ends;
    if Inside(a + b, width) {
      assert forall i :: 0 <= i < |a| ==> (a + b)[i] == a[i];
      forall i | 0 <= i < |b| ensures !Ends(b[i], width) {
        assert (a + b)[|a| + i] == b[i];
      }
    }
  }

  lemma {:induction false} HeaderIndentBlank(lines: seq<string>, i: nat)
    requires i <= |lines| && HeaderFrom(lines, i).Some?
    ensures BlanksOnly(HeaderFrom(lines, i).value.1)
    decreases |lines| - i
  {
    IndentBlank(lines[i]);
    if KeyIndent(lines[i]).None? {
      HeaderIndentBlank(lines, i + 1);
    }
  }

  /** The text around and inside the block scalar: `head` ends with the key's line, the scalar's own
      lines are `p`, the earlier block and `q`, and `tail` is what follows the scalar. */
  datatype Parts = Parts(
    at: nat, keyIndent: string, head: seq<string>,
    p: seq<string>, block: seq<string>, q: seq<string>, tail: seq<string>)

  function Body(parts: Parts): seq<string> {
    parts.p + (parts.block + parts.q)
  }

  function Whole(parts: Parts): seq<string> {
    parts.head + Body(parts) + parts.tail
  }

  predicate WellParted(parts: Parts) {
    && |parts.head| == parts.at + 1
    && BlanksOnly(parts.keyIndent)
    && HeaderFrom(Whole(parts), 0) == Some((parts.at, parts.keyIndent))
    && Inside(Body(parts), |parts.keyIndent|)
    && (parts.tail != [] ==> Ends(parts.tail[0], |parts.keyIndent|))
    && Scan(Marks(parts.p), 0, None) == NoSpan
    && (if parts.block == [] then parts.q == [] else CompleteBlock(parts.block))
  }

  function PlaceOf(parts: Parts, crLf: bool): Place {
    Place(parts.head + parts.p, parts.q + parts.tail,
          ContentIndent(Body(parts), parts.keyIndent + "  "), if crLf then "\r\n" else "\n")
  }

  lemma CutLines(lines: seq<string>, at: nat, end: nat)
    requires at < end <= |lines|
    ensures lines == lines[..at + 1] + lines[at + 1..end] + lines[end..]
  {
  }

  lemma CutFound(lines: seq<string>, at: nat, end: nat, start: nat, stop: nat)
    requires at < end <= |lines| && start <= stop <= end - at - 1
    ensures var body := lines[at + 1..end];
            && lines[..at + 1] + body[..start] == lines[..at + 1 + start]
            && body[stop..] + lines[end..] == lines[at + 1 + stop..]
  {
  }

  lemma CutWhole(lines: seq<string>, at: nat, end: nat)
    requires at < end <= |lines|
    ensures lines[..at + 1] + lines[at + 1..end] == lines[..end]
    ensures [] + lines[end..] == lines[end..]
  {
  }

  lemma LocateInFound(lines: seq<string>, at: nat, keyIndent: string, end: nat, crLf: bool,
                      body: seq<string>, start: nat, stop: nat)
    requires at < end <= |lines| && lines[at + 1..end] == body
    requires Scan(Marks(body), 0, None) == Span(start, stop)
    ensures start < stop <= |body|
    ensures LocateIn(lines, at, keyIndent, end, crLf)
            == Place(lines[..at + 1 + start], lines[at + 1 + stop..],
                     ContentIndent(body, keyIndent + "  "), if crLf then "\r\n" else "\n")
  {
    hide Scan, Marks, ContentIndent;
  }

  lemma LocateInNone(lines: seq<string>, at: nat, keyIndent: string, end: nat, crLf: bool, body: seq<string>)
    requires at < end <= |lines| && lines[at + 1..end] == body
    requires Scan(Marks(body), 0, None) == NoSpan
    ensures LocateIn(lines, at, keyIndent, end, crLf)
            == Place(lines[..end], lines[end..],
                     ContentIndent(body, keyIndent + "  "), if crLf then "\r\n" else "\n")
  {
    hide Scan, Marks, ContentIndent;
  }

  lemma PlaceShape(parts: Parts, crLf: bool)
    ensures PlaceOf(parts, crLf)
            == Place(parts.head + parts.p, parts.q + parts.tail,
                     ContentIndent(Body(parts), parts.keyIndent + "  "), if crLf then "\r\n" else "\n")
  {
    hide ContentIndent, Body;
  }

  lemma LocateWith(lines: seq<string>, crLf: bool, at: nat, keyIndent: string, end: nat)
    requires HeaderFrom(lines, 0) == Some((at, keyIndent)) && EndFrom(lines, at + 1, |keyIndent|) == end
    ensures at < end <= |lines|
    ensures Locate(lines, crLf) == Some(LocateIn(lines, at, keyIndent, end, crLf))
  {
    hide HeaderFrom, EndFrom, LocateIn;
  }

  lemma CutBody(lines: seq<string>, at: nat, keyIndent: string, end: nat, crLf: bool) returns (parts: Parts)
    requires at < end <= |lines|
    ensures parts == Parts(at, keyIndent, lines[..at + 1], parts.p, parts.block, parts.q, lines[end..])
    ensures parts.p + (parts.block + parts.q) == lines[at + 1..end]
    ensures Scan(Marks(parts.p), 0, None) == NoSpan
    ensures if parts.block == [] then parts.q == [] else CompleteBlock(parts.block)
    ensures LocateIn(lines, at, keyIndent, end, crLf)
            == Place(parts.head + parts.p, parts.q + parts.tail,
                     ContentIndent(lines[at + 1..end], keyIndent + "  "), if crLf then "\r\n" else "\n")
  {
    hide *;
    var body := lines[at + 1..end];
    var p, block, q := BodyParts(body);
    parts := Parts(at, keyIndent, lines[..at + 1], p, block, q, lines[end..]);
    match Scan(Marks(body), 0, None)
    case Span(start, stop) =>
      LocateInFound(lines, at, keyIndent, end, crLf, body, start, stop);
      CutFound(lines, at, end, start, stop);
    case NoSpan =>
      LocateInNone(lines, at, keyIndent, end, crLf, body);
      CutWhole(lines, at, end);
  }

  lemma PartsMade(parts: Parts, lines: seq<string>, end: nat)
    requires parts.at < end <= |lines|
    requires parts.head == lines[..parts.at + 1] && Body(parts) == lines[parts.at + 1..end]
    requires parts.tail == lines[end..]
    requires HeaderFrom(lines, 0) == Some((parts.at, parts.keyIndent))
    requires EndFrom(lines, parts.at + 1, |parts.keyIndent|) == end
    requires Scan(Marks(parts.p), 0, None) == NoSpan
    requires if parts.block == [] then parts.q == [] else CompleteBlock(parts.block)
    ensures WellParted(parts) && Whole(parts) == lines
  {
    hide KeyIndent, Ends, Scan, Marks, HeaderFrom, EndFrom, Inside, Body, Whole, BlanksOnly, CompleteBlock;
    WholeMade(parts, lines, end);
    HeaderIndentBlank(lines, 0);
    EndExact(lines, parts.at + 1, |parts.keyIndent|);
  }

  lemma WholeMade(parts: Parts, lines: seq<string>, end: nat)
    requires parts.at < end <= |lines|
    requires parts.head == lines[..parts.at + 1] && Body(parts) == lines[parts.at + 1..end]
    requires parts.tail == lines[end..]
    ensures Whole(parts) == lines && |parts.head| == parts.at + 1
    ensures parts.tail != [] ==> end < |lines| && parts.tail[0] == lines[end]
  {
    hide Body;
    CutLines(lines, parts.at, end);
  }

  lemma BodyShape(parts: Parts)
    ensures Body(parts) == parts.p + (parts.block + parts.q)
  {
  }

  lemma LocateFinds(lines: seq<string>, crLf: bool)
    requires Locate(lines, crLf).Some?
    ensures HeaderFrom(lines, 0).Some?
  {
    hide HeaderFrom, EndFrom, LocateIn;
  }

  /** Locating a place takes the text apart like this. */
  lemma Anatomy(lines: seq<string>, crLf: bool) returns (parts: Parts)
    requires Locate(lines, crLf).Some?
    ensures WellParted(parts) && Whole(parts) == lines
    ensures Locate(lines, crLf) == Some(PlaceOf(parts, crLf))
  {
    hide *;
    LocateFinds(lines, crLf);
    var (at, keyIndent) := HeaderFrom(lines, 0).value;
    var end := EndFrom(lines, at + 1, |keyIndent|);
    LocateWith(lines, crLf, at, keyIndent, end);
    parts := CutBody(lines, at, keyIndent, end, crLf);
    BodyShape(parts);
    PartsMade(parts, lines, end);
    PlaceShape(parts, crLf);
  }

  lemma BodyAt(parts: Parts)
    requires |parts.head| == parts.at + 1
    ensures var lines, end := Whole(parts), |parts.head| + |Body(parts)|;
            && lines[parts.at + 1..end] == Body(parts)
            && lines[end..] == parts.tail
            && lines[..parts.at + 1] == parts.head
            && lines[..|parts.head| + |parts.p|] == parts.head + parts.p
            && lines[|parts.head| + |parts.p| + |parts.block|..] == parts.q + parts.tail
            && parts.at < end <= |lines|
            && (parts.tail != [] ==> end < |lines| && lines[end] == parts.tail[0])
  {
    assert Whole(parts) == parts.head + parts.p + parts.block + (parts.q + parts.tail);
    assert Whole(parts) == parts.head + parts.p + (parts.block + parts.q + parts.tail);
  }

  lemma ScanBody(parts: Parts, n: nat)
    requires Scan(Marks(parts.p), 0, None) == NoSpan && Marks(parts.block) == BlockMarks(n)
    ensures Scan(Marks(Body(parts)), 0, None) == Span(|parts.p|, |parts.p| + |parts.block|)
  {
    hide Scan, MarkOf;
    ScanFinds(Marks(parts.p), n, Marks(parts.q));
    MarksOfParts(parts.p, parts.block, parts.q);
  }

  lemma LocateInParts(parts: Parts, crLf: bool, n: nat)
    requires |parts.head| == parts.at + 1
    requires Scan(Marks(parts.p), 0, None) == NoSpan && Marks(parts.block) == BlockMarks(n)
    ensures |parts.head| + |Body(parts)| <= |Whole(parts)|
    ensures LocateIn(Whole(parts), parts.at, parts.keyIndent, |parts.head| + |Body(parts)|, crLf)
            == PlaceOf(parts, crLf)
  {
    hide *;
    BodyAt(parts);
    ScanBody(parts, n);
    PlaceShape(parts, crLf);
    LocateInFound(Whole(parts), parts.at, parts.keyIndent, |parts.head| + |Body(parts)|, crLf,
                  Body(parts), |parts.p|, |parts.p| + |parts.block|);
  }

  lemma EndOfParts(parts: Parts)
    requires WellParted(parts)
    ensures EndFrom(Whole(parts), parts.at + 1, |parts.keyIndent|) == |parts.head| + |Body(parts)|
  {
    BodyAt(parts);
    hide Ends, Scan, Marks, HeaderFrom, EndFrom, Inside, BlanksOnly, Whole, Body;
    EndIs(Whole(parts), parts.at + 1, |parts.head| + |Body(parts)|, |parts.keyIndent|);
  }

  lemma Parted(parts: Parts)
    requires WellParted(parts)
    ensures HeaderFrom(Whole(parts), 0) == Some((parts.at, parts.keyIndent))
    ensures |parts.head| == parts.at + 1 && Scan(Marks(parts.p), 0, None) == NoSpan
    ensures if parts.block == [] then parts.q == [] else CompleteBlock(parts.block)
  {
    hide HeaderFrom, Whole, Scan, Marks;
  }

  /** Text put together from parts with a complete block comes apart into the same parts. */
  lemma LocateParts(parts: Parts, crLf: bool, n: nat)
    requires WellParted(parts) && Marks(parts.block) == BlockMarks(n)
    ensures Locate(Whole(parts), crLf) == Some(PlaceOf(parts, crLf))
  {
    hide *;
    Parted(parts);
    EndOfParts(parts);
    LocateWith(Whole(parts), crLf, parts.at, parts.keyIndent, |parts.head| + |Body(parts)|);
    LocateInParts(parts, crLf, n);
  }

  /** The new block goes where the next edit will find it. */
  lemma NewParts(parts: Parts, crLf: bool, guidelines: seq<string>) returns (again: Parts)
    requires WellParted(parts)
    ensures WellParted(again)
    ensures again.block == Block(PlaceOf(parts, crLf).indent, guidelines, PlaceOf(parts, crLf).newline)
    ensures again == parts.(block := again.block)
    ensures PlaceOf(again, crLf) == PlaceOf(parts, crLf)
    ensures BlanksOnly(PlaceOf(parts, crLf).indent) && IsNewline(PlaceOf(parts, crLf).newline)
  {
    var place, width := PlaceOf(parts, crLf), |parts.keyIndent|;
    var block := Block(place.indent, guidelines, place.newline);
    again := parts.(block := block);
    hide KeyIndent, Ends, Scan, Marks, ContentIndent, HeaderFrom, EndFrom, Block, Inside;
    ContentIndentWide(Body(parts), parts.keyIndent + "  ", width);
    BlockInside(place.indent, guidelines, place.newline, width);
    InsideParts(parts.p, parts.block + parts.q, width);
    InsideParts(parts.block, parts.q, width);
    InsideParts(block, parts.q, width);
    InsideParts(parts.p, block + parts.q, width);
    BodyAt(parts);
    BodyAt(again);
    HeaderKept(Whole(parts), Whole(again), 0, parts.at, parts.keyIndent);
    BlockLength(place.indent, guidelines, place.newline);
    BlockLines(place.indent, guidelines, place.newline, 0);
    SameContentIndent(parts.p, parts.block, parts.q, block, parts.keyIndent + "  ");
    NewBlockComplete(place.indent, guidelines, place.newline);
  }

  lemma WholeIsEdited(parts: Parts, place: Place, guidelines: seq<string>)
    requires place.before == parts.head + parts.p && place.after == parts.q + parts.tail
    requires parts.block == Block(place.indent, guidelines, place.newline)
    ensures Whole(parts) == Edited(place, guidelines)
  {
    hide Block;
  }

  /** In the edited lines the place is the one it was before. */
  lemma LocateAgain(lines: seq<string>, crLf: bool, guidelines: seq<string>)
    requires Locate(lines, crLf).Some?
    ensures Locate(Edited(Locate(lines, crLf).value, guidelines), crLf) == Locate(lines, crLf)
  {
    hide Locate, WellParted, Edited, Whole, Block, ContentIndent, BlanksOnly;
    var parts := Anatomy(lines, crLf);
    var place := PlaceOf(parts, crLf);
    var again := NewParts(parts, crLf, guidelines);
    MarksOfBlock(place.indent, guidelines, place.newline);
    LocateParts(again, crLf, |guidelines|);
    WholeIsEdited(again, place, guidelines);
  }

  // ---------------------------------------------------------------- from lines to text and back

  /** One whole line: its ending is at its end and nowhere else. */
  predicate IsLine(l: string) {
    l != "" && LineEnd(l) == |l| && IsLineBreak(l[|l| - 1])
  }

  /** The two do not run together into one line ending. */
  predicate Apart(l: string, next: string) {
    !(l != "" && next != "" && l[|l| - 1] == '\r' && next[0] == '\n')
  }

  predicate LinesOk(lines: seq<string>) {
    && (forall i :: 0 <= i < |lines| ==> IsLine(lines[i]))
    && (forall i :: 0 <= i < |lines| - 1 ==> Apart(lines[i], lines[i + 1]))
  }

  predicate EndsInBreak(s: string) {
    s != "" ==> IsLineBreak(s[|s| - 1])
  }

  lemma {:induction false} LineEndBefore(l: string, rest: string)
    requires IsLine(l) && Apart(l, rest)
    ensures LineEnd(l + rest) == |l|
  {
    if |l| > 1 && !IsLineBreak(l[0]) {
      assert (l + rest)[1..] == l[1..] + rest;
      LineEndBefore(l[1..], rest);
    }
  }

  lemma LinesOkTail(lines: seq<string>)
    requires LinesOk(lines) && lines != []
    ensures IsLine(lines[0]) && LinesOk(lines[1..])
    ensures |lines| > 1 ==> Apart(lines[0], lines[1])
  {
    hide IsLine, Apart;
    var rest := lines[1..];
    assert forall i :: 0 <= i < |rest| ==> rest[i] == lines[i + 1];
  }

  lemma ConcatFirst(lines: seq<string>)
    requires LinesOk(lines)
    ensures lines == [] <==> Concat(lines) == ""
    ensures lines != [] ==> lines[0] != "" && Concat(lines)[0] == lines[0][0]
  {
    if lines != [] {
      assert IsLine(lines[0]);
    }
  }

  /** Splitting the joined lines gives them back. */
  lemma {:induction false} KeepLinesOfConcat(lines: seq<string>)
    requires LinesOk(lines)
    ensures KeepLines(Concat(lines)) == lines
  {
    if lines != [] {
      LinesOkTail(lines);
      var l, rest := lines[0], Concat(lines[1..]);
      hide LinesOk, IsLine, Apart;
      KeepLinesOfConcat(lines[1..]);
      ConcatApart(lines);
      LineEndBefore(l, rest);
      FirstLineCut(l, rest);
      assert lines == [l] + lines[1..];
    }
  }

  lemma ConcatApart(lines: seq<string>)
    requires LinesOk(lines) && lines != []
    ensures Apart(lines[0], Concat(lines[1..]))
  {
    LinesOkTail(lines);
    ConcatFirst(lines[1..]);
  }

  lemma FirstLineCut(l: string, rest: string)
    requires l != "" && LineEnd(l + rest) == |l|
    ensures KeepLines(l + rest) == [l] + KeepLines(rest)
  {
    assert (l + rest)[..|l|] == l && (l + rest)[|l|..] == rest;
  }

  lemma {:induction false} LineEndSplits(s: string)
    requires s != "" && EndsInBreak(s)
    ensures var e := LineEnd(s); IsLine(s[..e]) && Apart(s[..e], s[e..]) && EndsInBreak(s[e..])
  {
    var e := LineEnd(s);
    if !IsLineBreak(s[0]) && |s| > 1 {
      LineEndSplits(s[1..]);
      assert s[..e][1..] == s[1..][..e - 1] && s[1..][e - 1..] == s[e..];
    }
  }

  lemma LinesOkCons(l: string, lines: seq<string>)
    requires IsLine(l) && LinesOk(lines) && (lines != [] ==> Apart(l, lines[0]))
    ensures LinesOk([l] + lines)
  {
    hide IsLine, Apart;
  }

  lemma ApartFirst(l: string, lines: seq<string>)
    requires LinesOk(lines) && lines != [] && Apart(l, Concat(lines))
    ensures Apart(l, lines[0])
  {
    ConcatFirst(lines);
  }

  lemma KeepLinesStep(s: string)
    requires s != ""
    ensures KeepLines(s) == [s[..LineEnd(s)]] + KeepLines(s[LineEnd(s)..])
  {
    hide LineEnd;
  }

  lemma ConcatStep(l: string, lines: seq<string>)
    ensures Concat([l] + lines) == l + Concat(lines)
  {
    assert ([l] + lines)[1..] == lines;
  }

  lemma CutText(s: string, e: nat)
    requires e <= |s|
    ensures s[..e] + s[e..] == s
  {
  }

  /** A text that ends in a line break is its lines. */
  lemma {:induction false} KeepLinesOk(s: string)
    requires EndsInBreak(s)
    ensures LinesOk(KeepLines(s)) && Concat(KeepLines(s)) == s
  {
    if s == "" {
      assert KeepLines(s) == [];
    } else {
      hide *;
      var e := LineEnd(s);
      var rest := KeepLines(s[e..]);
      LineEndSplits(s);
      KeepLinesOk(s[e..]);
      if rest != [] {
        ApartFirst(s[..e], rest);
      }
      LinesOkCons(s[..e], rest);
      KeepLinesStep(s);
      ConcatStep(s[..e], rest);
      CutText(s, e);
    }
  }

  lemma LinesOkParts(a: seq<string>, b: seq<string>)
    requires LinesOk(a + b)
    ensures LinesOk(a) && LinesOk(b)
  {
    hide IsLine, Apart;
    assert forall i :: 0 <= i < |a| ==> (a + b)[i] == a[i];
    assert forall i :: 0 <= i < |b| ==> (a + b)[|a| + i] == b[i];
  }

  lemma LinesOkJoin(a: seq<string>, b: seq<string>)
    requires LinesOk(a) && LinesOk(b)
    requires a != [] && b != [] ==> Apart(a[|a| - 1], b[0])
    ensures LinesOk(a + b)
  {
    hide IsLine, Apart;
  }

  // ---------------------------------------------------------------- the written lines

  lemma {:induction false} LineEndOf(body: string, newline: string)
    requires OneLine(body) && IsNewline(newline)
    ensures IsLine(body + newline)
  {
    var l := body + newline;
    if body == "" {
      assert l == newline;
    } else {
      assert l[1..] == body[1..] + newline;
      LineEndOf(body[1..], newline);
    }
  }

  lemma BlanksOneLine(indent: string)
    requires BlanksOnly(indent)
    ensures OneLine(indent)
  {
  }

  lemma {:induction false} OneLineJoin(a: string, b: string)
    requires OneLine(a) && OneLine(b)
    ensures OneLine(a + b)
  {
    hide IsLineBreak;
  }

  lemma MarkersOneLine()
    ensures OneLine(BLOCK_START) && OneLine(BLOCK_END) && OneLine("# - ")
  {
    StartOneLine();
    EndOneLine();
  }

  lemma StartOneLine()
    ensures OneLine(BLOCK_START)
  {
    StartHalf();
    assert OneLine("# --- fabri: learned from prior runs (auto-");
  }

  lemma StartHalf()
    ensures OneLine("# --- fabri: learned from prior runs")
  {
    assert OneLine("# --- fabri:");
    assert OneLine("# --- fabri: learned from");
  }

  lemma EndOneLine()
    ensures OneLine(BLOCK_END)
  {
  }

  /** Each line of the block is its indentation, visible text and the line ending. */
  lemma BlockLine(indent: string, guidelines: seq<string>, newline: string, i: nat) returns (text: string)
    requires BlanksOnly(indent) && OneLiners(guidelines) && i < |guidelines| + 2
    ensures Block(indent, guidelines, newline)[i] == (indent + text) + newline
    ensures OneLine(indent + text)
  {
    MarkersOneLine();
    BlanksOneLine(indent);
    var line := Block(indent, guidelines, newline)[i];
    hide OneLine, BlanksOnly;
    if i == 0 {
      text := BLOCK_START;
    } else if i == |guidelines| + 1 {
      text := BLOCK_END;
    } else {
      text := "# - " + guidelines[i - 1];
      OneLineJoin("# - ", guidelines[i - 1]);
      assert line == indent + "# - " + guidelines[i - 1] + newline == (indent + text) + newline;
    }
    OneLineJoin(indent, text);
  }

  lemma NewlineLast(body: string, newline: string)
    requires IsNewline(newline)
    ensures var l := body + newline; l != "" && l[|l| - 1] == '\n'
    ensures newline == "\r\n" ==> HasCrLf(body + newline)
    ensures newline == "\n" && OneLine(body) ==> !HasCrLf(body + newline)
  {
    var l := body + newline;
    if newline == "\r\n" {
      assert l[|body|] == '\r' && l[|body| + 1] == '\n';
    }
  }

  lemma BlockOk(indent: string, guidelines: seq<string>, newline: string)
    requires BlanksOnly(indent) && indent != "" && OneLiners(guidelines) && IsNewline(newline)
    ensures var block := Block(indent, guidelines, newline);
            && LinesOk(block)
            && |block| == |guidelines| + 2
            && (forall i :: 0 <= i < |block| ==>
                  block[i] != "" && block[i][0] != '\n' && block[i][|block[i]| - 1] == '\n')
            && (forall i :: 0 <= i < |block| ==> HasCrLf(block[i]) == (newline == "\r\n"))
  {
    var block := Block(indent, guidelines, newline);
    BlockLength(indent, guidelines, newline);
    assert indent[0] != '\n';
    hide *;
    forall i | 0 <= i < |block|
      ensures IsLine(block[i]) && block[i] != "" && block[i][0] != '\n' && block[i][|block[i]| - 1] == '\n'
      ensures HasCrLf(block[i]) == (newline == "\r\n")
    {
      var text := BlockLine(indent, guidelines, newline, i);
      LineEndOf(indent + text, newline);
      NewlineLast(indent + text, newline);
      NewlineIs(newline);
      assert block[i][0] == indent[0];
    }
    EndedLines(block);
  }

  lemma NewlineIs(newline: string)
    requires IsNewline(newline)
    ensures newline == "\r\n" || newline == "\n"
  {
  }

  lemma EndedLines(lines: seq<string>)
    requires forall i :: 0 <= i < |lines| ==> IsLine(lines[i])
    requires forall i :: 0 <= i < |lines| ==> lines[i] != "" && lines[i][|lines[i]| - 1] == '\n'
    ensures LinesOk(lines)
  {
    hide IsLine;
  }

  // ---------------------------------------------------------------- line endings of the whole text

  predicate AnyCrLf(lines: seq<string>) {
    exists i :: 0 <= i < |lines| && HasCrLf(lines[i])
  }

  lemma CrLfJoin(a: string, b: string)
    requires Apart(a, b)
    ensures HasCrLf(a + b) <==> HasCrLf(a) || HasCrLf(b)
  {
    var s := a + b;
    if HasCrLf(a) {
      var i :| 0 <= i < |a| - 1 && a[i] == '\r' && a[i + 1] == '\n';
      assert s[i] == '\r' && s[i + 1] == '\n';
    }
    if HasCrLf(b) {
      var i :| 0 <= i < |b| - 1 && b[i] == '\r' && b[i + 1] == '\n';
      assert s[|a| + i] == '\r' && s[|a| + i + 1] == '\n';
    }
    if HasCrLf(s) {
      var i :| 0 <= i < |s| - 1 && s[i] == '\r' && s[i + 1] == '\n';
      if i + 1 < |a| {
        assert a[i] == '\r' && a[i + 1] == '\n';
      } else if i >= |a| {
        assert b[i - |a|] == '\r' && b[i - |a| + 1] == '\n';
      }
    }
  }

  lemma AnyCrLfCons(l: string, lines: seq<string>)
    ensures AnyCrLf([l] + lines) <==> HasCrLf(l) || AnyCrLf(lines)
  {
    hide HasCrLf;
    if AnyCrLf(lines) {
      var i :| 0 <= i < |lines| && HasCrLf(lines[i]);
      assert ([l] + lines)[i + 1] == lines[i];
    }
    assert ([l] + lines)[0] == l;
  }

  lemma AnyCrLfJoin(a: seq<string>, b: seq<string>)
    ensures AnyCrLf(a + b) <==> AnyCrLf(a) || AnyCrLf(b)
  {
    hide HasCrLf;
    if AnyCrLf(a) {
      var i :| 0 <= i < |a| && HasCrLf(a[i]);
      assert (a + b)[i] == a[i];
    }
    if AnyCrLf(b) {
      var i :| 0 <= i < |b| && HasCrLf(b[i]);
      assert (a + b)[|a| + i] == b[i];
    }
  }

  lemma {:induction false} CrLfOfConcat(lines: seq<string>)
    requires LinesOk(lines)
    ensures HasCrLf(Concat(lines)) <==> AnyCrLf(lines)
  {
    if lines != [] {
      LinesOkTail(lines);
      hide LinesOk, Apart, AnyCrLf, HasCrLf;
      ConcatApart(lines);
      CrLfOfConcat(lines[1..]);
      CrLfJoin(lines[0], Concat(lines[1..]));
      assert lines == [lines[0]] + lines[1..];
      AnyCrLfCons(lines[0], lines[1..]);
    }
  }

  // ---------------------------------------------------------------- the edit's laws

  lemma IndentWide(parts: Parts, crLf: bool)
    requires WellParted(parts)
    ensures var place := PlaceOf(parts, crLf);
            BlanksOnly(place.indent) && place.indent != "" && IsNewline(place.newline)
            && (place.newline == "\r\n") == crLf
  {
    hide KeyIndent, Ends, Scan, Marks, ContentIndent, HeaderFrom, Whole, Body, Inside;
    ContentIndentWide(Body(parts), parts.keyIndent + "  ", |parts.keyIndent|);
  }

  lemma JunctionsOk(before: seq<string>, block: seq<string>, after: seq<string>)
    requires LinesOk(before) && LinesOk(block) && LinesOk(after) && block != []
    requires block[0] != "" && block[0][0] != '\n'
    requires block[|block| - 1] != "" && block[|block| - 1][|block[|block| - 1]| - 1] == '\n'
    ensures LinesOk(before + block + after)
  {
    hide LinesOk;
    LinesOkJoin(before, block);
    LinesOkJoin(before + block, after);
  }

  lemma PartsAsSum(parts: Parts)
    ensures Whole(parts) == (parts.head + parts.p) + (parts.block + (parts.q + parts.tail))
  {
  }

  /** The edited lines are lines of a text with the same kind of line ending. */
  lemma EditedOk(lines: seq<string>, crLf: bool, guidelines: seq<string>)
    requires Locate(lines, crLf).Some? && LinesOk(lines) && AnyCrLf(lines) == crLf && OneLiners(guidelines)
    ensures var edited := Edited(Locate(lines, crLf).value, guidelines);
            LinesOk(edited) && AnyCrLf(edited) == crLf
  {
    hide *;
    var parts := Anatomy(lines, crLf);
    var place := PlaceOf(parts, crLf);
    var before, after := parts.head + parts.p, parts.q + parts.tail;
    PlaceShape(parts, crLf);
    IndentWide(parts, crLf);
    PartsAsSum(parts);
    LinesOkParts(before, parts.block + after);
    LinesOkParts(parts.block, after);
    AnyCrLfJoin(before, parts.block + after);
    AnyCrLfJoin(parts.block, after);
    var block := Block(place.indent, guidelines, place.newline);
    BlockOk(place.indent, guidelines, place.newline);
    AllCrLf(block, crLf);
    JunctionsOk(before, block, after);
    AnyCrLfJoin(before, block);
    AnyCrLfJoin(before + block, after);
    EditedIs(place, guidelines);
  }

  lemma AllCrLf(block: seq<string>, crLf: bool)
    requires block != [] && forall i :: 0 <= i < |block| ==> HasCrLf(block[i]) == crLf
    ensures AnyCrLf(block) == crLf
  {
    hide HasCrLf;
    assert HasCrLf(block[0]) == crLf;
  }

  lemma ApplyIs(text: string, guidelines: seq<string>)
    ensures Locate(KeepLines(text), HasCrLf(text)).None? ==> Apply(text, guidelines) == Err(NoBlockScalar)
    ensures Locate(KeepLines(text), HasCrLf(text)).Some?
            ==> Apply(text, guidelines)
                == Ok(Concat(Edited(Locate(KeepLines(text), HasCrLf(text)).value, guidelines)))
  {
    hide Locate, KeepLines, HasCrLf, Concat, Edited;
  }

  /** What the edited text is when it is read again: the edited lines, and the same place in them. */
  lemma ReadAgain(text: string, guidelines: seq<string>)
    requires EndsInBreak(text) && OneLiners(guidelines)
    requires Locate(KeepLines(text), HasCrLf(text)).Some?
    ensures var place := Locate(KeepLines(text), HasCrLf(text)).value;
            var edited := Concat(Edited(place, guidelines));
            && KeepLines(edited) == Edited(place, guidelines)
            && Locate(KeepLines(edited), HasCrLf(edited)) == Some(place)
  {
    hide *;
    var lines, crLf := KeepLines(text), HasCrLf(text);
    KeepLinesOk(text);
    CrLfOfConcat(lines);
    EditedOk(lines, crLf, guidelines);
    var edited := Edited(Locate(lines, crLf).value, guidelines);
    KeepLinesOfConcat(edited);
    CrLfOfConcat(edited);
    LocateAgain(lines, crLf, guidelines);
  }

  /** A later edit absorbs an earlier one: the text is as if only the later one had been made. Whether
      there is a place to edit does not depend on the guidelines. */
  lemma Absorbing(text: string, first: seq<string>, second: seq<string>)
    requires EndsInBreak(text) && OneLiners(first)
    ensures Apply(text, first).Ok? <==> Apply(text, second).Ok?
    ensures Apply(text, first).Ok? ==> Apply(Apply(text, first).value, second) == Apply(text, second)
  {
    hide *;
    ApplyIs(text, first);
    ApplyIs(text, second);
    if Locate(KeepLines(text), HasCrLf(text)).Some? {
      ReadAgain(text, first);
      ApplyIs(Apply(text, first).value, second);
    }
  }

  /** Making the same edit twice is making it once. */
  lemma ReapplyIsNoOp(text: string, guidelines: seq<string>)
    requires EndsInBreak(text) && OneLiners(guidelines) && Apply(text, guidelines).Ok?
    ensures Apply(Apply(text, guidelines).value, guidelines) == Apply(text, guidelines)
  {
    Absorbing(text, guidelines, guidelines);
  }

  /** The edit replaces one complete block, or inserts one, inside the scalar; every other line stays as
      it is, in order. */
  lemma Framed(text: string, guidelines: seq<string>)
    returns (parts: Parts, indent: string, newline: string)
    requires EndsInBreak(text) && OneLiners(guidelines) && Apply(text, guidelines).Ok?
    ensures WellParted(parts)
    ensures KeepLines(text) == (parts.head + parts.p) + (parts.block + (parts.q + parts.tail))
    ensures KeepLines(Apply(text, guidelines).value)
            == (parts.head + parts.p) + (Block(indent, guidelines, newline) + (parts.q + parts.tail))
    ensures if parts.block == [] then parts.q == [] else CompleteBlock(parts.block)
  {
    hide *;
    ApplyIs(text, guidelines);
    ReadAgain(text, guidelines);
    var lines, crLf := KeepLines(text), HasCrLf(text);
    parts := Anatomy(lines, crLf);
    PartsAsSum(parts);
    Parted(parts);
    PlaceShape(parts, crLf);
    var place := PlaceOf(parts, crLf);
    indent, newline := place.indent, place.newline;
    EditedIs(place, guidelines);
    assert place.before + Block(indent, guidelines, newline) + place.after
           == place.before + (Block(indent, guidelines, newline) + place.after);
  }
}
