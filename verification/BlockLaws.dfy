/** Where the learned block goes and what it says, told from the lines of the text. */
module BlockLaws {
  import opened Options
  import opened Text
  import opened LearnedBlock

  predicate AllSpace(s: string) {
    forall c :: c in s ==> IsSpace(c)
  }

  // ---------------------------------------------------------------- the header

  /** `system_prompt:` and a literal or folded block mark, with a chomping sign or none, and a comment or none. */
  predicate HeaderParts(line: string, indent: string, gap: string, mark: char, sign: string, space: string,
                        comment: string)
  {
    && line == indent + ("system_prompt:" + (gap + ([mark] + (sign + (space + comment)))))
    && BlanksOnly(indent) && AllSpace(gap) && (mark == '|' || mark == '>')
    && (sign == "" || sign == "+" || sign == "-")
    && AllSpace(space) && (comment == "" || comment[0] == '#')
  }

  ghost predicate IsHeader(line: string, indent: string) {
    exists gap, mark, sign, space, comment :: HeaderParts(line, indent, gap, mark, sign, space, comment)
  }

  lemma {:induction false} LStripCut(s: string) returns (i: nat)
    ensures i <= |s| && LStrip(s) == s[i..] && AllSpace(s[..i])
  {
    hide IsSpace;
    if s != "" && IsSpace(s[0]) {
      var k := LStripCut(s[1..]);
      i := k + 1;
      assert s[..i] == [s[0]] + s[1..][..k] && s[1..][k..] == s[i..];
    } else {
      i := 0;
    }
  }

  lemma {:induction false} LStripBefore(before: string, s: string)
    requires AllSpace(before) && (s != "" ==> !IsSpace(s[0]))
    ensures LStrip(before + s) == s
  {
    hide IsSpace;
    if before == "" {
      assert before + s == s;
    } else {
      assert before[0] in before && (before + s)[1..] == before[1..] + s;
      assert forall c :: c in before[1..] ==> c in before;
      LStripBefore(before[1..], s);
    }
  }

  /** A value that goes on from its mark: a sign or none, then white space and a comment or nothing. */
  predicate MarkedValue(value: string, mark: char, sign: string, plain: string) {
    && value == [mark] + (sign + plain) && (mark == '|' || mark == '>')
    && (sign == "" || sign == "+" || sign == "-")
    && (sign == "" && plain != "" ==> plain[0] != '+' && plain[0] != '-')
  }

  /** The decisions on what follows the key, as far as the comment. */
  predicate Opens(value: string) {
    && value != "" && (value[0] == '>' || value[0] == '|')
    && var signed := value[1..];
       var plain := if signed != "" && (signed[0] == '+' || signed[0] == '-') then signed[1..] else signed;
       var comment := LStrip(plain);
       comment == "" || comment[0] == '#'
  }

  lemma KeyIndentIs(line: string)
    ensures var indent := IndentOf(line);
            && indent <= line
            && var rest := line[|indent|..];
               KeyIndent(line) == if KEY <= rest && Opens(LStrip(rest[|KEY|..])) then Some(indent) else None
  {
    hide IndentOf, LStrip;
  }

  lemma MarkCut(value: string) returns (mark: char, sign: string, plain: string)
    requires Opens(value)
    ensures MarkedValue(value, mark, sign, plain)
    ensures LStrip(plain) == "" || LStrip(plain)[0] == '#'
  {
    hide LStrip;
    mark := value[0];
    var signed := value[1..];
    sign := if signed != "" && (signed[0] == '+' || signed[0] == '-') then signed[..1] else "";
    plain := signed[|sign|..];
    assert value == [mark] + signed && signed == sign + plain;
  }

  lemma MarkOpens(value: string, mark: char, sign: string, plain: string)
    requires MarkedValue(value, mark, sign, plain) && (LStrip(plain) == "" || LStrip(plain)[0] == '#')
    ensures Opens(value)
  {
    hide LStrip;
    var signed := value[1..];
    assert signed == sign + plain;
    assert sign == "" ==> signed == plain;
    assert sign != "" ==> signed[1..] == plain;
  }

  lemma Cut(s: string, i: nat)
    requires i <= |s|
    ensures s == s[..i] + s[i..]
  {
  }

  lemma HeaderFound(line: string, indent: string)
    requires KeyIndent(line) == Some(indent)
    ensures IsHeader(line, indent)
  {
    KeyIndentIs(line);
    IndentBlank(line);
    hide *;
    var rest := line[|indent|..];
    var tail := rest[|KEY|..];
    Cut(line, |indent|);
    Cut(rest, |KEY|);
    var i := LStripCut(tail);
    Cut(tail, i);
    var mark, sign, plain := MarkCut(tail[i..]);
    var j := LStripCut(plain);
    Cut(plain, j);
    HeaderMade(line, indent, tail, i, mark, sign, plain, j);
  }

  lemma HeaderMade(line: string, indent: string, tail: string, i: nat, mark: char, sign: string, plain: string, j: nat)
    requires i <= |tail| && j <= |plain| && BlanksOnly(indent)
    requires line == indent + (KEY + tail) && tail == tail[..i] + tail[i..] && AllSpace(tail[..i])
    requires MarkedValue(tail[i..], mark, sign, plain)
    requires plain == plain[..j] + plain[j..] && AllSpace(plain[..j])
    requires plain[j..] == "" || plain[j..][0] == '#'
    ensures IsHeader(line, indent)
  {
    hide AllSpace, BlanksOnly;
    assert HeaderParts(line, indent, tail[..i], mark, sign, plain[..j], plain[j..]);
  }

  lemma HeaderMatches(line: string, indent: string, gap: string, mark: char, sign: string, space: string,
                      comment: string)
    requires HeaderParts(line, indent, gap, mark, sign, space, comment)
    ensures KeyIndent(line) == Some(indent)
  {
    var plain := space + comment;
    var value := [mark] + (sign + plain);
    PlainStart(space, comment);
    CommentStart(comment);
    LStripBefore(space, comment);
    LStripBefore(gap, value);
    KeyStart(indent, gap + value);
    MarkOpens(value, mark, sign, plain);
    KeyIndentIs(line);
    hide LStrip, IndentOf, AllSpace, BlanksOnly, KeyIndent, Opens, MarkedValue;
  }

  lemma CommentStart(comment: string)
    requires comment == "" || comment[0] == '#'
    ensures comment != "" ==> !IsSpace(comment[0])
    ensures !IsSpace('|') && !IsSpace('>')
  {
  }

  lemma KeyStart(indent: string, tail: string)
    requires BlanksOnly(indent)
    ensures var line := indent + (KEY + tail);
            && IndentOf(line) == indent && line[|indent|..] == KEY + tail
            && KEY <= KEY + tail && (KEY + tail)[|KEY|..] == tail
  {
    IndentOfIndented(indent, KEY + tail);
    hide IndentOf, BlanksOnly;
    assert (indent + (KEY + tail))[|indent|..] == KEY + tail;
  }

  lemma PlainStart(space: string, comment: string)
    requires AllSpace(space) && (comment == "" || comment[0] == '#')
    ensures var plain := space + comment; plain == "" || (plain[0] != '+' && plain[0] != '-')
  {
    if space != "" {
      assert space[0] in space;
    }
  }

  /** A header line, and nothing else, opens the scalar. */
  lemma KeyIndentExactly(line: string, indent: string)
    ensures KeyIndent(line) == Some(indent) <==> IsHeader(line, indent)
  {
    hide KeyIndent, HeaderParts;
    if KeyIndent(line) == Some(indent) {
      HeaderFound(line, indent);
    }
    if IsHeader(line, indent) {
      var gap, mark, sign, space, comment :| HeaderParts(line, indent, gap, mark, sign, space, comment);
      HeaderMatches(line, indent, gap, mark, sign, space, comment);
    }
  }

  // ---------------------------------------------------------------- an earlier block

  /** The first end marker that has a start marker before it, and the last such start marker. */
  predicate BlockIn(marks: seq<Mark>, start: nat, stop: nat) {
    && start + 1 < stop <= |marks| && marks[start] == StartMark && marks[stop - 1] == EndMark
    && (forall i :: start < i < stop - 1 ==> marks[i] != StartMark)
    && NoPair(marks, stop - 1)
  }

  /** No end marker before `n` has a start marker before it. */
  predicate NoPair(marks: seq<Mark>, n: nat)
    requires n <= |marks|
  {
    forall i, j :: 0 <= i < j < n && marks[i] == StartMark ==> marks[j] != EndMark
  }

  /** The last start marker before `n`. */
  predicate LastStart(marks: seq<Mark>, n: nat, start: Option<nat>)
    requires n <= |marks|
  {
    match start
    case None => forall i :: 0 <= i < n ==> marks[i] != StartMark
    case Some(s) => s < n && marks[s] == StartMark && forall i :: s < i < n ==> marks[i] != StartMark
  }

  lemma {:induction false} ScanIs(marks: seq<Mark>, i: nat, start: Option<nat>)
    requires i <= |marks| && LastStart(marks, i, start) && NoPair(marks, i)
    ensures match Scan(marks, i, start)
            case Span(s, e) => BlockIn(marks, s, e)
            case NoSpan => NoPair(marks, |marks|)
    decreases |marks| - i
  {
    if i < |marks| {
      if marks[i] == StartMark {
        ScanIs(marks, i + 1, Some(i));
      } else if start.None? || marks[i] != EndMark {
        ScanIs(marks, i + 1, start);
      }
    }
  }

  lemma OneBlock(marks: seq<Mark>, a: nat, b: nat, c: nat, d: nat)
    requires BlockIn(marks, a, b) && BlockIn(marks, c, d)
    ensures a == c && b == d
  {
  }

  /** The scan finds exactly that block. */
  lemma ScanExactly(marks: seq<Mark>, start: nat, stop: nat)
    ensures Scan(marks, 0, None) == Span(start, stop) <==> BlockIn(marks, start, stop)
    ensures Scan(marks, 0, None) == NoSpan <==> NoPair(marks, |marks|)
  {
    ScanIs(marks, 0, None);
    hide Scan;
    if BlockIn(marks, start, stop) {
      assert !NoPair(marks, |marks|) by {
        assert marks[start] == StartMark && marks[stop - 1] == EndMark;
      }
      if Scan(marks, 0, None).Span? {
        OneBlock(marks, start, stop, Scan(marks, 0, None).start, Scan(marks, 0, None).stop);
      }
    }
    if Scan(marks, 0, None).Span? {
      var s, e := Scan(marks, 0, None).start, Scan(marks, 0, None).stop;
      assert marks[s] == StartMark && marks[e - 1] == EndMark;
    }
  }

  // ---------------------------------------------------------------- the whole edit

  /** The line has content, and at most `width` blanks and tabs in front of it. */
  predicate Shallow(line: string, width: nat) {
    && (exists c :: c in line && !IsSpace(c))
    && exists k :: 0 <= k <= width && k < |line| && BlanksOnly(line[..k]) && line[k] != ' ' && line[k] != '\t'
  }

  lemma {:induction false} IndentCut(line: string)
    ensures BlanksOnly(IndentOf(line))
    ensures |IndentOf(line)| < |line| ==> line[|IndentOf(line)|] != ' ' && line[|IndentOf(line)|] != '\t'
  {
    if line != "" && (line[0] == ' ' || line[0] == '\t') {
      IndentCut(line[1..]);
    }
  }

  lemma {:induction false} IndentLength(line: string, k: nat)
    requires k < |line| && BlanksOnly(line[..k]) && line[k] != ' ' && line[k] != '\t'
    ensures IndentOf(line) == line[..k]
  {
    if k > 0 {
      assert line[0] == line[..k][0];
      assert line[1..][..k - 1] == line[..k][1..];
      IndentLength(line[1..], k - 1);
    }
  }

  lemma ShallowIs(line: string, width: nat)
    ensures Ends(line, width) <==> Shallow(line, width)
  {
    StripBlank(line);
    IndentCut(line);
    var n := |IndentOf(line)|;
    hide Strip, IndentOf, IsSpace;
    assert IndentOf(line) == line[..n];
    if Ends(line, width) {
      AllBlank(line);
    }
    if Shallow(line, width) {
      var k :| 0 <= k <= width && k < |line| && BlanksOnly(line[..k]) && line[k] != ' ' && line[k] != '\t';
      IndentLength(line, k);
    }
  }

  lemma AllBlank(line: string)
    ensures IndentOf(line) == line ==> forall c :: c in line ==> IsSpace(c)
  {
    IndentCut(line);
    hide IndentOf;
  }

  /** The scalar: its key on line `at`, the first such line, and its end before the first shallow line after. */
  ghost predicate IsScalar(lines: seq<string>, at: nat, keyIndent: string, end: nat) {
    && at < end <= |lines| && IsHeader(lines[at], keyIndent)
    && (forall i, indent :: 0 <= i < at ==> !IsHeader(lines[i], indent))
    && (forall i :: at < i < end ==> !Shallow(lines[i], |keyIndent|))
    && (end < |lines| ==> Shallow(lines[end], |keyIndent|))
  }

  lemma {:induction false} HeaderIs(lines: seq<string>, i: nat)
    requires i <= |lines|
    ensures HeaderFrom(lines, i).None? <==> forall j, indent :: i <= j < |lines| ==> !IsHeader(lines[j], indent)
    ensures HeaderFrom(lines, i).Some?
            ==> var (at, keyIndent) := HeaderFrom(lines, i).value;
                && IsHeader(lines[at], keyIndent)
                && forall j, indent :: i <= j < at ==> !IsHeader(lines[j], indent)
    decreases |lines| - i
  {
    hide KeyIndent, IsHeader;
    if i < |lines| {
      forall indent: string ensures KeyIndent(lines[i]) == Some(indent) <==> IsHeader(lines[i], indent) {
        KeyIndentExactly(lines[i], indent);
      }
      HeaderIs(lines, i + 1);
    }
  }

  lemma EndIs(lines: seq<string>, at: nat, width: nat)
    requires at < |lines|
    ensures var end := EndFrom(lines, at + 1, width);
            && (forall i :: at < i < end ==> !Shallow(lines[i], width))
            && (end < |lines| ==> Shallow(lines[end], width))
  {
    var end := EndFrom(lines, at + 1, width);
    EndExact(lines, at + 1, width);
    hide EndFrom, Ends, Shallow;
    forall i | at < i < end ensures !Shallow(lines[i], width) {
      assert lines[at + 1..end][i - at - 1] == lines[i];
      ShallowIs(lines[i], width);
    }
    if end < |lines| {
      ShallowIs(lines[end], width);
    }
  }

  predicate StartLine(line: string) {
    Strip(line) == "# --- fabri: learned from prior runs (auto-proposed) ---"
  }

  predicate EndLine(line: string) {
    Strip(line) == "# --- end fabri ---"
  }

  /** The block of an earlier edit: it ends with the first end line that has a start line before it, and starts
      with the last such start line. */
  predicate OldBlock(lines: seq<string>, at: nat, end: nat, start: nat, stop: nat) {
    && at < start && start + 1 < stop <= end <= |lines|
    && StartLine(lines[start]) && EndLine(lines[stop - 1])
    && (forall i :: start < i < stop - 1 ==> !StartLine(lines[i]))
    && forall i, j :: at < i < j < stop - 1 && StartLine(lines[i]) ==> !EndLine(lines[j])
  }

  lemma MarksAre(line: string)
    ensures MarkOf(line) == StartMark <==> StartLine(line)
    ensures MarkOf(line) == EndMark <==> EndLine(line)
  {
    MarkersTight();
    hide Strip, Tight;
  }

  lemma OldBlockIs(lines: seq<string>, at: nat, end: nat, start: nat, stop: nat, marks: seq<Mark>)
    requires MarkedBy(lines, at, end, marks) && at < start && start < stop
    ensures OldBlock(lines, at, end, start, stop) <==> Scan(marks, 0, None) == Span(start - at - 1, stop - at - 1)
  {
    hide *;
    BlockShift(lines, at, end, start, stop, marks);
    FoundAt(marks, start - at - 1, stop - at - 1);
  }

  lemma FoundAt(marks: seq<Mark>, start: nat, stop: nat)
    ensures Scan(marks, 0, None) == Span(start, stop) <==> BlockIn(marks, start, stop)
  {
    hide *;
    ScanExactly(marks, start, stop);
  }

  /** The marks of the lines between `at` and `end`. */
  predicate MarkedBy(lines: seq<string>, at: nat, end: nat, marks: seq<Mark>) {
    && at < end <= |lines| && |marks| == end - at - 1
    && forall i :: at < i < end ==>
         && (marks[i - at - 1] == StartMark <==> StartLine(lines[i]))
         && (marks[i - at - 1] == EndMark <==> EndLine(lines[i]))
  }

  lemma BodyMarks(lines: seq<string>, at: nat, end: nat)
    requires at < end <= |lines|
    ensures MarkedBy(lines, at, end, Marks(lines[at + 1..end]))
  {
    hide StartLine, EndLine, MarkOf;
    forall i | at < i < end
      ensures Marks(lines[at + 1..end])[i - at - 1] == MarkOf(lines[i])
      ensures MarkOf(lines[i]) == StartMark <==> StartLine(lines[i])
      ensures MarkOf(lines[i]) == EndMark <==> EndLine(lines[i])
    {
      MarksAre(lines[i]);
    }
  }

  lemma BlockShift(lines: seq<string>, at: nat, end: nat, start: nat, stop: nat, marks: seq<Mark>)
    requires MarkedBy(lines, at, end, marks) && at < start && start < stop
    ensures OldBlock(lines, at, end, start, stop) <==> BlockIn(marks, start - at - 1, stop - at - 1)
  {
    hide StartLine, EndLine;
    assert forall i :: 0 <= i < |marks| ==>
             && (marks[i] == StartMark <==> StartLine(lines[at + 1 + i]))
             && (marks[i] == EndMark <==> EndLine(lines[at + 1 + i]));
  }

  /** The new lines: a start line, the guidelines in their order, and an end line. */
  function NewLines(indent: string, guidelines: seq<string>, newline: string): seq<string> {
    [indent + "# --- fabri: learned from prior runs (auto-proposed) ---" + newline]
    + seq(|guidelines|, i requires 0 <= i < |guidelines| => indent + "# - " + guidelines[i] + newline)
    + [indent + "# --- end fabri ---" + newline]
  }

  lemma NewLinesAre(indent: string, guidelines: seq<string>, newline: string)
    ensures Block(indent, guidelines, newline) == NewLines(indent, guidelines, newline)
  {
  }

  predicate IndentIs(line: string, indent: string) {
    indent <= line && BlanksOnly(indent) && (|indent| < |line| ==> line[|indent|] != ' ' && line[|indent|] != '\t')
  }

  predicate FirstContent(lines: seq<string>, at: nat, end: nat, i: nat) {
    at < i < end <= |lines| && !AllSpace(lines[i]) && forall j :: at < j < i ==> AllSpace(lines[j])
  }

  /** The indentation of the scalar's first line with content; two blanks more than the key if there is none. */
  ghost predicate IsBodyIndent(lines: seq<string>, at: nat, keyIndent: string, end: nat, indent: string)
    requires at < end <= |lines|
  {
    || (exists i: nat :: FirstContent(lines, at, end, i) && IndentIs(lines[i], indent))
    || ((forall i :: at < i < end ==> AllSpace(lines[i])) && indent == keyIndent + "  ")
  }

  lemma {:induction false} BodyIndentIs(lines: seq<string>, at: nat, keyIndent: string, end: nat)
    requires at < end <= |lines|
    ensures IsBodyIndent(lines, at, keyIndent, end, ContentIndent(lines[at + 1..end], keyIndent + "  "))
    decreases end - at
  {
    var body := lines[at + 1..end];
    if body != [] {
      var line := lines[at + 1];
      assert body[0] == line && body[1..] == lines[at + 2..end];
      StripBlank(line);
      IndentCut(line);
      hide Strip, IndentOf, AllSpace;
      BlankIs(line);
      if !AllSpace(line) {
        assert FirstContent(lines, at, end, at + 1);
      } else {
        BodyIndentIs(lines, at + 1, keyIndent, end);
        var indent := ContentIndent(body[1..], keyIndent + "  ");
        if i: nat :| FirstContent(lines, at + 1, end, i) && IndentIs(lines[i], indent) {
          assert FirstContent(lines, at, end, i);
        }
      }
    }
  }

  lemma BlankIs(line: string)
    ensures IsBlank(line) <==> AllSpace(line)
  {
    StripBlank(line);
  }

  /** Without a header line the edit is refused. With one, the new lines take the place of the old block in the
      scalar, or stand at the scalar's end if there is none; nothing else changes. They are indented like the
      scalar's content and end as the text's lines do. */
  lemma EditExactly(text: string, guidelines: seq<string>)
    returns (at: nat, keyIndent: string, end: nat, indent: string)
    ensures var lines := KeepLines(text);
            var newline := if HasCrLf(text) then "\r\n" else "\n";
            && (Apply(text, guidelines).Err? <==> forall i, key :: 0 <= i < |lines| ==> !IsHeader(lines[i], key))
            && (Apply(text, guidelines).Ok? ==>
                  && IsScalar(lines, at, keyIndent, end) && IsBodyIndent(lines, at, keyIndent, end, indent)
                  && (forall start: nat, stop: nat :: OldBlock(lines, at, end, start, stop) ==>
                        Apply(text, guidelines)
                        == Ok(Concat(lines[..start] + NewLines(indent, guidelines, newline) + lines[stop..])))
                  && ((forall start: nat, stop: nat :: !OldBlock(lines, at, end, start, stop)) ==>
                        Apply(text, guidelines)
                        == Ok(Concat(lines[..end] + NewLines(indent, guidelines, newline) + lines[end..]))))
  {
    var lines, crLf := KeepLines(text), HasCrLf(text);
    at, keyIndent, end, indent := 0, "", 0, "";
    HeaderIs(lines, 0);
    ApplyIs(text, guidelines);
    HeaderPlace(lines, crLf);
    hide *;
    if HeaderFrom(lines, 0).Some? {
      at, keyIndent := HeaderFrom(lines, 0).value.0, HeaderFrom(lines, 0).value.1;
      end := EndFrom(lines, at + 1, |keyIndent|);
      indent := ContentIndent(lines[at + 1..end], keyIndent + "  ");
      EndIs(lines, at, |keyIndent|);
      ScalarIs(lines, at, keyIndent, end);
      BodyIndentIs(lines, at, keyIndent, end);
      LocateWith(lines, crLf, at, keyIndent, end);
      PlaceIs(lines, at, keyIndent, end, crLf, indent);
      EditedIs(LocateIn(lines, at, keyIndent, end, crLf), guidelines);
      NewLinesAre(indent, guidelines, if crLf then "\r\n" else "\n");
    }
  }

  lemma HeaderPlace(lines: seq<string>, crLf: bool)
    ensures Locate(lines, crLf).None? <==> HeaderFrom(lines, 0).None?
  {
    hide HeaderFrom, EndFrom, LocateIn;
  }

  lemma ScalarIs(lines: seq<string>, at: nat, keyIndent: string, end: nat)
    requires at < end <= |lines| && IsHeader(lines[at], keyIndent)
    requires forall i, indent :: 0 <= i < at ==> !IsHeader(lines[i], indent)
    requires forall i :: at < i < end ==> !Shallow(lines[i], |keyIndent|)
    requires end < |lines| ==> Shallow(lines[end], |keyIndent|)
    ensures IsScalar(lines, at, keyIndent, end)
  {
    hide IsHeader, Shallow;
  }

  lemma PlaceIs(lines: seq<string>, at: nat, keyIndent: string, end: nat, crLf: bool, indent: string)
    requires at < end <= |lines| && indent == ContentIndent(lines[at + 1..end], keyIndent + "  ")
    ensures var p := LocateIn(lines, at, keyIndent, end, crLf);
            && p.indent == indent && p.newline == (if crLf then "\r\n" else "\n")
            && (forall start: nat, stop: nat :: OldBlock(lines, at, end, start, stop) ==>
                  p.before == lines[..start] && p.after == lines[stop..])
            && ((forall start: nat, stop: nat :: !OldBlock(lines, at, end, start, stop)) ==>
                  p.before == lines[..end] && p.after == lines[end..])
  {
    var marks := Marks(lines[at + 1..end]);
    BodyMarks(lines, at, end);
    hide ContentIndent, Scan, Marks, StartLine, EndLine, MarkedBy;
    forall start: nat, stop: nat | OldBlock(lines, at, end, start, stop)
      ensures var p := LocateIn(lines, at, keyIndent, end, crLf);
              p.before == lines[..start] && p.after == lines[stop..]
    {
      assert at < start && start < stop by { OldBlockShape(lines, at, end, start, stop); }
      OldBlockIs(lines, at, end, start, stop, marks);
    }
    match Scan(marks, 0, None) {
      case Span(a, b) => OldBlockIs(lines, at, end, at + 1 + a, at + 1 + b, marks);
      case NoSpan =>
    }
  }

  lemma OldBlockShape(lines: seq<string>, at: nat, end: nat, start: nat, stop: nat)
    requires OldBlock(lines, at, end, start, stop)
    ensures at < start && start < stop
  {
  }
}