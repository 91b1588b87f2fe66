/** What a filled label sheet means, on the text of the sheet: which words are verdicts, and what more lines
    do to it. */
module LabelLaws {
  import opened Collections
  import opened Options
  import opened Text
  import opened LabelSheet

  // ---------------------------------------------------------------- verdict words

  /** The letter in either case. */
  predicate Letter(c: char, small: char) {
    'a' <= small <= 'z' && (c == small || c as int == small as int - 32)
  }

  /** An s; the long s counts too. */
  predicate AnyS(c: char) {
    Letter(c, 's') || c as int == 0x17f
  }

  /** A sharp s, small or capital, which stands for two. */
  predicate SharpS(c: char) {
    c as int == 0xdf || c as int == 0x1e9e
  }

  /** The word "pass" or "fail", each letter in either case. */
  predicate Spells(t: string, passed: bool) {
    if passed then
      && |t| >= 3 && Letter(t[0], 'p') && Letter(t[1], 'a')
      && ((|t| == 4 && AnyS(t[2]) && AnyS(t[3])) || (|t| == 3 && SharpS(t[2])))
    else
      |t| == 4 && Letter(t[0], 'f') && Letter(t[1], 'a') && Letter(t[2], 'i') && Letter(t[3], 'l')
  }

  lemma FoldedChar(c: char)
    ensures 1 <= |FoldChar(c)| <= 2
    ensures forall small: char :: 'a' <= small <= 'z' && small != 's' ==> (FoldChar(c) == [small] <==> Letter(c, small))
    ensures FoldChar(c) == "s" <==> AnyS(c)
    ensures |FoldChar(c)| == 2 <==> SharpS(c)
    ensures SharpS(c) ==> FoldChar(c) == "ss"
  {
  }

  lemma Cut(a: string, b: string, w: string)
    ensures a + b == w <==> |a| <= |w| && a == w[..|a|] && b == w[|a|..]
  {
  }

  /** Folding a text is folding its first character, and then the rest. */
  lemma FoldCut(t: string, w: string)
    requires t != "" && |w| > 0
    ensures Fold(t) == w
            <==> |FoldChar(t[0])| <= |w| && FoldChar(t[0]) == w[..|FoldChar(t[0])|]
                 && Fold(t[1..]) == w[|FoldChar(t[0])|..]
  {
    Cut(FoldChar(t[0]), Fold(t[1..]), w);
    hide FoldChar;
  }

  lemma FoldNothing(t: string)
    ensures Fold(t) == "" <==> t == ""
  {
  }

  lemma FoldFirst(t: string, c: char, w: string)
    requires 'a' <= c <= 'z' && c != 's'
    ensures Fold(t) == [c] + w <==> t != "" && Letter(t[0], c) && Fold(t[1..]) == w
  {
    FoldNothing(t);
    if t != "" {
      FoldedChar(t[0]);
      FoldCut(t, [c] + w);
      assert ([c] + w)[..1] == [c] && ([c] + w)[1..] == w;
      if SharpS(t[0]) {
        assert "ss"[0] == 's' && ([c] + w)[0] == c;
      }
      hide Fold, FoldChar, Letter;
    }
  }

  lemma FoldS(t: string)
    ensures Fold(t) == "s" <==> |t| == 1 && AnyS(t[0])
  {
    FoldNothing(t);
    if t != "" {
      FoldNothing(t[1..]);
      FoldedChar(t[0]);
      FoldCut(t, "s");
      assert "s"[..1] == "s" && "s"[1..] == "";
      hide Fold, FoldChar, AnyS, SharpS;
    }
  }

  lemma FoldTwoS(t: string)
    ensures Fold(t) == "ss" <==> (|t| == 2 && AnyS(t[0]) && AnyS(t[1])) || (|t| == 1 && SharpS(t[0]))
  {
    FoldNothing(t);
    if t != "" {
      FoldNothing(t[1..]);
      FoldS(t[1..]);
      FoldedChar(t[0]);
      FoldCut(t, "ss");
      assert "ss"[..1] == "s" && "ss"[1..] == "s" && "ss"[..2] == "ss" && "ss"[2..] == "";
      hide Fold, FoldChar;
    }
  }

  lemma FoldPass(t: string)
    ensures Fold(t) == "pass" <==> Spells(t, true)
  {
    assert "pass" == ['p'] + "ass" && "ass" == ['a'] + "ss";
    FoldFirst(t, 'p', "ass");
    hide Fold;
    if t != "" {
      FoldFirst(t[1..], 'a', "ss");
      if |t| > 1 {
        assert t[1..][1..] == t[2..];
        FoldTwoS(t[2..]);
      }
    }
  }

  lemma FoldFail(t: string)
    ensures Fold(t) == "fail" <==> Spells(t, false)
  {
    assert "fail" == ['f'] + "ail" && "ail" == ['a'] + "il" && "il" == ['i'] + "l" && "l" == ['l'] + "";
    FoldFirst(t, 'f', "ail");
    hide Fold;
    if t != "" {
      FoldFirst(t[1..], 'a', "il");
      if |t| > 1 {
        assert t[1..][1..] == t[2..];
        FoldFirst(t[2..], 'i', "l");
        if |t| > 2 {
          assert t[2..][1..] == t[3..];
          FoldFirst(t[3..], 'l', "");
          if |t| > 3 {
            assert t[3..][1..] == t[4..];
            FoldNothing(t[4..]);
          }
        }
      }
    }
  }

  predicate Blank(s: string) {
    forall c :: c in s ==> IsSpace(c)
  }

  /** What a verdict is read as: a label exactly when it spells one, not filled in exactly when it is blank
      or missing, and otherwise unparseable. */
  lemma VerdictReads(v: string)
    ensures forall passed :: Read(Some(v)) == Label(passed) <==> Spells(Strip(v), passed)
    ensures Read(Some(v)) == Unfilled <==> Blank(v)
    ensures Read(Some(v)) == Unparseable <==> !Blank(v) && !Spells(Strip(v), true) && !Spells(Strip(v), false)
    ensures Read(None) == Unfilled
  {
    StripBlank(v);
    FoldPass(Strip(v));
    FoldFail(Strip(v));
    hide Fold, Strip;
    assert !(Spells(Strip(v), true) && Spells(Strip(v), false));
  }

  // ---------------------------------------------------------------- whole sheets

  /** A sheet as it is rendered and filled in, with one line after each label. */
  ghost predicate Fillable(digit: DigitMap, intro: seq<string>, intents: map<string, string>, runs: seq<Run>,
                           answers: seq<Answer>)
  {
    && IsDigitMap(digit) && IsIntro(digit, intro) && intro != [] && QuietIntents(digit, intents)
    && |answers| == |runs| && Known(intents, runs)
    && forall i :: 0 <= i < |answers| ==> OneLineAnswer(answers[i])
  }

  /** With a verdict that spells pass or fail after every label, in whatever case and with white space around
      it, the sheet gives items 1 to N with those labels and the stripped reasons. */
  lemma SpelledLabels(digit: DigitMap, intro: seq<string>, intents: map<string, string>, runs: seq<Run>,
                      answers: seq<Answer>, passed: seq<bool>)
    requires Fillable(digit, intro, intents, runs, answers) && |passed| == |answers| > 0
    requires forall i :: 0 <= i < |answers| ==> Spells(Strip(answers[i].verdict), passed[i])
    ensures var r := ReadSheet(digit, FilledSheet(intro, intents, runs, answers));
            && r.Ok?
            && (forall i :: i in r.value <==> 1 <= i <= |runs|)
            && (forall i :: 1 <= i <= |runs| ==>
                  r.value[i] == HumanLabel(i, passed[i - 1], Strip(answers[i - 1].reason)))
  {
    hide IsDigitMap, IsIntro, QuietIntents, Known, ReadSheet, FilledSheet, Read, Spells, Strip, OneLine, NumbersOf;
    forall i | 0 <= i < |answers| ensures ReadingOf(answers[i]) == Label(passed[i]) {
      VerdictReads(answers[i].verdict);
    }
    SheetRoundTrip(digit, intro, intents, runs, answers);
    AllLabels(answers, Unfilled, 1);
    AllLabels(answers, Unparseable, 1);
  }

  lemma NoneAscending()
    ensures Ascending([])
  {
  }

  lemma {:induction false} NumbersAre(answers: seq<Answer>, r: Reading, n: nat)
    ensures Ascending(NumbersOf(answers, r, n))
    ensures forall i: nat :: i in NumbersOf(answers, r, n)
                             <==> n <= i < n + |answers| && ReadingOf(answers[i - n]) == r
    decreases |answers|
  {
    hide ReadingOf, Ascending;
    if answers != [] {
      NumbersAre(answers[1..], r, n + 1);
      var rest := NumbersOf(answers[1..], r, n + 1);
      AscendingCons(n, rest);
      assert [] + rest == rest;
      forall i: nat
        ensures i in NumbersOf(answers, r, n) <==> n <= i < n + |answers| && ReadingOf(answers[i - n]) == r
      {
        assert i in NumbersOf(answers, r, n) <==> (i == n && ReadingOf(answers[0]) == r) || i in rest;
        if n < i < n + |answers| {
          assert answers[i - n] == answers[1..][i - n - 1];
        }
      }
    } else {
      NoneAscending();
    }
  }

  /** Any other verdict makes the reader fail, with exactly the items whose verdict is blank, and exactly those
      whose verdict spells neither word, both in ascending order. */
  lemma BadSheets(digit: DigitMap, intro: seq<string>, intents: map<string, string>, runs: seq<Run>,
                  answers: seq<Answer>)
    requires Fillable(digit, intro, intents, runs, answers) && answers != []
    requires exists i :: 0 <= i < |answers|
               && !Spells(Strip(answers[i].verdict), true) && !Spells(Strip(answers[i].verdict), false)
    ensures var r := ReadSheet(digit, FilledSheet(intro, intents, runs, answers));
            && r.Err? && r.error.BadVerdicts?
            && Ascending(r.error.unfilled) && Ascending(r.error.unparseable)
            && (forall i: nat :: i in r.error.unfilled <==> 1 <= i <= |answers| && Blank(answers[i - 1].verdict))
            && (forall i: nat :: i in r.error.unparseable
                  <==> 1 <= i <= |answers| && !Blank(answers[i - 1].verdict)
                       && !Spells(Strip(answers[i - 1].verdict), true)
                       && !Spells(Strip(answers[i - 1].verdict), false))
  {
    hide IsDigitMap, IsIntro, QuietIntents, Known, ReadSheet, FilledSheet, Read, Spells, Strip, OneLine, NumbersOf,
         Blank, Ascending;
    SheetRoundTrip(digit, intro, intents, runs, answers);
    forall i | 0 <= i < |answers|
      ensures ReadingOf(answers[i]) == Unfilled <==> Blank(answers[i].verdict)
      ensures ReadingOf(answers[i]) == Unparseable
              <==> !Blank(answers[i].verdict) && !Spells(Strip(answers[i].verdict), true)
                   && !Spells(Strip(answers[i].verdict), false)
    {
      VerdictReads(answers[i].verdict);
    }
    hide ReadingOf;
    NumbersAre(answers, Unfilled, 1);
    NumbersAre(answers, Unparseable, 1);
    var i :| 0 <= i < |answers|
      && !Spells(Strip(answers[i].verdict), true) && !Spells(Strip(answers[i].verdict), false);
    assert i + 1 in NumbersOf(answers, Unfilled, 1) || i + 1 in NumbersOf(answers, Unparseable, 1);
  }

  // ---------------------------------------------------------------- more lines

  lemma SheetState(digit: DigitMap, intro: seq<string>, intents: map<string, string>, runs: seq<Run>,
                   answers: seq<Answer>)
    requires Fillable(digit, intro, intents, runs, answers)
    ensures Steps(digit, START, SplitLines(FilledSheet(intro, intents, runs, answers)))
            == Ok(AfterItems(START, 1, answers))
  {
    hide IsDigitMap, IsIntro, QuietIntents, OneLineAnswer, Lines, Steps, Finish, ItemsSections, AfterItems;
    var items := ItemsSections(intents, runs, answers, 1);
    IntroSkipped(digit, intro);
    ItemsStep(digit, START, intents, runs, answers, 1);
    SplitSections(intro + items);
    TwoSteps(digit, START, START, intro, items);
  }

  lemma {:induction false} LastItem(s: State, n: nat, answers: seq<Answer>)
    requires answers != []
    ensures var t := AfterItems(s, n, answers);
            && t.fence == s.fence && t.current == Some(n + |answers| - 1)
            && n + |answers| - 1 in t.values
            && t.values[n + |answers| - 1] == FieldsOf(answers[|answers| - 1])
    ensures forall i: nat :: n <= i < n + |answers| ==> i in AfterItems(s, n, answers).values
    ensures forall i :: i in s.values ==> i in AfterItems(s, n, answers).values
    decreases |answers|
  {
    hide FieldsOf;
    if |answers| > 1 {
      LastItem(AfterItem(s, n, answers[0]), n + 1, answers[1..]);
    } else {
      assert answers[1..] == [];
    }
  }

  lemma TextLines(before: string, line: string, rest: string)
    requires (before == "" || before[|before| - 1] == '\n') && OneLine(line)
    ensures SplitLines(before + line + "\n" + rest) == SplitLines(before) + ([line] + SplitLines(rest))
  {
    assert SplitLines("") == [];
    hide SplitLines, OneLine;
    SplitAfterFeed(line, rest, "");
    SplitOneLine(line, "");
    FeedTexts(before, line, rest);
    if before != "" {
      SplitAfterFeed(before[..|before| - 1], line + "\n" + rest, "");
    }
  }

  lemma FeedTexts(before: string, line: string, rest: string)
    requires before == "" || before[|before| - 1] == '\n'
    ensures "" + line == line
    ensures before == "" ==> before + line + "\n" + rest == line + "\n" + rest
    ensures before != "" ==>
              && before == before[..|before| - 1] + "\n"
              && before + line + "\n" + rest == before[..|before| - 1] + "\n" + (line + "\n" + rest)
  {
  }

  /** What one more line does to a text that ends in a line break. */
  lemma OneMoreLine(digit: DigitMap, text: string, line: string, rest: string, s: State)
    requires text != "" && text[|text| - 1] == '\n' && OneLine(line)
    requires Sound(s) && Steps(digit, START, SplitLines(text)) == Ok(s)
    ensures Step(digit, s, line).Err?
            ==> ReadSheet(digit, text + line + "\n" + rest) == Err(Step(digit, s, line).error)
    ensures Step(digit, s, line).Ok?
            ==> Sound(Step(digit, s, line).value)
                && var u := Steps(digit, Step(digit, s, line).value, SplitLines(rest));
                   ReadSheet(digit, text + line + "\n" + rest) == if u.Err? then Err(u.error) else Finish(u.value)
  {
    StepSound(digit, s, line);
    TextLines(text, line, rest);
    hide SplitLines, Step, Finish;
    StepsAppend(digit, START, SplitLines(text), [line] + SplitLines(rest));
    assert ([line] + SplitLines(rest))[1..] == SplitLines(rest);
  }

  // ---------------------------------------------------------------- what kind of line it is

  /** A fence line: white space, a run of exactly `n` backticks or tildes, at least three, and no backtick
      after it. */
  predicate FenceAt(line: string, mark: char, n: nat, i: nat) {
    && i + n <= |line| && Blank(line[..i])
    && (mark == '`' || mark == '~') && n >= 3
    && (forall k :: i <= k < i + n ==> line[k] == mark)
    && (i + n < |line| ==> line[i + n] != mark)
    && '`' !in line[i + n..]
  }

  ghost predicate FenceLine(line: string, mark: char, n: nat) {
    exists i: nat :: FenceAt(line, mark, n, i)
  }

  lemma {:induction false} LStripIs(s: string, i: nat)
    requires i <= |s| && Blank(s[..i]) && (i < |s| ==> !IsSpace(s[i]))
    ensures LStrip(s) == s[i..]
  {
    hide IsSpace;
    if i == 0 {
      assert s[0..] == s;
    } else {
      assert s[0] in s[..i];
      assert s[1..][..i - 1] == s[..i][1..] && s[1..][i - 1..] == s[i..];
      assert forall c :: c in s[..i][1..] ==> c in s[..i];
      LStripIs(s[1..], i - 1);
    }
  }

  lemma {:induction false} LStripCut(s: string) returns (i: nat)
    ensures i <= |s| && Blank(s[..i]) && (i < |s| ==> !IsSpace(s[i]))
    ensures LStrip(s) == s[i..]
  {
    hide IsSpace;
    if s != "" && IsSpace(s[0]) {
      var j := LStripCut(s[1..]);
      i := j + 1;
      assert s[..i] == [s[0]] + s[1..][..j] && s[i..] == s[1..][j..];
    } else {
      i := 0;
      assert s[..0] == "";
    }
  }

  lemma {:induction false} RunIs(s: string, c: char, n: nat)
    requires n <= |s| && (forall k :: 0 <= k < n ==> s[k] == c) && (n < |s| ==> s[n] != c)
    ensures RunLength(s, c) == n
  {
    if n > 0 {
      RunIs(s[1..], c, n - 1);
    }
  }

  lemma {:induction false} RunFacts(s: string, c: char)
    ensures var n := RunLength(s, c);
            (forall k :: 0 <= k < n ==> s[k] == c) && (n < |s| ==> s[n] != c)
  {
    if s != "" && s[0] == c {
      RunFacts(s[1..], c);
      assert forall k :: 0 < k < |s| ==> s[k] == s[1..][k - 1];
    }
  }

  lemma FenceExactly(line: string, mark: char, n: nat)
    ensures MatchFence(line) == Some(Fence(mark, n)) <==> FenceLine(line, mark, n)
  {
    hide MatchFence, FenceAt;
    if MatchFence(line) == Some(Fence(mark, n)) {
      var i := FenceFound(line, mark, n);
    }
    if FenceLine(line, mark, n) {
      var i: nat :| FenceAt(line, mark, n, i);
      FenceMatches(line, mark, n, i);
    }
  }

  lemma FenceFound(line: string, mark: char, n: nat) returns (i: nat)
    requires MatchFence(line) == Some(Fence(mark, n))
    ensures FenceAt(line, mark, n, i)
  {
    i := LStripCut(line);
    RunFacts(line[i..], mark);
    hide LStrip, RunLength, IsSpace;
    assert line[i..][n..] == line[i + n..];
    assert forall k :: i <= k < |line| ==> line[k] == line[i..][k - i];
  }

  lemma FenceMatches(line: string, mark: char, n: nat, i: nat)
    requires FenceAt(line, mark, n, i)
    ensures MatchFence(line) == Some(Fence(mark, n))
  {
    LStripIs(line, i);
    RunIs(line[i..], mark, n);
    hide LStrip, RunLength, Blank;
    assert line[i..][n..] == line[i + n..];
  }

  /** A letter of a label in either case, and the few characters that match one. */
  predicate AnyCase(c: char, small: char) {
    || c == small || Letter(c, small)
    || (small == 'i' && (c as int == 0x130 || c as int == 0x131))
    || (small == 's' && c as int == 0x17f)
  }

  /** The text spells the label, in any case. */
  predicate Tags(t: string, tag: string) {
    |t| == |tag| && forall i :: 0 <= i < |t| ==> AnyCase(t[i], tag[i])
  }

  lemma LabelExactly(t: string, v: string, tag: string)
    requires tag == "verdict:" || tag == "reason:"
    ensures |t| == |tag| ==> LabelValue(t + v, tag) == if Tags(t, tag) then Some(Strip(v)) else None
  {
    if |t| == |tag| {
      assert forall i :: 0 <= i < |tag| ==> (t + v)[i] == t[i];
      assert (t + v)[|tag|..] == v;
      assert 'k' !in "verdict:" && 'k' !in "reason:";
      forall i | 0 <= i < |tag| ensures EqFold(t[i], tag[i]) <==> AnyCase(t[i], tag[i]) {
        assert tag[i] in tag;
      }
      hide Strip, EqFold, AnyCase;
    }
  }

  /** A label line is no fence and no heading, and not the other label. */
  lemma LabelLine(digit: DigitMap, t: string, v: string, tag: string)
    requires (tag == "verdict:" || tag == "reason:") && Tags(t, tag)
    ensures MatchFence(t + v).None? && MatchHeading(digit, t + v).None?
    ensures LabelValue(t + v, tag) == Some(Strip(v))
    ensures tag == "reason:" ==> LabelValue(t + v, VERDICT).None?
  {
    LabelExactly(t, v, tag);
    var line := t + v;
    assert line[0] == t[0];
    assert AnyCase(t[0], tag[0]) && (tag[0] == 'v' || tag[0] == 'r');
    NotHeading(digit, line, 0);
    assert LStrip(line) == line;
    if tag == "reason:" {
      assert !EqFold(line[0], VERDICT[0]);
    }
    hide Strip, MatchHeading;
  }

  // ---------------------------------------------------------------- laws on the text of a sheet

  predicate IsLabel(tag: string) {
    tag == "verdict:" || tag == "reason:"
  }

  /** Lines that the reader takes the same step on can be exchanged, in any text. */
  lemma ExchangeLine(digit: DigitMap, before: string, line: string, other: string, rest: string)
    requires before == "" || before[|before| - 1] == '\n'
    requires OneLine(line) && OneLine(other)
    requires forall s | Sound(s) :: Step(digit, s, line) == Step(digit, s, other)
    ensures ReadSheet(digit, before + line + "\n" + rest) == ReadSheet(digit, before + other + "\n" + rest)
  {
    TextLines(before, line, rest);
    TextLines(before, other, rest);
    hide SplitLines, Step, Finish;
    StepsAlike(digit, START, SplitLines(before), line, other, SplitLines(rest));
  }

  lemma {:induction false} StepsAlike(digit: DigitMap, s: State, lines: seq<string>, line: string, other: string,
                                      rest: seq<string>)
    requires Sound(s) && forall t | Sound(t) :: Step(digit, t, line) == Step(digit, t, other)
    ensures Steps(digit, s, lines + ([line] + rest)) == Steps(digit, s, lines + ([other] + rest))
    decreases |lines|
  {
    hide Step;
    if lines == [] {
      assert lines + ([line] + rest) == [line] + rest && lines + ([other] + rest) == [other] + rest;
      assert ([line] + rest)[1..] == rest && ([other] + rest)[1..] == rest;
    } else {
      assert (lines + ([line] + rest))[1..] == lines[1..] + ([line] + rest);
      assert (lines + ([other] + rest))[1..] == lines[1..] + ([other] + rest);
      StepSound(digit, s, lines[0]);
      if Step(digit, s, lines[0]).Ok? {
        StepsAlike(digit, Step(digit, s, lines[0]).value, lines[1..], line, other, rest);
      }
    }
  }

  /** A label counts in any case: writing it in capitals changes nothing, wherever the line stands. */
  lemma LabelInAnyCase(digit: DigitMap, before: string, tag: string, t: string, u: string, v: string, rest: string)
    requires before == "" || before[|before| - 1] == '\n'
    requires IsLabel(tag) && Tags(t, tag) && Tags(u, tag) && OneLine(t + v) && OneLine(u + v)
    ensures ReadSheet(digit, before + (t + v) + "\n" + rest) == ReadSheet(digit, before + (u + v) + "\n" + rest)
  {
    hide ReadSheet, OneLine, Tags, LabelValue, MatchFence, MatchHeading;
    LabelLine(digit, t, v, tag);
    LabelLine(digit, u, v, tag);
    forall s | Sound(s) ensures Step(digit, s, t + v) == Step(digit, s, u + v) {
    }
    hide Step;
    ExchangeLine(digit, before, t + v, u + v, rest);
  }

  lemma FeedEnd(intro: seq<string>, intents: map<string, string>, runs: seq<Run>, answers: seq<Answer>)
    requires |answers| == |runs| && Known(intents, runs)
    ensures var text := FilledSheet(intro, intents, runs, answers); text != "" && text[|text| - 1] == '\n'
  {
  }

  /** A second verdict line for the last item is refused, whatever it says and whatever follows. */
  lemma SecondVerdict(digit: DigitMap, intro: seq<string>, intents: map<string, string>, runs: seq<Run>,
                      answers: seq<Answer>, t: string, v: string, rest: string)
    requires Fillable(digit, intro, intents, runs, answers) && answers != []
    requires Tags(t, "verdict:") && OneLine(t + v)
    ensures ReadSheet(digit, FilledSheet(intro, intents, runs, answers) + (t + v) + "\n" + rest)
            == Err(DuplicateVerdict(|runs|))
  {
    FeedEnd(intro, intents, runs, answers);
    SheetState(digit, intro, intents, runs, answers);
    FinalState(answers);
    LastItem(START, 1, answers);
    LabelLine(digit, t, v, "verdict:");
    hide Fillable, FilledSheet, Steps, SplitLines, AfterItems, Strip, MatchHeading, MatchFence, LabelValue, Tags,
         OneLine, ReadSheet, Finish;
    OneMoreLine(digit, FilledSheet(intro, intents, runs, answers), t + v, rest, AfterItems(START, 1, answers));
  }

  lemma HeadingLine(digit: DigitMap, n: nat, blanks: nat)
    requires IsDigitMap(digit)
    ensures var line := "## Item " + NatText(n) + Blanks(blanks);
            OneLine(line) && MatchFence(line).None? && MatchHeading(digit, line) == Some(n)
  {
    var digits, line := NatText(n), "## Item " + NatText(n) + Blanks(blanks);
    var rest := digits + Blanks(blanks);
    hide NatText, DigitsValue, LStrip, DigitRun, IsDigitMap, Blanks;
    HeadingStart(n, blanks);
    HeadingRest(digit, n, blanks);
  }

  lemma HeadingStart(n: nat, blanks: nat)
    ensures var line := "## Item " + NatText(n) + Blanks(blanks);
            && HEADING <= line && line[|HEADING|..] == NatText(n) + Blanks(blanks)
            && LStrip(line) == line && line[0] == '#' && OneLine(line)
  {
    var digits, line := NatText(n), "## Item " + NatText(n) + Blanks(blanks);
    hide NatText;
    assert line == HEADING + (digits + Blanks(blanks));
    assert LStrip(line) == line;
    assert OneLine(HEADING);
    forall i | 0 <= i < |line| ensures !IsLineBreak(line[i]) {
      if |HEADING| <= i < |HEADING| + |digits| {
        assert digits[i - |HEADING|] in digits;
      }
    }
  }

  lemma HeadingRest(digit: DigitMap, n: nat, blanks: nat)
    requires IsDigitMap(digit)
    ensures var rest, k := NatText(n) + Blanks(blanks), |NatText(n)|;
            && DigitRun(digit, rest, 0) == k && k > 0 && LStrip(rest[k..]) == ""
            && DigitsValue(digit, rest[..k]) == Some(n)
  {
    var digits := NatText(n);
    var rest := digits + Blanks(blanks);
    NatTextValue(digit, n);
    LStripBlank(Blanks(blanks));
    assert rest[|digits|..] == Blanks(blanks) && rest[..|digits|] == digits;
    hide NatText, DigitsValue, LStrip;
    assert forall i :: 0 <= i < |digits| ==> rest[i] in digits;
    DigitRunStops(digit, rest, 0, |digits|);
  }

  /** A second heading with the number of an earlier item is refused. */
  lemma SecondHeading(digit: DigitMap, intro: seq<string>, intents: map<string, string>, runs: seq<Run>,
                      answers: seq<Answer>, n: nat, blanks: nat, rest: string)
    requires Fillable(digit, intro, intents, runs, answers) && 1 <= n <= |runs|
    ensures ReadSheet(digit, FilledSheet(intro, intents, runs, answers)
                             + ("## Item " + NatText(n) + Blanks(blanks)) + "\n" + rest)
            == Err(DuplicateHeading(n))
  {
    FeedEnd(intro, intents, runs, answers);
    SheetState(digit, intro, intents, runs, answers);
    FinalState(answers);
    LastItem(START, 1, answers);
    HeadingLine(digit, n, blanks);
    hide FilledSheet, Steps, SplitLines, AfterItems, MatchHeading, MatchFence, OneLine, ReadSheet, Finish,
         NatText, Blanks;
    OneMoreLine(digit, FilledSheet(intro, intents, runs, answers), "## Item " + NatText(n) + Blanks(blanks), rest,
                AfterItems(START, 1, answers));
  }

  /** A reason line overrides the reason before it. */
  lemma LastReason(digit: DigitMap, intro: seq<string>, intents: map<string, string>, runs: seq<Run>,
                   answers: seq<Answer>, t: string, v: string)
    requires Fillable(digit, intro, intents, runs, answers) && answers != []
    requires Tags(t, "reason:") && OneLine(t + v)
    ensures var k := |answers| - 1;
            ReadSheet(digit, FilledSheet(intro, intents, runs, answers) + (t + v) + "\n")
            == ReadSheet(digit, FilledSheet(intro, intents, runs, answers[k := Answer(answers[k].verdict, v)]))
  {
    hide *;
    var k := |answers| - 1;
    var changed := answers[k := Answer(answers[k].verdict, v)];
    FillableRuns(digit, intro, intents, runs, answers);
    var text := FilledSheet(intro, intents, runs, answers);
    var s, s' := AfterItems(START, 1, answers), AfterItems(START, 1, changed);
    StillFillable(digit, intro, intents, runs, answers, t, v);
    FeedEnd(intro, intents, runs, answers);
    SheetState(digit, intro, intents, runs, answers);
    SheetState(digit, intro, intents, runs, changed);
    FinalState(answers);
    FinalState(changed);
    ReasonStep(digit, answers, t, v);
    assert text + (t + v) + "\n" + "" == text + (t + v) + "\n";
    NoLines(digit, s');
    OneMoreLine(digit, text, t + v, "", s);
    ReadIs(digit, FilledSheet(intro, intents, runs, changed), s');
  }

  lemma NoLines(digit: DigitMap, s: State)
    requires Sound(s)
    ensures Steps(digit, s, SplitLines("")) == Ok(s)
  {
  }

  lemma ReadIs(digit: DigitMap, text: string, s: State)
    requires Sound(s) && Steps(digit, START, SplitLines(text)) == Ok(s)
    ensures ReadSheet(digit, text) == Finish(s)
  {
    hide Steps, SplitLines, Finish;
  }

  lemma FillableRuns(digit: DigitMap, intro: seq<string>, intents: map<string, string>, runs: seq<Run>,
                     answers: seq<Answer>)
    requires Fillable(digit, intro, intents, runs, answers)
    ensures |answers| == |runs| && Known(intents, runs)
  {
  }

  lemma StillFillable(digit: DigitMap, intro: seq<string>, intents: map<string, string>, runs: seq<Run>,
                      answers: seq<Answer>, t: string, v: string)
    requires Fillable(digit, intro, intents, runs, answers) && answers != [] && OneLine(t + v)
    ensures Fillable(digit, intro, intents, runs,
                     answers[|answers| - 1 := Answer(answers[|answers| - 1].verdict, v)])
  {
    hide IsDigitMap, IsIntro, QuietIntents, Known, IsLineBreak;
    assert OneLineAnswer(answers[|answers| - 1]);
    assert forall i :: 0 <= i < |v| ==> (t + v)[|t| + i] == v[i];
  }

  lemma ReasonStep(digit: DigitMap, answers: seq<Answer>, t: string, v: string)
    requires answers != [] && Tags(t, "reason:")
    ensures var k := |answers| - 1;
            var s := AfterItems(START, 1, answers);
            Sound(s) && Step(digit, s, t + v)
                        == Ok(AfterItems(START, 1, answers[k := Answer(answers[k].verdict, v)]))
  {
    var k := |answers| - 1;
    FinalState(answers);
    LastItem(START, 1, answers);
    LabelLine(digit, t, v, "reason:");
    LastAnswer(START, 1, answers, Answer(answers[k].verdict, v));
    hide AfterItems, Strip, MatchHeading, MatchFence, LabelValue, Tags;
  }

  lemma {:induction false} LastAnswer(s: State, n: nat, answers: seq<Answer>, a: Answer)
    requires answers != [] && a.verdict == answers[|answers| - 1].verdict
    ensures var t, last := AfterItems(s, n, answers), n + |answers| - 1;
            && last in t.values
            && AfterItems(s, n, answers[|answers| - 1 := a])
               == t.(values := t.values[last := t.values[last].(reason := Strip(a.reason))])
    decreases |answers|
  {
    hide Strip;
    var changed := answers[|answers| - 1 := a];
    if |answers| == 1 {
      assert answers[1..] == [] && changed[1..] == [];
      UpdateTwice(s.values, n, FieldsOf(answers[0]), FieldsOf(a));
    } else {
      assert changed[1..] == answers[1..][|answers[1..]| - 1 := a];
      LastAnswer(AfterItem(s, n, answers[0]), n + 1, answers[1..], a);
    }
  }

  lemma {:induction false} NeverClosed(digit: DigitMap, s: State, lines: seq<string>)
    requires Sound(s) && s.fence.Some?
    requires forall i, n: nat ::
               0 <= i < |lines| && FenceLine(lines[i], s.fence.value.mark, n) ==> n < s.fence.value.length
    ensures Steps(digit, s, lines) == Ok(s)
  {
    hide FenceLine, MatchFence;
    if lines != [] {
      if MatchFence(lines[0]).Some? {
        FenceExactly(lines[0], MatchFence(lines[0]).value.mark, MatchFence(lines[0]).value.length);
      }
      assert Step(digit, s, lines[0]) == Ok(s);
      assert forall i :: 0 <= i < |lines[1..]| ==> lines[1..][i] == lines[i + 1];
      NeverClosed(digit, s, lines[1..]);
    }
  }

  /** An opened fence, of backticks or of tildes, hides all that follows until a line closes it with the same
      mark and at least as many. */
  lemma OpenFenceHides(digit: DigitMap, intro: seq<string>, intents: map<string, string>, runs: seq<Run>,
                       answers: seq<Answer>, line: string, mark: char, length: nat, rest: string)
    requires Fillable(digit, intro, intents, runs, answers) && answers != []
    requires OneLine(line) && FenceLine(line, mark, length)
    requires forall l, n: nat :: l in SplitLines(rest) && FenceLine(l, mark, n) ==> n < length
    ensures ReadSheet(digit, FilledSheet(intro, intents, runs, answers) + line + "\n" + rest)
            == ReadSheet(digit, FilledSheet(intro, intents, runs, answers))
  {
    var s := AfterItems(START, 1, answers);
    FeedEnd(intro, intents, runs, answers);
    SheetState(digit, intro, intents, runs, answers);
    FinalState(answers);
    LastItem(START, 1, answers);
    FenceExactly(line, mark, length);
    hide Fillable, FilledSheet, Steps, SplitLines, AfterItems, MatchFence, OneLine, FenceLine;
    OneMoreLine(digit, FilledSheet(intro, intents, runs, answers), line, rest, s);
    NeverClosed(digit, s.(fence := Some(Fence(mark, length))), SplitLines(rest));
    assert Finish(s.(fence := Some(Fence(mark, length)))) == Finish(s);
  }

  lemma LinesThen(before: string, rest: string)
    requires before != "" && before[|before| - 1] == '\n'
    ensures SplitLines(before + rest) == SplitLines(before) + SplitLines(rest)
  {
    var first := before[..|before| - 1];
    assert before == first + "\n" && before + rest == first + "\n" + rest && first + "\n" + "" == first + "\n";
    assert SplitLines("") == [];
    hide SplitLines;
    SplitAfterFeed(first, rest, "");
    SplitAfterFeed(first, "", "");
    assert SplitLines(first + "\n") + SplitLines("") == SplitLines(first + "\n");
  }

  /** A line that is a fence of the same mark, at least as long as the open one, closes it. */
  lemma BlockSteps(digit: DigitMap, s: State, mark: char, length: nat, lines: seq<string>, close: string, n: nat,
                   more: seq<string>)
    requires Sound(s) && s.fence.None? && FenceLine(close, mark, n) && n >= length
    requires forall i, m: nat :: 0 <= i < |lines| && FenceLine(lines[i], mark, m) ==> m < length
    ensures Sound(s.(fence := Some(Fence(mark, length))))
    ensures Steps(digit, s.(fence := Some(Fence(mark, length))), lines + ([close] + more)) == Steps(digit, s, more)
  {
    var open := s.(fence := Some(Fence(mark, length)));
    assert Sound(open);
    FenceExactly(close, mark, n);
    NeverClosed(digit, open, lines);
    assert Step(digit, open, close) == Ok(s);
    hide FenceLine, MatchFence, Step;
    StepsAppend(digit, open, lines, [close] + more);
    assert ([close] + more)[1..] == more;
  }

  /** So a closed block, put after a filled sheet, changes nothing of how the rest is read, whatever its lines say. */
  lemma ClosedBlockHidden(digit: DigitMap, intro: seq<string>, intents: map<string, string>, runs: seq<Run>,
                          answers: seq<Answer>, line: string, mark: char, length: nat, inner: string,
                          close: string, n: nat, rest: string)
    requires Fillable(digit, intro, intents, runs, answers) && answers != []
    requires OneLine(line) && FenceLine(line, mark, length) && OneLine(close) && FenceLine(close, mark, n)
    requires n >= length && (inner == "" || inner[|inner| - 1] == '\n')
    requires forall l, m: nat :: l in SplitLines(inner) && FenceLine(l, mark, m) ==> m < length
    ensures ReadSheet(digit, FilledSheet(intro, intents, runs, answers)
                             + line + "\n" + (inner + close + "\n" + rest))
            == ReadSheet(digit, FilledSheet(intro, intents, runs, answers) + rest)
  {
    var s := AfterItems(START, 1, answers);
    var text := FilledSheet(intro, intents, runs, answers);
    FeedEnd(intro, intents, runs, answers);
    SheetState(digit, intro, intents, runs, answers);
    FinalState(answers);
    LastItem(START, 1, answers);
    hide *;
    BlockAfter(digit, text, s, line, mark, length, inner, close, n, rest);
  }

  /** The same after any text that ends in a line break and leaves no fence open. */
  lemma BlockAfter(digit: DigitMap, text: string, s: State, line: string, mark: char, length: nat, inner: string,
                   close: string, n: nat, rest: string)
    requires text != "" && text[|text| - 1] == '\n'
    requires Sound(s) && s.fence.None? && Steps(digit, START, SplitLines(text)) == Ok(s)
    requires OneLine(line) && FenceLine(line, mark, length) && OneLine(close) && FenceLine(close, mark, n)
    requires n >= length && (inner == "" || inner[|inner| - 1] == '\n')
    requires forall l, m: nat :: l in SplitLines(inner) && FenceLine(l, mark, m) ==> m < length
    ensures ReadSheet(digit, text + line + "\n" + (inner + close + "\n" + rest)) == ReadSheet(digit, text + rest)
  {
    FenceExactly(line, mark, length);
    assert Step(digit, s, line) == Ok(s.(fence := Some(Fence(mark, length))));
    hide *;
    OneMoreLine(digit, text, line, inner + close + "\n" + rest, s);
    TextLines(inner, close, rest);
    BlockSteps(digit, s, mark, length, SplitLines(inner), close, n, SplitLines(rest));
    ReadOn(digit, text, rest, s);
  }

  /** A text that ends in a line break, read on from the state it leads to. */
  lemma ReadOn(digit: DigitMap, text: string, rest: string, s: State)
    requires text != "" && text[|text| - 1] == '\n'
    requires Sound(s) && Steps(digit, START, SplitLines(text)) == Ok(s)
    ensures var u := Steps(digit, s, SplitLines(rest));
            ReadSheet(digit, text + rest) == if u.Err? then Err(u.error) else Finish(u.value)
  {
    hide *;
    SheetIs(digit, text + rest);
    LinesThen(text, rest);
    StepsAppend(digit, START, SplitLines(text), SplitLines(rest));
  }

  lemma SheetIs(digit: DigitMap, text: string)
    ensures Sound(START)
    ensures var u := Steps(digit, START, SplitLines(text));
            ReadSheet(digit, text) == if u.Err? then Err(u.error) else Finish(u.value)
  {
    hide Steps, SplitLines, Finish;
  }

  /** An item heading is the fixed words, decimal digits and white space, nothing else. */
  ghost predicate HeadingOf(digit: DigitMap, line: string, digits: string, end: string) {
    && line == "## Item " + digits + end && digits != "" && Blank(end)
    && forall i :: 0 <= i < |digits| ==> digit(digits[i]).Some?
  }

  lemma HeadingExactly(digit: DigitMap, line: string)
    requires IsDigitMap(digit)
    ensures forall digits, end :: HeadingOf(digit, line, digits, end)
                                  ==> MatchHeading(digit, line) == DigitsValue(digit, digits)
    ensures MatchHeading(digit, line).Some? ==> exists digits, end :: HeadingOf(digit, line, digits, end)
  {
    hide DigitsValue, HeadingOf, MatchHeading;
    forall digits, end | HeadingOf(digit, line, digits, end)
      ensures MatchHeading(digit, line) == DigitsValue(digit, digits)
    {
      HeadingMatches(digit, line, digits, end);
    }
    if MatchHeading(digit, line).Some? {
      var digits, end := HeadingCut(digit, line);
    }
  }

  lemma HeadingMatches(digit: DigitMap, line: string, digits: string, end: string)
    requires IsDigitMap(digit) && HeadingOf(digit, line, digits, end)
    ensures MatchHeading(digit, line) == DigitsValue(digit, digits)
  {
    var rest := digits + end;
    LStripBlank(end);
    assert line[|HEADING|..] == rest && rest[|digits|..] == end && rest[..|digits|] == digits;
    assert end != "" ==> end[0] in end && rest[|digits|] == end[0];
    DigitRunStops(digit, rest, 0, |digits|);
    assert line == HEADING + rest;
    hide DigitsValue, LStrip, DigitRun;
  }

  lemma HeadingCut(digit: DigitMap, line: string) returns (digits: string, end: string)
    requires MatchHeading(digit, line).Some?
    ensures HeadingOf(digit, line, digits, end)
  {
    var rest := line[|HEADING|..];
    var n := DigitRun(digit, rest, 0);
    digits, end := rest[..n], rest[n..];
    LStripBlank(end);
    DigitRunFacts(digit, rest, 0);
    hide DigitsValue, LStrip, DigitRun;
    assert rest == digits + end;
    assert line == "## Item " + digits + end;
  }

  lemma {:induction false} DigitRunFacts(digit: DigitMap, s: string, i: nat)
    requires i <= |s|
    ensures forall k :: i <= k < DigitRun(digit, s, i) ==> digit(s[k]).Some?
    decreases |s| - i
  {
    if i < |s| && digit(s[i]).Some? {
      DigitRunFacts(digit, s, i + 1);
    }
  }

  // ---------------------------------------------------------------- the rendered text

  predicate RunAt(s: string, i: nat, n: nat) {
    i + n <= |s| && forall k :: i <= k < i + n ==> s[k] == '`'
  }

  ghost predicate HasRun(s: string, n: nat) {
    exists i: nat :: RunAt(s, i, n)
  }

  lemma {:induction false} LongestIs(s: string, n: nat)
    requires n > 0
    ensures LongestRun(s) >= n <==> HasRun(s, n)
  {
    RunFacts(s, '`');
    if s != "" {
      LongestIs(s[1..], n);
      if HasRun(s[1..], n) {
        var i: nat :| RunAt(s[1..], i, n);
        assert RunAt(s, i + 1, n);
      }
      if RunLength(s, '`') >= n {
        assert RunAt(s, 0, n);
      }
      if HasRun(s, n) {
        var i: nat :| RunAt(s, i, n);
        if i > 0 {
          assert RunAt(s[1..], i - 1, n);
        }
      }
    }
  }

  /** The fence around an output: backticks, three at least, more than any run in the output, and no more than
      that takes. */
  lemma FenceFits(output: string)
    ensures var fence := FenceFor(output);
            && RunAt(fence, 0, |fence|) && |fence| >= 3
            && !HasRun(output, |fence|)
            && (|fence| > 3 ==> HasRun(output, |fence| - 1))
  {
    var n := FenceLength(output);
    LongestIs(output, n);
    LongestIs(output, n - 1);
    hide LongestRun;
  }

  /** Lines, each ended by a line feed. */
  function Ended(lines: seq<string>): string {
    if lines == [] then "" else lines[0] + "\n" + Ended(lines[1..])
  }

  lemma {:induction false} JoinEnded(lines: seq<string>)
    requires lines != []
    ensures Join("\n", lines) + "\n" == Ended(lines)
  {
    if |lines| > 1 {
      JoinEnded(lines[1..]);
      assert lines[0] + "\n" + Join("\n", lines[1..]) + "\n" == lines[0] + "\n" + (Join("\n", lines[1..]) + "\n");
    } else {
      assert Ended(lines[1..]) == "";
      assert lines[0] + "\n" + "" == lines[0] + "\n";
    }
  }

  lemma {:induction false} EndedAppend(a: seq<string>, b: seq<string>)
    ensures Ended(a + b) == Ended(a) + Ended(b)
  {
    if a == [] {
      assert a + b == b;
    } else {
      assert (a + b)[1..] == a[1..] + b;
      EndedAppend(a[1..], b);
    }
  }

  /** One item of the sheet: its number, the intent, the output as it is between two fences, and the labels. */
  ghost function ItemOnSheet(number: nat, intent: string, output: string, a: Answer): string {
    var fence := FenceFor(output);
    Ended(["",
           "## Item " + NatText(number),
           "",
           "### Rubric intent",
           "",
           intent,
           "",
           "### Agent output (verbatim)",
           "",
           fence + "\n" + (if EndsInFeed(output) then output else output + "\n") + fence,
           "",
           "### Human label",
           "",
           "verdict:" + a.verdict,
           "reason:" + a.reason])
  }

  ghost predicate EndsInFeed(s: string) {
    exists stem :: s == stem + "\n"
  }

  ghost function ItemsOnSheet(intents: map<string, string>, runs: seq<Run>, answers: seq<Answer>): string
    requires |answers| == |runs| && Known(intents, runs)
  {
    if runs == [] then ""
    else
      var k := |runs| - 1;
      assert runs[k] in runs;
      ItemsOnSheet(intents, runs[..k], answers[..k])
      + ItemOnSheet(|runs|, intents[runs[k].caseId], runs[k].output, answers[k])
  }

  lemma ItemText(number: nat, intent: string, output: string, a: Answer)
    ensures Ended(ItemSections(number, intent, output, a)) == ItemOnSheet(number, intent, output, a)
  {
    hide NatText, FenceFor, Ended;
    FeedIs(output);
    BlockIs(output, FenceFor(output));
    hide EndsInFeed, OutputBlock;
  }

  lemma FeedIs(s: string)
    ensures EndsInFeed(s) <==> s != "" && s[|s| - 1] == '\n'
  {
    if s != "" && s[|s| - 1] == '\n' {
      assert s == s[..|s| - 1] + "\n";
    }
  }

  lemma BlockIs(output: string, fence: string)
    requires fence == FenceFor(output)
    ensures OutputBlock(output) == fence + "\n" + (if EndsInFeed(output) then output else output + "\n") + fence
  {
    FeedIs(output);
    hide FenceFor, EndsInFeed;
    var end := if EndsInFeed(output) then "" else "\n";
    assert output + "" == output;
    assert fence + "\n" + output + end + fence == fence + "\n" + (output + end) + fence;
  }

  lemma {:induction false} SectionsText(intents: map<string, string>, runs: seq<Run>, answers: seq<Answer>,
                                        done: seq<Run>, before: seq<Answer>)
    requires |answers| == |runs| && |before| == |done| && Known(intents, runs) && Known(intents, done)
    ensures Known(intents, done + runs)
    ensures ItemsOnSheet(intents, done, before) + Ended(ItemsSections(intents, runs, answers, |done| + 1))
            == ItemsOnSheet(intents, done + runs, before + answers)
    decreases |runs|
  {
    hide ItemSections, ItemOnSheet, ItemsOnSheet, Ended;
    if runs == [] {
      assert done + runs == done && before + answers == before;
      NoText(ItemsOnSheet(intents, done, before));
    } else {
      assert runs[0] in runs;
      var intent, output := intents[runs[0].caseId], runs[0].output;
      var more, others := done + [runs[0]], before + [answers[0]];
      var item := ItemSections(|done| + 1, intent, output, answers[0]);
      var rest := ItemsSections(intents, runs[1..], answers[1..], |done| + 2);
      ItemText(|done| + 1, intent, output, answers[0]);
      EndedAppend(item, rest);
      OneMoreItem(intents, done, before, runs[0], answers[0]);
      SectionsText(intents, runs[1..], answers[1..], more, others);
      assert more + runs[1..] == done + runs && others + answers[1..] == before + answers;
      Grouped(ItemsOnSheet(intents, done, before), Ended(item), Ended(rest));
    }
  }

  lemma NoText(s: string)
    ensures Ended([]) == "" && s + "" == s && "" + s == s
  {
  }

  lemma OneMoreItem(intents: map<string, string>, done: seq<Run>, before: seq<Answer>, r: Run, a: Answer)
    requires |before| == |done| && Known(intents, done) && r.caseId in intents
    ensures Known(intents, done + [r])
    ensures ItemsOnSheet(intents, done + [r], before + [a])
            == ItemsOnSheet(intents, done, before) + ItemOnSheet(|done| + 1, intents[r.caseId], r.output, a)
  {
    hide ItemOnSheet;
    assert (done + [r])[..|done|] == done && (before + [a])[..|done|] == before;
  }

  /** The whole sheet: the introduction, and item after item. */
  lemma SheetText(intro: seq<string>, intents: map<string, string>, runs: seq<Run>, answers: seq<Answer>)
    requires |answers| == |runs| && Known(intents, runs) && intro != []
    ensures FilledSheet(intro, intents, runs, answers) == Ended(intro) + ItemsOnSheet(intents, runs, answers)
  {
    var items := ItemsSections(intents, runs, answers, 1);
    assert ItemsOnSheet(intents, [], []) == "";
    hide ItemsSections, ItemsOnSheet, Ended, Join;
    JoinEnded(intro + items);
    EndedAppend(intro, items);
    SectionsText(intents, runs, answers, [], []);
    assert [] + runs == runs && [] + answers == answers;
    NoText(Ended(items));
  }
}
