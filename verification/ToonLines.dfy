/** The lines of a TOON text: array headers, object-member lines and indentation. */
module ToonLines {
  import opened Options
  import opened Text
  import opened ToonScalars
  import JsonText

  /** A non-blank line, as the decoder keeps it: its depth and its stripped text. */
  datatype Line = Line(indent: nat, text: string)

  predicate IsItem(text: string) {
    text == "-" || "- " <= text
  }

  // ---------------------------------------------------------------- array headers

  datatype Header = Header(count: nat, fields: Option<seq<string>>, inline: Option<string>)

  /** The first place of `c` at or after `i`, or the length of `s`. */
  function Find(s: string, c: char, i: nat): (j: nat)
    requires i <= |s|
    ensures i <= j <= |s|
    decreases |s| - i
  {
    if i < |s| && s[i] != c then Find(s, c, i + 1) else i
  }

  /** The three groups of the header pattern: digits in brackets, an optional field list in braces,
      and what follows the colon. A line holds no line feed, so the last group is all the rest. */
  function MatchHeader(digit: DigitMap, text: string): Option<(string, Option<string>, string)> {
    if text == "" || text[0] != '[' then None
    else
      var k := DigitRun(digit, text, 1);
      if k == 1 || k == |text| || text[k] != ']' then None
      else
        var group := MatchFields(text[k + 1..]);
        if group.None? then None else Some((text[1..k], group.value.0, group.value.1))
  }

  function MatchFields(rest: string): Option<(Option<string>, string)> {
    if rest == "" then None
    else if rest[0] == ':' then Some((None, rest[1..]))
    else if rest[0] != '{' then None
    else
      var j := Find(rest, '}', 1);
      if j + 1 < |rest| && rest[j + 1] == ':' then Some((Some(rest[1..j]), rest[j + 2..])) else None
  }

  /** The payload after a colon: nothing, or its text without the leading blanks. */
  function Payload(raw: string): Option<string> {
    if Strip(raw) == "" then None else Some(LStripBlanks(raw))
  }

  function ParseArrayHeader(digit: DigitMap, text: string): Decoded<Header> {
    match MatchHeader(digit, text)
    case None => Err(MalformedHeader)
    case Some((count, fields, tail)) =>
      var n := ParseInt(digit, count);
      if n.None? || n.value < 0 then Err(MalformedHeader)
      else
        Ok(Header(n.value, if fields.None? then None else Some(SplitTop(fields.value)), Payload(tail)))
  }

  // ---------------------------------------------------------------- member lines

  /** How many characters a quoted span still takes, its closing quote included. */
  function QuoteSpan(s: string): (n: nat)
    ensures n <= |s|
  {
    if s == "" then 0
    else if s[0] == '\\' then (if |s| == 1 then 1 else 2 + QuoteSpan(s[2..]))
    else if s[0] == '"' then 1
    else 1 + QuoteSpan(s[1..])
  }

  function ReadQuoted(text: string): Decoded<(string, string)>
    requires text != ""
  {
    var e := 1 + QuoteSpan(text[1..]);
    var key :- LoadsString(text[..e]);
    Ok((key, text[e..]))
  }

  /** Where an unquoted key ends. */
  function KeyEnd(text: string, j: nat): (k: nat)
    requires j <= |text|
    ensures j <= k <= |text|
    decreases |text| - j
  {
    if j < |text| && text[j] != '[' && text[j] != ':' then KeyEnd(text, j + 1) else j
  }

  /** What a member line holds after its key, or an item line after its marker: an array header, a
      scalar, or the start of a nested object. */
  datatype ValueTail = ArrayTail(header: Header) | ScalarTail(token: string) | ObjectTail

  function ParseTail(digit: DigitMap, rest: string): Decoded<ValueTail> {
    if rest != "" && rest[0] == '[' then
      var h :- ParseArrayHeader(digit, rest);
      Ok(ArrayTail(h))
    else
      var inline := Payload(if rest == "" then "" else rest[1..]);
      Ok(if inline.None? then ObjectTail else ScalarTail(inline.value))
  }

  function SplitKey(text: string): Decoded<(string, string)> {
    if text != "" && text[0] == '"' then ReadQuoted(text)
    else
      var j := KeyEnd(text, 0);
      Ok((text[..j], text[j..]))
  }

  function ParseMember(digit: DigitMap, text: string): Decoded<(string, ValueTail)> {
    var kr :- SplitKey(text);
    var tail :- ParseTail(digit, kr.1);
    Ok((kr.0, tail))
  }

  function ParseItem(digit: DigitMap, text: string): Decoded<ValueTail> {
    if text == "-" then Ok(ObjectTail)
    else
      var rest := if |text| <= 2 then "" else text[2..];
      if MatchHeader(digit, rest).Some? then
        var h :- ParseArrayHeader(digit, rest);
        Ok(ArrayTail(h))
      else Ok(ScalarTail(rest))
  }

  // ---------------------------------------------------------------- splitting text into lines

  /** Leading plain spaces, two to a level; blank lines are dropped. */
  function ReadLines(raws: seq<string>): seq<Line> {
    if raws == [] then []
    else if Strip(raws[0]) == "" then ReadLines(raws[1..])
    else [ReadLine(raws[0])] + ReadLines(raws[1..])
  }

  function ReadLine(raw: string): Line {
    Line((|raw| - |LStripBlanks(raw)|) / 2, Strip(raw))
  }

  function Render(line: Line): string {
    Blanks(2 * line.indent) + line.text
  }

  function RenderAll(lines: seq<Line>): (r: seq<string>)
    ensures |r| == |lines|
    ensures forall i :: 0 <= i < |lines| ==> r[i] == Render(lines[i])
  {
    seq(|lines|, i requires 0 <= i < |lines| => Render(lines[i]))
  }

  predicate IsLineText(text: string) {
    Tight(text) && '\n' !in text
  }

  predicate AllLineTexts(lines: seq<Line>) {
    forall l :: l in lines ==> IsLineText(l.text)
  }

  // ---------------------------------------------------------------- properties

  /** A printed line reads back with its depth and its text. */
  lemma ReadRendered(line: Line)
    requires IsLineText(line.text)
    ensures Strip(Render(line)) != "" && ReadLine(Render(line)) == line
    ensures '\n' !in Render(line)
  {
    var (n, t) := (2 * line.indent, line.text);
    StripPadded(n, t);
    assert RStrip(t) == t;
    forall i | 0 <= i < |Render(line)| ensures Render(line)[i] != '\n' {
      if i >= n { assert Render(line)[i] == t[i - n]; }
    }
  }

  lemma {:induction false} ReadRenderedAll(lines: seq<Line>)
    requires AllLineTexts(lines)
    ensures ReadLines(RenderAll(lines)) == lines
  {
    if lines != [] {
      var raws := RenderAll(lines);
      ReadRendered(lines[0]);
      ReadRenderedAll(lines[1..]);
      assert raws[1..] == RenderAll(lines[1..]);
      assert ReadLines(raws) == [lines[0]] + ReadLines(raws[1..]);
    }
  }

  /** Joining printed lines with line feeds and splitting them again gives the same lines. */
  lemma TextRoundTrip(lines: seq<Line>)
    requires AllLineTexts(lines)
    ensures ReadLines(SplitOn(Join("\n", RenderAll(lines)), '\n', "")) == lines
  {
    var raws := RenderAll(lines);
    if lines == [] {
      assert SplitOn(Join("\n", raws), '\n', "") == [""];
      assert ReadLines([""]) == ReadLines([""][1..]);
    } else {
      forall i | 0 <= i < |raws| ensures '\n' !in raws[i] {
        ReadRendered(lines[i]);
      }
      SplitJoin(raws, '\n');
      ReadRenderedAll(lines);
    }
  }

  lemma {:induction false} FindStops(s: string, c: char, i: nat, j: nat)
    requires i <= j < |s| && s[j] == c && forall k :: i <= k < j ==> s[k] != c
    ensures Find(s, c, i) == j
    decreases j - i
  {
    if i < j {
      FindStops(s, c, i + 1, j);
    }
  }

  function CountText(n: nat): string {
    "[" + NatText(n) + "]"
  }

  /** The count of a printed header is found again, whatever follows it. */
  lemma CountRead(digit: DigitMap, n: nat, rest: string)
    requires IsDigitMap(digit)
    ensures MatchHeader(digit, CountText(n) + rest)
         == var group := MatchFields(rest);
            if group.None? then None else Some((NatText(n), group.value.0, group.value.1))
  {
    var s := CountText(n) + rest;
    var j := 1 + |NatText(n)|;
    forall k | 1 <= k < j ensures digit(s[k]).Some? {
      assert s[k] == NatText(n)[k - 1] && NatText(n)[k - 1] in NatText(n);
    }
    DigitRunStops(digit, s, 1, j);
    assert s[1..j] == NatText(n) && s[j] == ']' && s[j + 1..] == rest;
  }

  lemma PlainHeader(digit: DigitMap, n: nat, tail: string)
    requires IsDigitMap(digit)
    ensures MatchHeader(digit, CountText(n) + (":" + tail)).Some?
    ensures ParseArrayHeader(digit, CountText(n) + (":" + tail)) == Ok(Header(n, None, Payload(tail)))
  {
    CountRead(digit, n, ":" + tail);
    assert (":" + tail)[1..] == tail;
    IntTextValue(digit, n);
  }

  lemma TableHeader(digit: DigitMap, n: nat, names: string)
    requires IsDigitMap(digit) && '}' !in names
    ensures MatchHeader(digit, CountText(n) + ("{" + names + "}:")).Some?
    ensures ParseArrayHeader(digit, CountText(n) + ("{" + names + "}:"))
         == Ok(Header(n, Some(SplitTop(names)), None))
  {
    CountRead(digit, n, "{" + names + "}:");
    BraceGroup(names);
    IntTextValue(digit, n);
  }

  lemma BraceGroup(names: string)
    requires '}' !in names
    ensures MatchFields("{" + names + "}:") == Some((Some(names), ""))
  {
    var rest := "{" + names + "}:";
    FindStops(rest, '}', 1, 1 + |names|);
    assert rest[1..1 + |names|] == names && rest[3 + |names|..] == "";
  }

  lemma PayloadOfRow(row: string)
    requires Tight(row)
    ensures Payload(" " + row) == Some(row)
  {
    StripPadded(1, row);
    assert Blanks(1) + row == " " + row;
  }

  lemma {:induction false} QuoteSpanInert(body: string, rest: string)
    requires JsonText.Inert(body)
    ensures QuoteSpan(body + "\"" + rest) == |body| + 1
  {
    var s := body + "\"" + rest;
    if body != "" {
      var k := if body[0] == '\\' then 2 else 1;
      assert s[k..] == body[k..] + "\"" + rest;
      QuoteSpanInert(body[k..], rest);
    }
  }

  lemma {:induction false} KeyEndStops(text: string, j: nat, k: nat)
    requires j <= k < |text| && (text[k] == '[' || text[k] == ':')
    requires forall i :: j <= i < k ==> text[i] != '[' && text[i] != ':'
    ensures KeyEnd(text, j) == k
    decreases k - j
  {
    if j < k {
      KeyEndStops(text, j + 1, k);
    }
  }

  /** A printed key starts no item, no array header and no blank, and an unquoted one is a cell. */
  lemma EncKeyShape(k: string)
    ensures IsLineText(EncKey(k)) && EncKey(k)[0] != '-' && EncKey(k)[0] != '['
    ensures !KeyNeedsQuote(k) ==> IsCell(k) && '}' !in k
  {
    if KeyNeedsQuote(k) {
      QuoteIsCell(k);
    } else {
      StripTight(k);
      assert k[0] in k;
      assert '-' in "-#\"'" by { assert "-#\"'"[0] == '-'; }
    }
  }

  /** The key of a printed member line is found again, whatever characters it holds. */
  lemma KeyRoundTrip(k: string, rest: string)
    requires rest != "" && (rest[0] == '[' || rest[0] == ':')
    ensures SplitKey(EncKey(k) + rest) == Ok((k, rest))
  {
    if KeyNeedsQuote(k) {
      QuotedKeyRoundTrip(k, rest);
    } else {
      BareKeyRoundTrip(k, rest);
    }
  }

  lemma QuotedKeyRoundTrip(k: string, rest: string)
    ensures ReadQuoted(JsonText.Quote(k) + rest) == Ok((k, rest))
  {
    var text := JsonText.Quote(k) + rest;
    var body := JsonText.Escape(k);
    hide JsonText.Escape, JsonText.Loads, JsonText.Inert, QuoteSpan;
    JsonText.EscapeShape(k);
    JsonText.LoadsQuote(k);
    QuoteSpanInert(body, rest);
    assert text[1..] == body + "\"" + rest;
    assert text[..2 + |body|] == JsonText.Quote(k) && text[2 + |body|..] == rest;
  }

  lemma BareKeyRoundTrip(k: string, rest: string)
    requires !KeyNeedsQuote(k)
    requires rest != "" && (rest[0] == '[' || rest[0] == ':')
    ensures SplitKey(k + rest) == Ok((k, rest))
  {
    var text := k + rest;
    assert forall i :: 0 <= i < |k| ==> k[i] in k;
    KeyEndStops(text, 0, |k|);
    assert text[0] == k[0] && text[..|k|] == k && text[|k|..] == rest;
  }
}
