/** What the TOON decoder makes of text that the encoder would not have printed that way: blank lines,
    trailing white space, free spacing, repeated keys, and lines it does not expect. */
module ToonReading {
  import opened Collections
  import opened Options
  import opened Text
  import opened ToonScalars
  import opened ToonLines
  import opened ToonSpec
  import JsonReading
  import JsonText
  import ToonRoundTrip

  predicate Blank(s: string) {
    forall c :: c in s ==> IsSpace(c)
  }

  // ---------------------------------------------------------------- lines

  lemma BlankIs(raw: string)
    ensures Strip(raw) == "" <==> Blank(raw)
  {
    StripBlank(raw);
  }

  lemma {:induction false} ReadJoin(a: seq<string>, b: seq<string>)
    ensures ReadLines(a + b) == ReadLines(a) + ReadLines(b)
  {
    hide Strip, ReadLine;
    if a == [] {
      assert a + b == b;
    } else {
      assert (a + b)[0] == a[0] && (a + b)[1..] == a[1..] + b;
      ReadJoin(a[1..], b);
    }
  }

  /** The line stands for the raw one: half its leading blanks, and its text without the white space around. */
  predicate StandsFor(line: Line, raw: string, blanks: nat) {
    && blanks <= |raw| && line.indent == blanks / 2
    && (forall i :: 0 <= i < blanks ==> raw[i] == ' ') && (blanks < |raw| ==> raw[blanks] != ' ')
    && Tight(line.text)
    && exists i, j :: 0 <= i <= j <= |raw| && raw[i..j] == line.text && Blank(raw[..i]) && Blank(raw[j..])
  }

  lemma {:induction false} LeadingBlanks(raw: string)
    ensures var n := |raw| - |LStripBlanks(raw)|;
            && 0 <= n <= |raw| && LStripBlanks(raw) == raw[n..]
            && (forall i :: 0 <= i < n ==> raw[i] == ' ') && (n < |raw| ==> raw[n] != ' ')
  {
    if raw != "" && raw[0] == ' ' {
      LeadingBlanks(raw[1..]);
      assert forall i :: 0 < i < |raw| ==> raw[i] == raw[1..][i - 1];
    }
  }

  lemma {:induction false} LStripPart(s: string) returns (i: nat)
    ensures i <= |s| && LStrip(s) == s[i..] && Blank(s[..i])
  {
    hide IsSpace;
    if s != "" && IsSpace(s[0]) {
      var k := LStripPart(s[1..]);
      i := k + 1;
      assert s[..i] == [s[0]] + s[1..][..k] && s[1..][k..] == s[i..];
    } else {
      i := 0;
    }
  }

  lemma DropJoin(s: string, c: char, j: nat)
    requires j <= |s|
    ensures (s + [c])[j..] == s[j..] + [c] && (s + [c])[..j] == s[..j]
  {
  }

  lemma {:induction false} RStripPart(s: string) returns (j: nat)
    ensures j <= |s| && RStrip(s) == s[..j] && Blank(s[j..])
  {
    hide IsSpace;
    if s != "" && IsSpace(s[|s| - 1]) {
      var stem := s[..|s| - 1];
      j := RStripPart(stem);
      assert s == stem + [s[|s| - 1]];
      DropJoin(stem, s[|s| - 1], j);
    } else {
      j := |s|;
    }
  }

  ghost predicate Stands(line: Line, raw: string) {
    exists blanks: nat :: StandsFor(line, raw, blanks)
  }

  lemma LineStands(raw: string)
    requires !Blank(raw)
    ensures Stands(ReadLine(raw), raw)
  {
    BlankIs(raw);
    LeadingBlanks(raw);
    var blanks: nat := |raw| - |LStripBlanks(raw)|;
    StripTightens(raw);
    StripPart(raw);
    hide Strip, LStripBlanks, Blank;
    assert StandsFor(ReadLine(raw), raw, blanks);
  }

  lemma StripPart(raw: string)
    ensures exists i, j :: 0 <= i <= j <= |raw| && raw[i..j] == Strip(raw) && Blank(raw[..i]) && Blank(raw[j..])
  {
    var i := LStripPart(raw);
    var j := RStripPart(raw[i..]);
    hide LStrip, RStrip, Blank;
    assert raw[i..][..j] == raw[i..i + j] && raw[i..][j..] == raw[i + j..];
  }

  lemma StripTightens(raw: string)
    requires Strip(raw) != ""
    ensures Tight(Strip(raw))
  {
    var t := LStrip(raw);
    RStripKeeps(t);
    hide IsSpace, LStrip;
  }

  lemma {:induction false} LinesAt(raws: seq<string>, hit: string -> bool)
    requires forall raw :: hit(raw) <==> !Blank(raw)
    ensures |PlacesOf(raws, hit)| == |ReadLines(raws)|
    ensures forall i :: 0 <= i < |ReadLines(raws)| ==>
              PlacesOf(raws, hit)[i] < |raws| && Stands(ReadLines(raws)[i], raws[PlacesOf(raws, hit)[i]])
  {
    hide Blank, Stands, ReadLine, Strip;
    if raws != [] {
      var k := |raws| - 1;
      LinesAt(raws[..k], hit);
      ReadJoin(raws[..k], [raws[k]]);
      assert raws[..k] + [raws[k]] == raws && [raws[k]][1..] == [];
      BlankIs(raws[k]);
      if hit(raws[k]) {
        LineStands(raws[k]);
      }
      assert ReadLines([raws[k]]) == if hit(raws[k]) then [ReadLine(raws[k])] else [];
    }
  }

  /** The lines read are exactly the raw lines that are not blank, in their order. */
  lemma LinesExactly(raws: seq<string>) returns (places: seq<nat>)
    ensures Ascending(places) && |places| == |ReadLines(raws)|
    ensures forall k: nat :: k in places <==> k < |raws| && !Blank(raws[k])
    ensures forall i :: 0 <= i < |places| ==> places[i] < |raws| && Stands(ReadLines(raws)[i], raws[places[i]])
  {
    var hit := (raw: string) => !Blank(raw);
    places := PlacesOf(raws, hit);
    PlacesAre(raws, hit);
    LinesAt(raws, hit);
  }

  // ---------------------------------------------------------------- blank lines and trailing white space

  lemma {:induction false} SplitAt(a: string, c: char, b: string, buf: string)
    ensures SplitOn(a + [c] + b, c, buf) == SplitOn(a, c, buf) + SplitOn(b, c, "")
  {
    var s := a + [c] + b;
    if a == "" {
      assert s == [c] + b && s[1..] == b;
    } else {
      assert s[0] == a[0] && s[1..] == a[1..] + [c] + b;
      if a[0] == c {
        SplitAt(a[1..], c, b, "");
        assert [buf] + (SplitOn(a[1..], c, "") + SplitOn(b, c, ""))
            == [buf] + SplitOn(a[1..], c, "") + SplitOn(b, c, "");
      } else {
        SplitAt(a[1..], c, b, buf + [a[0]]);
      }
    }
  }

  /** The lines a text is read as. */
  function LinesOf(s: string): seq<Line> {
    ReadLines(SplitOn(s, '\n', ""))
  }

  lemma LinesJoin(x: string, y: string)
    ensures LinesOf(x + "\n" + y) == LinesOf(x) + LinesOf(y)
  {
    SplitAt(x, '\n', y, "");
    ReadJoin(SplitOn(x, '\n', ""), SplitOn(y, '\n', ""));
  }

  lemma {:induction false} PiecesBlank(s: string, buf: string)
    requires Blank(s) && Blank(buf)
    ensures forall p :: p in SplitOn(s, '\n', buf) ==> Blank(p)
  {
    if s != "" {
      assert s[0] in s;
      assert forall c :: c in s[1..] ==> c in s;
      hide IsSpace;
      if s[0] == '\n' {
        PiecesBlank(s[1..], "");
      } else {
        PiecesBlank(s[1..], buf + [s[0]]);
      }
    }
  }

  lemma {:induction false} NoneRead(raws: seq<string>)
    requires forall p :: p in raws ==> Blank(p)
    ensures ReadLines(raws) == []
  {
    if raws != [] {
      hide Blank, ReadLine;
      BlankIs(raws[0]);
      NoneRead(raws[1..]);
    }
  }

  lemma BlankUnread(w: string)
    requires Blank(w)
    ensures LinesOf(w) == []
  {
    PiecesBlank(w, "");
    NoneRead(SplitOn(w, '\n', ""));
  }

  /** White space alone is an empty object. */
  lemma BlankText(num: Numbers, w: string)
    requires Blank(w)
    ensures Decode(num, w) == Ok(Obj([]))
  {
    BlankUnread(w);
  }

  lemma SameLines(num: Numbers, s: string, t: string)
    requires LinesOf(s) == LinesOf(t)
    ensures Decode(num, s) == Decode(num, t)
  {
  }

  /** Blank lines change nothing, whatever white space they hold: between two lines, in front, or at the end. */
  lemma BlankLines(num: Numbers, x: string, w: string, y: string)
    requires Blank(w)
    ensures Decode(num, x + "\n" + w + "\n" + y) == Decode(num, x + "\n" + y)
    ensures Decode(num, w + "\n" + y) == Decode(num, y)
    ensures Decode(num, x + "\n" + w) == Decode(num, x)
  {
    hide *;
    BlankUnread(w);
    LinesJoin(x + "\n" + w, y);
    LinesJoin(x, w);
    LinesJoin(x, y);
    LinesJoin(w, y);
    assert LinesOf(x) + [] == LinesOf(x) && [] + LinesOf(y) == LinesOf(y);
    SameLines(num, x + "\n" + w + "\n" + y, x + "\n" + y);
    SameLines(num, w + "\n" + y, y);
    SameLines(num, x + "\n" + w, x);
  }

  /** White space after a line's text does not count. */
  lemma LineEnd(raw: string, w: string)
    requires Blank(w)
    ensures Blank(raw + w) <==> Blank(raw)
    ensures !Blank(raw) ==> ReadLine(raw + w) == ReadLine(raw)
  {
    if !Blank(raw) {
      var c :| c in raw && !IsSpace(c);
      assert c in raw + w;
      LStripOnto(raw, w);
      RStripAfter(LStrip(raw), w);
      BlanksOnto(raw, w);
      hide LStrip, RStrip, LStripBlanks, IsSpace;
    }
  }

  lemma {:induction false} LStripOnto(s: string, w: string)
    requires !Blank(s)
    ensures LStrip(s + w) == LStrip(s) + w
  {
    hide IsSpace;
    assert (s + w)[1..] == s[1..] + w;
    if IsSpace(s[0]) {
      assert s == [s[0]] + s[1..];
      LStripOnto(s[1..], w);
    }
  }

  lemma {:induction false} BlanksOnto(s: string, w: string)
    requires !Blank(s)
    ensures LStripBlanks(s + w) == LStripBlanks(s) + w
  {
    assert (s + w)[1..] == s[1..] + w;
    if s[0] == ' ' {
      assert s == [s[0]] + s[1..] && IsSpace(' ');
      BlanksOnto(s[1..], w);
    }
  }

  lemma {:induction false} SplitOnto(s: string, w: string, buf: string)
    requires '\n' !in w
    ensures var parts := SplitOn(s, '\n', buf);
            SplitOn(s + w, '\n', buf) == parts[..|parts| - 1] + [parts[|parts| - 1] + w]
  {
    if s == "" {
      SplitOnPiece(w, "", '\n', buf);
      assert s + w == w + "" && buf + w == buf + w;
    } else {
      assert (s + w)[1..] == s[1..] + w;
      if s[0] == '\n' {
        SplitOnto(s[1..], w, "");
      } else {
        SplitOnto(s[1..], w, buf + [s[0]]);
      }
    }
  }

  lemma LinesOnto(x: string, w: string)
    requires Blank(w) && '\n' !in w
    ensures LinesOf(x + w) == LinesOf(x)
  {
    var parts := SplitOn(x, '\n', "");
    var k := |parts| - 1;
    SplitOnto(x, w, "");
    LineEnd(parts[k], w);
    BlankIs(parts[k]);
    BlankIs(parts[k] + w);
    hide SplitOn, Blank, ReadLine, Strip;
    assert parts == parts[..k] + [parts[k]];
    ReadJoin(parts[..k], [parts[k]]);
    ReadJoin(parts[..k], [parts[k] + w]);
    assert [parts[k]][1..] == [] && [parts[k] + w][1..] == [];
  }

  /** White space at the end of a line changes nothing. */
  lemma TrailingSpace(num: Numbers, x: string, w: string, y: string)
    requires Blank(w) && '\n' !in w
    ensures Decode(num, x + w + "\n" + y) == Decode(num, x + "\n" + y)
    ensures Decode(num, x + w) == Decode(num, x)
  {
    hide *;
    LinesOnto(x, w);
    LinesJoin(x + w, y);
    LinesJoin(x, y);
    SameLines(num, x + w + "\n" + y, x + "\n" + y);
    SameLines(num, x + w, x);
  }

  /** The same raw lines with white space put behind them and blank lines put between them. */
  ghost predicate Respaced(raws: seq<string>, spaced: seq<string>) {
    if spaced == [] then raws == []
    else
      || (Blank(spaced[0]) && Respaced(raws, spaced[1..]))
      || (raws != [] && Trails(raws[0], spaced[0]) && Respaced(raws[1..], spaced[1..]))
  }

  predicate Trails(raw: string, spaced: string) {
    raw <= spaced && Blank(spaced[|raw|..])
  }

  lemma {:induction false} ReadRespaced(raws: seq<string>, spaced: seq<string>)
    requires Respaced(raws, spaced)
    ensures ReadLines(spaced) == ReadLines(raws)
    decreases |spaced|
  {
    hide Blank, ReadLine, Strip;
    if spaced != [] {
      BlankIs(spaced[0]);
      if Blank(spaced[0]) && Respaced(raws, spaced[1..]) {
        ReadRespaced(raws, spaced[1..]);
      } else {
        assert spaced[0] == raws[0] + spaced[0][|raws[0]|..];
        LineEnd(raws[0], spaced[0][|raws[0]|..]);
        BlankIs(raws[0]);
        ReadRespaced(raws[1..], spaced[1..]);
      }
    }
  }

  /** So an encoded text may be spaced out before it is read back. */
  lemma RoundTripSpaced(num: Numbers, v: Value, spaced: seq<string>)
    requires Lawful(num) && WellFormed(v) && !IsPrimitive(v)
    requires Encode(num, v).Ok? && Respaced(SplitOn(Encode(num, v).value, '\n', ""), spaced)
    requires spaced != [] && forall raw :: raw in spaced ==> '\n' !in raw
    ensures Decode(num, Join("\n", spaced)).Ok?
    ensures ToonRoundTrip.Meaning(Decode(num, Join("\n", spaced)).value) == ToonRoundTrip.Meaning(v)
  {
    hide Lawful, WellFormed, Respaced, Encode, ToonRoundTrip.Meaning, ReadLines, SplitOn, Decode;
    var text := Encode(num, v).value;
    ToonRoundTrip.RoundTrip(num, v);
    SplitJoin(spaced, '\n');
    ReadRespaced(SplitOn(text, '\n', ""), spaced);
    SameLines(num, Join("\n", spaced), text);
  }

  // ---------------------------------------------------------------- dictionaries

  lemma {:induction false} PutMembers(ms: seq<Member>, k: string, v: Value)
    requires DistinctKeys(ms)
    ensures forall m :: m in Put(ms, k, v) <==> if m.key == k then m.value == v else m in ms
  {
    if ms != [] {
      var rest := ms[1..];
      forall m | m in rest ensures m.key != ms[0].key {
        var i :| 0 <= i < |rest| && rest[i] == m;
        assert ms[i + 1] == m;
      }
      assert forall m :: m in ms <==> m == ms[0] || m in rest;
      PutMembers(rest, k, v);
      hide DistinctKeys;
    }
  }

  lemma {:induction false} PutDistinct(ms: seq<Member>, k: string, v: Value)
    requires DistinctKeys(ms)
    ensures DistinctKeys(Put(ms, k, v))
  {
    if ms != [] && ms[0].key != k {
      var rest, put := ms[1..], Put(ms[1..], k, v);
      PutDistinct(rest, k, v);
      PutMembers(rest, k, v);
      forall i | 0 <= i < |put| ensures put[i].key != ms[0].key {
        assert put[i] in put;
        if put[i].key != k {
          var j :| 0 <= j < |rest| && rest[j] == put[i];
        }
      }
    }
  }

  /** `out[k] = v` for one pair after the other. */
  function PutEach(out: seq<Member>, keys: seq<string>, vs: seq<Value>): seq<Member>
    requires |keys| == |vs|
    decreases |keys|
  {
    if keys == [] then out else PutEach(Put(out, keys[0], vs[0]), keys[1..], vs[1..])
  }

  /** The last place of a key. */
  predicate LastAt(keys: seq<string>, k: string, i: nat) {
    i < |keys| && keys[i] == k && forall j :: i < j < |keys| ==> keys[j] != k
  }

  ghost predicate LastValue(keys: seq<string>, vs: seq<Value>, m: Member)
    requires |keys| == |vs|
  {
    exists i: nat :: LastAt(keys, m.key, i) && vs[i] == m.value
  }

  lemma {:induction false} PutEachIs(out: seq<Member>, keys: seq<string>, vs: seq<Value>)
    requires |keys| == |vs| && DistinctKeys(out)
    ensures DistinctKeys(PutEach(out, keys, vs))
    ensures forall m :: m in PutEach(out, keys, vs)
                        <==> LastValue(keys, vs, m) || (m.key !in keys && m in out)
    decreases |keys|
  {
    if keys != [] {
      hide DistinctKeys;
      var first := Put(out, keys[0], vs[0]);
      PutDistinct(out, keys[0], vs[0]);
      PutMembers(out, keys[0], vs[0]);
      PutEachIs(first, keys[1..], vs[1..]);
      forall m
        ensures m in PutEach(out, keys, vs) <==> LastValue(keys, vs, m) || (m.key !in keys && m in out)
      {
        LastInTail(keys, vs, m);
      }
    }
  }

  lemma LastInTail(keys: seq<string>, vs: seq<Value>, m: Member)
    requires |keys| == |vs| && keys != []
    ensures LastValue(keys, vs, m)
            <==> LastValue(keys[1..], vs[1..], m)
                 || (m.key !in keys[1..] && m.key == keys[0] && m.value == vs[0])
    ensures m.key in keys <==> m.key == keys[0] || m.key in keys[1..]
  {
    assert keys == [keys[0]] + keys[1..];
    if LastValue(keys, vs, m) {
      var i: nat :| LastAt(keys, m.key, i) && vs[i] == m.value;
      if i > 0 {
        assert LastAt(keys[1..], m.key, i - 1);
      }
    }
    if LastValue(keys[1..], vs[1..], m) {
      var i: nat :| LastAt(keys[1..], m.key, i) && vs[1..][i] == m.value;
      forall j | i + 1 < j < |keys| ensures keys[j] != m.key {
        assert keys[j] == keys[1..][j - 1];
      }
      assert LastAt(keys, m.key, i + 1);
    }
    if m.key !in keys[1..] && m.key == keys[0] && m.value == vs[0] {
      forall j | 0 < j < |keys| ensures keys[j] != m.key {
        assert keys[j] == keys[1..][j - 1];
      }
      assert LastAt(keys, m.key, 0);
    }
  }

  // ---------------------------------------------------------------- members as a model may write them

  /** A line `key:value` with any number of blanks after the colon. */
  datatype Written = Written(key: string, gap: nat, token: string)

  function WrittenText(w: Written): string {
    w.key + (":" + (Blanks(w.gap) + w.token))
  }

  /** A key without quotes, colons and brackets, and a value on the same line. */
  predicate Plain(w: Written) {
    && '\n' !in w.key && '[' !in w.key && ':' !in w.key
    && (w.key != "" ==> !IsSpace(w.key[0]) && w.key[0] != '"')
    && !("- " <= w.key)
    && IsLineText(w.token)
  }

  lemma PlainLine(digit: DigitMap, w: Written)
    requires Plain(w)
    ensures IsLineText(WrittenText(w)) && !IsItem(WrittenText(w)) && WrittenText(w)[0] != '['
    ensures ParseMember(digit, WrittenText(w)) == Ok((w.key, ScalarTail(w.token)))
  {
    PlainShape(w);
    PlainKey(w);
    PlainPayload(digit, w);
    hide Plain, IsLineText, IsItem, SplitKey, ParseTail, Blanks;
  }

  lemma PlainShape(w: Written)
    requires Plain(w)
    ensures IsLineText(WrittenText(w)) && !IsItem(WrittenText(w)) && WrittenText(w)[0] != '['
  {
    var text := WrittenText(w);
    assert text[|text| - 1] == w.token[|w.token| - 1];
    assert text[0] == if w.key == "" then ':' else w.key[0];
    assert ':' in text by { assert text[|w.key|] == ':'; }
    assert |w.key| > 1 ==> text[1] == w.key[1];
    assert text != "-";
    hide IsSpace;
  }

  lemma PlainKey(w: Written)
    requires Plain(w)
    ensures SplitKey(WrittenText(w)) == Ok((w.key, ":" + (Blanks(w.gap) + w.token)))
  {
    var text, rest := WrittenText(w), ":" + (Blanks(w.gap) + w.token);
    forall i | 0 <= i < |w.key| ensures text[i] != '[' && text[i] != ':' {
      assert text[i] in w.key;
    }
    assert text[|w.key|] == ':';
    KeyEndStops(text, 0, |w.key|);
    assert text[0] == if w.key == "" then ':' else w.key[0];
    assert text[..|w.key|] == w.key && text[|w.key|..] == rest;
    hide Blanks, KeyEnd, IsSpace;
  }

  lemma PlainPayload(digit: DigitMap, w: Written)
    requires Plain(w)
    ensures ParseTail(digit, ":" + (Blanks(w.gap) + w.token)) == Ok(ScalarTail(w.token))
  {
    StripPadded(w.gap, w.token);
    var rest := ":" + (Blanks(w.gap) + w.token);
    assert rest[1..] == Blanks(w.gap) + w.token;
    hide LStrip, LStripBlanks, Blanks, IsSpace, ParseArrayHeader;
  }

  function WrittenLines(ws: seq<Written>): (r: seq<Line>)
    ensures |r| == |ws|
    ensures forall i :: 0 <= i < |ws| ==> r[i] == Line(0, WrittenText(ws[i]))
  {
    seq(|ws|, i requires 0 <= i < |ws| => Line(0, WrittenText(ws[i])))
  }

  function KeysWritten(ws: seq<Written>): (r: seq<string>)
    ensures |r| == |ws| && forall i :: 0 <= i < |ws| ==> r[i] == ws[i].key
  {
    seq(|ws|, i requires 0 <= i < |ws| => ws[i].key)
  }

  /** The lines end what the decoder takes for members at the top level. */
  predicate NoMember(ls: seq<Line>) {
    ls != [] ==> ls[0].indent != 0 || IsItem(ls[0].text)
  }

  lemma {:induction false} MembersRead(num: Numbers, ws: seq<Written>, vs: seq<Value>, rest: seq<Line>,
                                       out: seq<Member>)
    requires |vs| == |ws| && NoMember(rest)
    requires forall i :: 0 <= i < |ws| ==> Plain(ws[i]) && DecScalar(num, ws[i].token) == Ok(vs[i])
    ensures DecMembers(num, WrittenLines(ws) + rest, 0, out) == Ok((PutEach(out, KeysWritten(ws), vs), rest))
    decreases |ws|
  {
    hide Plain, IsItem, ParseMember, DecScalar, Put;
    if ws == [] {
      assert WrittenLines(ws) + rest == rest;
    } else {
      var line, more := Line(0, WrittenText(ws[0])), WrittenLines(ws[1..]);
      PlainLine(num.digit, ws[0]);
      assert WrittenLines(ws) + rest == [line] + (more + rest);
      assert KeysWritten(ws)[1..] == KeysWritten(ws[1..]);
      assert DecBlock(num, more + rest, 0, ScalarTail(ws[0].token)) == Ok((vs[0], more + rest));
      hide DecMembers, DecBlock, WrittenText;
      ToonRoundTrip.MembersStep(num, line, more + rest, 0, out);
      MembersRead(num, ws[1..], vs[1..], rest, Put(out, ws[0].key, vs[0]));
    }
  }

  function WrittenTexts(ws: seq<Written>): (r: seq<string>)
    ensures |r| == |ws| && forall i :: 0 <= i < |ws| ==> r[i] == WrittenText(ws[i])
  {
    seq(|ws|, i requires 0 <= i < |ws| => WrittenText(ws[i]))
  }

  lemma WrittenRead(ws: seq<Written>)
    requires ws != [] && forall i :: 0 <= i < |ws| ==> Plain(ws[i])
    ensures LinesOf(Join("\n", WrittenTexts(ws))) == WrittenLines(ws)
  {
    var lines := WrittenLines(ws);
    forall i | 0 <= i < |lines| ensures IsLineText(lines[i].text) && Render(lines[i]) == lines[i].text {
      PlainShape(ws[i]);
      assert Blanks(2 * lines[i].indent) + lines[i].text == lines[i].text;
    }
    hide IsLineText, Render;
    assert RenderAll(lines) == WrittenTexts(ws);
    TextRoundTrip(lines);
  }

  /** Lines `key:value` are read as an object, with or without blanks after the colon: each key once, with
      the value of its last line. What follows from the first line that is deeper, or an item, is not read. */
  lemma MembersText(num: Numbers, ws: seq<Written>, vs: seq<Value>, rest: string)
    requires ws != [] && |vs| == |ws| && NoMember(LinesOf(rest))
    requires forall i :: 0 <= i < |ws| ==> Plain(ws[i]) && DecScalar(num, ws[i].token) == Ok(vs[i])
    ensures var r := Decode(num, Join("\n", WrittenTexts(ws)) + "\n" + rest);
            && r.Ok? && r.value.Obj? && DistinctKeys(r.value.members)
            && forall m :: m in r.value.members <==> LastValue(KeysWritten(ws), vs, m)
  {
    hide Plain, NoMember, LinesOf, DecMembers, DecScalar, LastValue, DistinctKeys, WrittenText, Join, MatchHeader;
    WrittenRead(ws);
    LinesJoin(Join("\n", WrittenTexts(ws)), rest);
    MembersRead(num, ws, vs, LinesOf(rest), []);
    NoKeys();
    PutEachIs([], KeysWritten(ws), vs);
    PlainLine(num.digit, ws[0]);
    var lines := WrittenLines(ws) + LinesOf(rest);
    assert lines[0] == Line(0, WrittenText(ws[0]));
    ToonRoundTrip.ObjectStart(num, lines, lines[0]);
    DecodeIs(num, Join("\n", WrittenTexts(ws)) + "\n" + rest);
  }

  lemma NoKeys()
    ensures DistinctKeys([])
  {
  }

  lemma DecodeIs(num: Numbers, s: string)
    ensures DecodeLines(num, LinesOf(s)).Ok? ==> Decode(num, s) == Ok(DecodeLines(num, LinesOf(s)).value.0)
    ensures DecodeLines(num, LinesOf(s)).Err? ==> Decode(num, s) == Err(DecodeLines(num, LinesOf(s)).error)
  {
    hide DecodeLines;
  }

  // ---------------------------------------------------------------- rows as a model may write them

  /** Cells with white space put around them. */
  predicate Spread(cells: seq<string>, texts: seq<string>) {
    |texts| == |cells| && forall i :: 0 <= i < |cells| ==> SpreadCell(cells[i], texts[i])
  }

  predicate SpreadCell(cell: string, text: string) {
    IsCell(cell) && exists i :: 0 <= i <= |text| - |cell| && SpreadAt(cell, text, i)
  }

  predicate SpreadAt(cell: string, text: string, i: nat)
    requires i + |cell| <= |text|
  {
    text[i..i + |cell|] == cell && Blank(text[..i]) && Blank(text[i + |cell|..])
  }

  lemma BlankBare(w: string)
    requires Blank(w)
    ensures ',' !in w && '"' !in w
  {
  }

  /** A spread cell is scanned whole, and strips to the cell. */
  lemma ScanSpread(cell: string, text: string, rest: string)
    requires SpreadCell(cell, text)
    ensures SplitScan(text + rest, ',', false, "") == SplitScan(rest, ',', false, text)
    ensures Strip(text) == cell
  {
    var i :| 0 <= i <= |text| - |cell| && SpreadAt(cell, text, i);
    var before, after := text[..i], text[i + |cell|..];
    ThreeParts(cell, text, i, rest);
    BlankBare(before);
    BlankBare(after);
    CellTight(cell);
    StripAround(before, cell, after);
    hide IsCell, SplitScan, Strip, Blank, SpreadCell, Tight;
    ScanBare(before, cell + (after + rest), ',', "");
    ScanCell(cell, after + rest, "" + before);
    ScanBare(after, rest, ',', "" + before + cell);
  }

  lemma ThreeParts(cell: string, text: string, i: nat, rest: string)
    requires i + |cell| <= |text| && SpreadAt(cell, text, i)
    ensures text == text[..i] + cell + text[i + |cell|..]
    ensures text + rest == text[..i] + (cell + (text[i + |cell|..] + rest))
    ensures "" + text[..i] + cell + text[i + |cell|..] == text
  {
  }

  lemma CellTight(cell: string)
    requires IsCell(cell)
    ensures Tight(cell)
  {
  }

  lemma {:induction false} ScanSpreadRow(cells: seq<string>, texts: seq<string>)
    requires cells != [] && Spread(cells, texts)
    ensures SplitScan(Join(",", texts), ',', false, "") == texts
  {
    hide SpreadCell;
    var t := texts[0];
    if |cells| == 1 {
      ScanSpread(cells[0], t, "");
      assert t + "" == t && texts == [t];
    } else {
      var tail := Join(",", texts[1..]);
      assert t + "," + tail == t + ("," + tail);
      ScanSpread(cells[0], t, "," + tail);
      assert ("," + tail)[1..] == tail;
      ScanSpreadRow(cells[1..], texts[1..]);
      assert [t] + texts[1..] == texts;
    }
  }

  /** White space around the commas of a row does not count. */
  lemma SpreadRow(cells: seq<string>, texts: seq<string>)
    requires cells != [] && Spread(cells, texts)
    ensures SplitTop(Join(",", texts)) == cells
  {
    ScanSpreadRow(cells, texts);
    hide SpreadCell, SplitScan, Strip, Join;
    forall i | 0 <= i < |cells| ensures Strip(texts[i]) == cells[i] {
      ScanSpread(cells[i], texts[i], "");
    }
    assert StripAll(texts) == cells;
  }

  /** A spread row that is one line of text. */
  predicate RowLine(cells: seq<string>, row: string) {
    cells != [] && IsLineText(row) && SplitTop(row) == cells
  }

  lemma SpreadRowLine(cells: seq<string>, texts: seq<string>)
    requires cells != [] && Spread(cells, texts) && IsLineText(Join(",", texts))
    ensures RowLine(cells, Join(",", texts))
  {
    SpreadRow(cells, texts);
  }

  lemma LineRead(line: Line)
    requires IsLineText(line.text)
    ensures LinesOf(Render(line)) == [line]
  {
    TextRoundTrip([line]);
    assert RenderAll([line]) == [Render(line)];
  }

  predicate DigitText(digit: DigitMap, s: string) {
    s != "" && forall i :: 0 <= i < |s| ==> digit(s[i]).Some?
  }

  lemma DigitHeader(digit: DigitMap, count: string, tail: string)
    requires IsDigitMap(digit) && DigitText(digit, count)
    ensures MatchHeader(digit, "[" + count + "]:" + tail) == Some((count, None, tail))
  {
    var s := "[" + count + "]:" + tail;
    var j := 1 + |count|;
    assert s == "[" + count + ("]:" + tail);
    forall k | 1 <= k < j ensures digit(s[k]).Some? {
      assert s[k] == count[k - 1];
    }
    assert digit(']').None?;
    DigitRunStops(digit, s, 1, j);
    assert s[1..j] == count && s[j] == ']' && s[j + 1..] == ":" + tail && (":" + tail)[1..] == tail;
  }

  lemma {:induction false} DigitTextValue(digit: DigitMap, s: string)
    requires IsDigitMap(digit) && DigitText(digit, s)
    ensures DigitsValue(digit, s).Some? && ParseInt(digit, s).Some? && ParseInt(digit, s).value >= 0
  {
    DigitTextDigits(digit, s);
    SignedInt(digit, "", s, "");
    assert "" + s + "" == s;
  }

  lemma {:induction false} DigitTextDigits(digit: DigitMap, s: string)
    requires IsDigitMap(digit) && DigitText(digit, s)
    ensures DigitsValue(digit, s).Some?
  {
    if |s| > 1 {
      UnderscoreIsNone(digit);
      assert s[|s| - 2] != '_';
      DigitTextDigits(digit, s[..|s| - 1]);
    }
  }

  /** An array on one line: the values of the row, however it is spaced, and whatever number stands in the
      brackets. */
  lemma InlineText(num: Numbers, count: string, gap: nat, cells: seq<string>, row: string, vs: seq<Value>,
                   rest: string)
    requires IsDigitMap(num.digit) && DigitText(num.digit, count)
    requires RowLine(cells, row) && DecCells(num, cells) == Ok(vs)
    ensures Decode(num, "[" + count + "]:" + (Blanks(gap) + row) + "\n" + rest) == Ok(List(vs))
  {
    var text := "[" + count + "]:" + (Blanks(gap) + row);
    DigitHeader(num.digit, count, Blanks(gap) + row);
    DigitTextValue(num.digit, count);
    StripPadded(gap, row);
    InlineLine(num, count, gap, row);
    LinesJoin(text, rest);
    hide *;
    InlineArray(num, text, count, Blanks(gap) + row, cells, row, vs, LinesOf(rest));
    DecodeIs(num, text + "\n" + rest);
  }

  lemma InlineArray(num: Numbers, text: string, count: string, tail: string, cells: seq<string>, row: string,
                    vs: seq<Value>, more: seq<Line>)
    requires MatchHeader(num.digit, text) == Some((count, None, tail))
    requires ParseInt(num.digit, count).Some? && ParseInt(num.digit, count).value >= 0
    requires Payload(tail) == Some(row) && RowLine(cells, row) && DecCells(num, cells) == Ok(vs)
    ensures DecodeLines(num, [Line(0, text)] + more) == Ok((List(vs), more))
  {
    hide MatchHeader, ParseInt, Payload, SplitTop, DecCells, DecMembers, DecRows, DecItems, DecodeLines;
    HeaderThen(num, text, Header(ParseInt(num.digit, count).value, None, Some(row)), more);
  }

  lemma InlineLine(num: Numbers, count: string, gap: nat, row: string)
    requires IsDigitMap(num.digit) && DigitText(num.digit, count) && IsLineText(row)
    ensures LinesOf("[" + count + "]:" + (Blanks(gap) + row)) == [Line(0, "[" + count + "]:" + (Blanks(gap) + row))]
    ensures Payload(Blanks(gap) + row) == Some(row)
  {
    PayloadGap(gap, row);
    forall i | 0 <= i < |count| ensures count[i] != '\n' {
      assert num.digit(count[i]).Some? && IsSpace('\n');
    }
    assert '\n' !in count && '\n' !in Blanks(gap);
    hide Payload, LinesOf, IsDigitMap, DigitText;
    var tail := "]:" + (Blanks(gap) + row);
    assert tail[|tail| - 1] == row[|row| - 1];
    assert "[" + count + "]:" + (Blanks(gap) + row) == "[" + count + tail;
    BracketLine(count, tail);
  }

  lemma PayloadGap(gap: nat, row: string)
    requires Tight(row)
    ensures Payload(Blanks(gap) + row) == Some(row)
  {
    StripPadded(gap, row);
  }

  /** A line that starts with a bracket. */
  lemma BracketLine(count: string, tail: string)
    requires '\n' !in count && '\n' !in tail && tail != "" && !IsSpace(tail[|tail| - 1])
    ensures LinesOf("[" + count + tail) == [Line(0, "[" + count + tail)]
  {
    var text := "[" + count + tail;
    assert text[|text| - 1] == tail[|tail| - 1] && text[0] == '[';
    assert Render(Line(0, text)) == text;
    hide LinesOf;
    LineRead(Line(0, text));
  }

  // ---------------------------------------------------------------- tables and lists

  function Fewest(a: nat, b: nat): (n: nat)
    ensures n <= a && n <= b && (n == a || n == b)
  {
    if a < b then a else b
  }

  /** The object of a row: its values under the fields, as far as there are both. */
  predicate RowObject(num: Numbers, fields: seq<string>, cells: seq<string>, x: Value) {
    && x.Obj? && |x.members| == Fewest(|fields|, |cells|)
    && forall j :: 0 <= j < |x.members| ==>
         x.members[j].key == fields[j] && DecScalar(num, cells[j]) == Ok(x.members[j].value)
  }

  lemma {:induction false} CellsAt(num: Numbers, cells: seq<string>, vs: seq<Value>)
    requires DecCells(num, cells) == Ok(vs)
    ensures |vs| == |cells| && forall j :: 0 <= j < |vs| ==> DecScalar(num, cells[j]) == Ok(vs[j])
  {
    hide DecScalar;
    if cells != [] {
      CellsAt(num, cells[1..], vs[1..]);
    }
  }

  /** A row that can be read, on one line. */
  predicate RowOk(num: Numbers, fields: seq<string>, cells: seq<string>, text: string) {
    RowLine(cells, text) && DecCells(num, cells[..Fewest(|fields|, |cells|)]).Ok?
  }

  lemma RowReads(num: Numbers, fields: seq<string>, cells: seq<string>, text: string)
    requires Distinct(fields) && RowOk(num, fields, cells, text)
    ensures DecRow(num, text, fields).Ok? && RowObject(num, fields, cells, DecRow(num, text, fields).value)
  {
    var k := Fewest(|fields|, |cells|);
    var vs := DecCells(num, cells[..k]).value;
    CellsAt(num, cells[..k], vs);
    assert Distinct(fields[..k]);
    ToonRoundTrip.PutAllUnique(fields[..k], vs);
    hide SplitTop, DecCells, DecScalar, PutAll, Distinct;
  }

  /** Each row is read from one line, whatever its depth. */
  predicate RowsOn(num: Numbers, fields: seq<string>, rows: seq<seq<string>>, lines: seq<Line>) {
    |lines| == |rows| && forall i :: 0 <= i < |rows| ==> RowOk(num, fields, rows[i], lines[i].text)
  }

  lemma {:induction false} RowsRead(num: Numbers, fields: seq<string>, rows: seq<seq<string>>, lines: seq<Line>,
                                    more: seq<Line>)
    returns (xs: seq<Value>)
    requires Distinct(fields) && RowsOn(num, fields, rows, lines)
    ensures |xs| == |rows| && forall i :: 0 <= i < |rows| ==> RowObject(num, fields, rows[i], xs[i])
    ensures DecRows(num, lines + more, |rows|, fields) == Ok((xs, more))
  {
    hide RowOk, RowObject, DecRow, Distinct, DecRows;
    if rows == [] {
      xs := [];
      assert lines + more == more;
      NoneRow(num, more, fields);
    } else {
      RowReads(num, fields, rows[0], lines[0].text);
      var rest := RowsRead(num, fields, rows[1..], lines[1..], more);
      xs := [DecRow(num, lines[0].text, fields).value] + rest;
      assert lines + more == [lines[0]] + (lines[1..] + more);
      ToonRoundTrip.RowsStep(num, lines[0], lines[1..] + more, |rows|, fields);
    }
  }

  lemma {:induction false} TooFewRows(num: Numbers, fields: seq<string>, rows: seq<seq<string>>, lines: seq<Line>,
                                      n: nat)
    requires Distinct(fields) && RowsOn(num, fields, rows, lines) && n > |rows|
    ensures DecRows(num, lines, n, fields) == Err(OutOfLines)
  {
    hide RowOk, RowObject, Distinct;
    if rows != [] {
      RowReads(num, fields, rows[0], lines[0].text);
      hide DecRow;
      TooFewRows(num, fields, rows[1..], lines[1..], n - 1);
    }
  }

  /** A table header whose names are spread over `names`. */
  predicate TableHead(digit: DigitMap, fields: seq<string>, names: string) {
    fields != [] && '}' !in names && SplitTop(names) == fields
  }

  lemma HeadLine(digit: DigitMap, n: nat, fields: seq<string>, names: string)
    requires IsDigitMap(digit) && TableHead(digit, fields, names) && '\n' !in names
    ensures var text := CountText(n) + ("{" + names + "}:");
            && MatchHeader(digit, text).Some? && ParseArrayHeader(digit, text) == Ok(Header(n, Some(fields), None))
            && LinesOf(text) == [Line(0, text)]
  {
    TableHeader(digit, n, names);
    HeadTail(n, names);
    hide *;
    BracketLine(NatText(n), "]" + ("{" + names + "}:"));
  }

  lemma HeadTail(n: nat, names: string)
    requires '\n' !in names
    ensures var tail := "]" + ("{" + names + "}:");
            && CountText(n) + ("{" + names + "}:") == "[" + NatText(n) + tail
            && '\n' !in tail && '\n' !in NatText(n) && tail != "" && !IsSpace(tail[|tail| - 1])
  {
    hide NatText;
    var tail := "]" + ("{" + names + "}:");
    assert tail[|tail| - 1] == ':';
  }

  /** A table: as many rows as announced, at whatever depth; one object for each; the rest is not read. With
      fewer rows the text is refused. */
  lemma TableReads(num: Numbers, n: nat, fields: seq<string>, names: string, rows: seq<seq<string>>, body: string)
    returns (xs: seq<Value>)
    requires IsDigitMap(num.digit) && TableHead(num.digit, fields, names) && '\n' !in names && Distinct(fields)
    requires |rows| <= |LinesOf(body)| && RowsOn(num, fields, rows, LinesOf(body)[..|rows|])
    ensures |xs| == |rows| && forall i :: 0 <= i < |rows| ==> RowObject(num, fields, rows[i], xs[i])
    ensures n == |rows| ==> Decode(num, CountText(n) + ("{" + names + "}:") + "\n" + body) == Ok(List(xs))
    ensures n > |rows| && |rows| == |LinesOf(body)|
            ==> Decode(num, CountText(n) + ("{" + names + "}:") + "\n" + body) == Err(OutOfLines)
  {
    var head, lines := CountText(n) + ("{" + names + "}:"), LinesOf(body);
    HeadLine(num.digit, n, fields, names);
    LinesJoin(head, body);
    hide *;
    xs := TableRows(num, n, fields, rows, lines);
    HeaderThen(num, head, Header(n, Some(fields), None), lines);
    DecodeIs(num, head + "\n" + body);
  }

  lemma TableRows(num: Numbers, n: nat, fields: seq<string>, rows: seq<seq<string>>, lines: seq<Line>)
    returns (xs: seq<Value>)
    requires Distinct(fields) && |rows| <= |lines| && RowsOn(num, fields, rows, lines[..|rows|])
    ensures |xs| == |rows| && forall i :: 0 <= i < |rows| ==> RowObject(num, fields, rows[i], xs[i])
    ensures n == |rows| ==> DecArray(num, lines, 0, Header(n, Some(fields), None)) == Ok((xs, lines[|rows|..]))
    ensures n > |rows| && |rows| == |lines|
            ==> DecArray(num, lines, 0, Header(n, Some(fields), None)) == Err(OutOfLines)
  {
    hide *;
    assert lines == lines[..|rows|] + lines[|rows|..];
    xs := RowsRead(num, fields, rows, lines[..|rows|], lines[|rows|..]);
    if n > |rows| && |rows| == |lines| {
      assert lines[..|rows|] == lines;
      TooFewRows(num, fields, rows, lines, n);
    }
    RowsThen(num, lines, n, fields);
    if rows == [] && n == 0 {
      NoneRow(num, lines, fields);
    }
  }

  lemma HeaderThen(num: Numbers, head: string, h: Header, lines: seq<Line>)
    requires MatchHeader(num.digit, head).Some? && ParseArrayHeader(num.digit, head) == Ok(h)
    ensures DecodeLines(num, [Line(0, head)] + lines)
            == match DecArray(num, lines, 0, h)
               case Ok((vs, rest)) => Ok((List(vs), rest))
               case Err(e) => Err(e)
  {
    hide MatchHeader, ParseArrayHeader, DecArray, DecMembers;
    assert ([Line(0, head)] + lines)[1..] == lines;
  }

  lemma RowsThen(num: Numbers, lines: seq<Line>, n: nat, fields: seq<string>)
    ensures DecArray(num, lines, 0, Header(n, Some(fields), None))
            == if n == 0 then Ok(([], lines)) else DecRows(num, lines, n, fields)
  {
    hide DecRows, DecItems;
  }

  lemma NoneRow(num: Numbers, lines: seq<Line>, fields: seq<string>)
    ensures DecRows(num, lines, 0, fields) == Ok(([], lines))
  {
  }

  /** A list element's line: its first two characters are dropped, whatever they are, and the rest is a scalar. */
  predicate ElementOn(num: Numbers, line: Line, x: Value) {
    && line.text != "-" && MatchHeader(num.digit, Dropped(line.text)).None?
    && DecScalar(num, Dropped(line.text)) == Ok(x)
  }

  function Dropped(text: string): string {
    if |text| < 2 then "" else text[2..]
  }

  lemma {:induction false} ElementsRead(num: Numbers, xs: seq<Value>, lines: seq<Line>, more: seq<Line>, d: nat)
    requires |lines| == |xs| && forall i :: 0 <= i < |xs| ==> ElementOn(num, lines[i], xs[i])
    ensures DecItems(num, lines + more, |xs|, d) == Ok((xs, more))
  {
    hide ElementOn, DecItems, DecBlock;
    if xs == [] {
      assert lines + more == more;
      NoItems(num, more, d);
    } else {
      ElementRead(num, lines[0], xs[0], lines[1..] + more, d);
      ElementsRead(num, xs[1..], lines[1..], more, d);
      assert lines + more == [lines[0]] + (lines[1..] + more);
      ToonRoundTrip.ItemsStep(num, lines[0], lines[1..] + more, |xs|, d);
      assert [xs[0]] + xs[1..] == xs;
    }
  }

  lemma NoItems(num: Numbers, lines: seq<Line>, d: nat)
    ensures DecItems(num, lines, 0, d) == Ok(([], lines))
  {
  }

  lemma ElementRead(num: Numbers, line: Line, x: Value, more: seq<Line>, d: nat)
    requires ElementOn(num, line, x)
    ensures ParseItem(num.digit, line.text) == Ok(ScalarTail(Dropped(line.text)))
    ensures DecBlock(num, more, d, ScalarTail(Dropped(line.text))) == Ok((x, more))
  {
    assert |line.text| == 2 ==> line.text[2..] == "";
    hide MatchHeader, ParseArrayHeader, DecScalar;
  }

  lemma {:induction false} TooFewElements(num: Numbers, xs: seq<Value>, lines: seq<Line>, n: nat, d: nat)
    requires |lines| == |xs| && n > |xs| && forall i :: 0 <= i < |xs| ==> ElementOn(num, lines[i], xs[i])
    ensures DecItems(num, lines, n, d) == Err(OutOfLines)
  {
    hide ElementOn, DecBlock, ParseItem, DecItem, DecItems;
    if xs == [] {
      NoItemLeft(num, lines, n, d);
    } else {
      ElementRead(num, lines[0], xs[0], lines[1..], d);
      TooFewElements(num, xs[1..], lines[1..], n - 1, d);
      ItemThenError(num, lines, xs[0], n, d);
    }
  }

  lemma NoItemLeft(num: Numbers, lines: seq<Line>, n: nat, d: nat)
    requires lines == [] && n > 0
    ensures DecItems(num, lines, n, d) == Err(OutOfLines)
  {
  }

  lemma ItemThenError(num: Numbers, lines: seq<Line>, x: Value, n: nat, d: nat)
    requires lines != [] && n > 0 && ParseItem(num.digit, lines[0].text).Ok?
    requires DecBlock(num, lines[1..], d, ParseItem(num.digit, lines[0].text).value) == Ok((x, lines[1..]))
    requires DecItems(num, lines[1..], n - 1, d).Err?
    ensures DecItems(num, lines, n, d) == Err(DecItems(num, lines[1..], n - 1, d).error)
  {
    assert DecItem(num, lines, d) == Ok((x, lines[1..]));
  }

  /** A list of scalars, one to a line at whatever depth: as many as announced, the rest is not read, and fewer
      are refused. */
  lemma ListReads(num: Numbers, n: nat, xs: seq<Value>, body: string)
    requires IsDigitMap(num.digit)
    requires |xs| <= |LinesOf(body)| && forall i :: 0 <= i < |xs| ==> ElementOn(num, LinesOf(body)[i], xs[i])
    ensures n == |xs| ==> Decode(num, CountText(n) + (":" + "") + "\n" + body) == Ok(List(xs))
    ensures n > |xs| && |xs| == |LinesOf(body)|
            ==> Decode(num, CountText(n) + (":" + "") + "\n" + body) == Err(OutOfLines)
  {
    var head, lines := CountText(n) + (":" + ""), LinesOf(body);
    PlainHeader(num.digit, n, "");
    NothingAfter();
    ListHead(n);
    LinesJoin(head, body);
    hide *;
    assert lines == lines[..|xs|] + lines[|xs|..];
    ElementsRead(num, xs, lines[..|xs|], lines[|xs|..], 1);
    HeaderThen(num, head, Header(n, None, None), lines);
    DecodeIs(num, head + "\n" + body);
    if n > |xs| && |xs| == |lines| {
      assert lines[..|xs|] == lines;
      TooFewElements(num, xs, lines, n, 1);
    }
    ItemsThen(num, lines, n);
    if n == 0 {
      NoItems(num, lines, 1);
    }
  }

  lemma NothingAfter()
    ensures Payload("") == None
  {
  }

  lemma ListHead(n: nat)
    ensures LinesOf(CountText(n) + (":" + "")) == [Line(0, CountText(n) + (":" + ""))]
  {
    hide NatText, LinesOf;
    assert CountText(n) + (":" + "") == "[" + NatText(n) + "]:";
    BracketLine(NatText(n), "]:");
  }

  lemma ItemsThen(num: Numbers, lines: seq<Line>, n: nat)
    ensures DecArray(num, lines, 0, Header(n, None, None))
            == if n == 0 then Ok(([], lines)) else DecItems(num, lines, n, 1)
  {
    hide DecRows, DecItems;
  }

  // ---------------------------------------------------------------- headers and scalars

  /** The parts of a header: digits in brackets, field names in braces or none, a colon, and the rest. */
  predicate HeaderIs(digit: DigitMap, text: string, count: string, fields: Option<string>, tail: string) {
    && DigitText(digit, count)
    && (fields.Some? ==> '}' !in fields.value)
    && text == "[" + count + "]" + (if fields.Some? then "{" + fields.value + "}" else "") + ":" + tail
  }

  lemma HeaderExactly(digit: DigitMap, text: string, count: string, fields: Option<string>, tail: string)
    requires IsDigitMap(digit)
    ensures MatchHeader(digit, text) == Some((count, fields, tail)) <==> HeaderIs(digit, text, count, fields, tail)
  {
    hide MatchHeader, HeaderIs;
    if MatchHeader(digit, text) == Some((count, fields, tail)) {
      HeaderFound(digit, text, count, fields, tail);
    }
    if HeaderIs(digit, text, count, fields, tail) {
      HeaderMatches(digit, text, count, fields, tail);
    }
  }

  lemma {:induction false} RunDigits(digit: DigitMap, s: string, i: nat)
    requires i <= |s|
    ensures forall k :: i <= k < DigitRun(digit, s, i) ==> digit(s[k]).Some?
    decreases |s| - i
  {
    if i < |s| && digit(s[i]).Some? {
      RunDigits(digit, s, i + 1);
    }
  }

  lemma {:induction false} FindFirst(s: string, c: char, i: nat)
    requires i <= |s|
    ensures forall k :: i <= k < Find(s, c, i) ==> s[k] != c
    ensures Find(s, c, i) < |s| ==> s[Find(s, c, i)] == c
    decreases |s| - i
  {
    if i < |s| && s[i] != c {
      FindFirst(s, c, i + 1);
    }
  }

  lemma HeaderFound(digit: DigitMap, text: string, count: string, fields: Option<string>, tail: string)
    requires MatchHeader(digit, text) == Some((count, fields, tail))
    ensures HeaderIs(digit, text, count, fields, tail)
  {
    var k := DigitRun(digit, text, 1);
    RunDigits(digit, text, 1);
    hide DigitRun, MatchFields;
    assert k < |text| && text[0] == '[' && text[k] == ']' && count == text[1..k];
    FieldsFound(text[k + 1..], fields, tail);
    HeaderGlue(text, k, if fields.Some? then "{" + fields.value + "}" else "", tail);
    hide MatchHeader;
    assert DigitText(digit, count);
  }

  lemma HeaderGlue(text: string, k: nat, middle: string, tail: string)
    requires 1 <= k < |text| && text[0] == '[' && text[k] == ']' && text[k + 1..] == middle + ":" + tail
    ensures text == "[" + text[1..k] + "]" + middle + ":" + tail
  {
    assert text == "[" + text[1..k] + "]" + text[k + 1..];
    Reassociate("[" + text[1..k] + "]", middle, tail);
  }

  lemma Reassociate(a: string, b: string, c: string)
    ensures a + (b + ":" + c) == a + b + ":" + c
  {
  }

  lemma FieldsFound(rest: string, fields: Option<string>, tail: string)
    requires MatchFields(rest) == Some((fields, tail))
    ensures fields.Some? ==> '}' !in fields.value
    ensures rest == (if fields.Some? then "{" + fields.value + "}" else "") + ":" + tail
  {
    if rest[0] == ':' {
      assert "" + ":" + tail == ":" + tail;
    } else {
      var j := Find(rest, '}', 1);
      FindFirst(rest, '}', 1);
      hide Find;
      assert rest == "{" + rest[1..j] + "}" + ":" + rest[j + 2..];
    }
  }

  lemma HeaderMatches(digit: DigitMap, text: string, count: string, fields: Option<string>, tail: string)
    requires IsDigitMap(digit) && HeaderIs(digit, text, count, fields, tail)
    ensures MatchHeader(digit, text) == Some((count, fields, tail))
  {
    var middle := if fields.Some? then "{" + fields.value + "}" else "";
    var j := 1 + |count|;
    assert text == "[" + count + "]" + (middle + ":" + tail);
    forall k | 1 <= k < j ensures digit(text[k]).Some? {
      assert text[k] == count[k - 1];
    }
    assert text[j] == ']' && digit(']').None?;
    DigitRunStops(digit, text, 1, j);
    assert text[1..j] == count && text[j + 1..] == middle + ":" + tail;
    FieldsMatch(middle + ":" + tail, fields, tail);
    hide MatchFields, DigitRun, IsDigitMap;
  }

  lemma FieldsMatch(rest: string, fields: Option<string>, tail: string)
    requires fields.Some? ==> '}' !in fields.value
    requires rest == (if fields.Some? then "{" + fields.value + "}" else "") + ":" + tail
    ensures MatchFields(rest) == Some((fields, tail))
  {
    if fields.Some? {
      var j := 1 + |fields.value|;
      assert rest == "{" + fields.value + ("}:" + tail);
      forall k | 1 <= k < j ensures rest[k] != '}' {
        assert rest[k] == fields.value[k - 1];
      }
      FindStops(rest, '}', 1, j);
      assert rest[1..j] == fields.value && rest[j + 1] == ':' && rest[j + 2..] == tail;
      hide Find;
    } else {
      assert rest == ":" + tail && rest[1..] == tail;
    }
  }

  /** A member whose key is followed by a bracket that opens no header is refused. */
  lemma BadHeader(num: Numbers, key: string, junk: string, rest: string)
    requires key != "" && !IsSpace(key[0]) && key[0] != '"' && !("- " <= key)
    requires '\n' !in key && '[' !in key && ':' !in key && '\n' !in junk
    requires junk != "" && !IsSpace(junk[|junk| - 1]) && MatchHeader(num.digit, "[" + junk).None?
    ensures Decode(num, key + ("[" + junk) + "\n" + rest) == Err(MalformedHeader)
  {
    var text := key + ("[" + junk);
    BadKey(key, "[" + junk);
    LinesJoin(text, rest);
    hide *;
    BadMember(num, text, key, "[" + junk, LinesOf(rest));
    DecodeIs(num, text + "\n" + rest);
  }

  lemma BadKey(key: string, tail: string)
    requires key != "" && !IsSpace(key[0]) && key[0] != '"' && !("- " <= key)
    requires '\n' !in key && '[' !in key && ':' !in key && '\n' !in tail
    requires |tail| > 1 && tail[0] == '[' && !IsSpace(tail[|tail| - 1])
    ensures SplitKey(key + tail) == Ok((key, tail)) && !IsItem(key + tail) && (key + tail)[0] != '['
    ensures LinesOf(key + tail) == [Line(0, key + tail)]
  {
    var text := key + tail;
    forall i | 0 <= i < |key| ensures text[i] != '[' && text[i] != ':' {
      assert text[i] in key;
    }
    assert text[0] == key[0] && text[|key|] == '[' && text[|text| - 1] == tail[|tail| - 1];
    assert |key| > 1 ==> text[1] == key[1];
    KeyEndStops(text, 0, |key|);
    assert text[..|key|] == key && text[|key|..] == tail;
    assert Render(Line(0, text)) == text;
    hide LinesOf, KeyEnd, IsSpace;
    LineRead(Line(0, text));
  }

  lemma BadMember(num: Numbers, text: string, key: string, tail: string, more: seq<Line>)
    requires text != "" && text[0] != '[' && !IsItem(text) && SplitKey(text) == Ok((key, tail))
    requires tail != "" && tail[0] == '[' && MatchHeader(num.digit, tail).None?
    ensures DecodeLines(num, [Line(0, text)] + more) == Err(MalformedHeader)
  {
    hide IsItem, SplitKey;
    assert MatchHeader(num.digit, text).None?;
    hide MatchHeader;
    assert ParseMember(num.digit, text) == Err(MalformedHeader);
  }

  /** A token that starts with no quote, spells no constant and no number is a string as it stands, commas and
      all. */
  lemma BareToken(num: Numbers, before: string, t: string, after: string)
    requires Blank(before) && Blank(after) && Tight(t) && t[0] != '"'
    requires t !in {"null", "true", "false"} && ParseInt(num.digit, t).None? && num.parseFloat(t).None?
    ensures DecScalar(num, before + t + after) == Ok(Str(t))
    ensures DecScalar(num, before) == Ok(Str(""))
  {
    StripAround(before, t, after);
    BlankIs(before);
    hide Strip, ParseInt, IsSpace;
  }

  /** A token that starts with a quote is a string if it is a JSON string, and malformed otherwise. */
  lemma QuotedToken(num: Numbers, before: string, t: string, after: string)
    requires Blank(before) && Blank(after) && Tight(t) && t[0] == '"'
    ensures forall s :: DecScalar(num, before + t + after) == Ok(Str(s)) <==> JsonReading.IsJsonString(t, s)
    ensures DecScalar(num, before + t + after).Err? ==> DecScalar(num, before + t + after) == Err(BadJson)
    ensures DecScalar(num, before + t + after).Ok? ==> DecScalar(num, before + t + after).value.Str?
  {
    StripAround(before, t, after);
    TokenIs(num, before + t + after, t);
    hide *;
    forall s ensures JsonText.Loads(t) == Some(s) <==> JsonReading.IsJsonString(t, s) {
      JsonReading.LoadsExactly(t, s);
    }
  }

  lemma TokenIs(num: Numbers, token: string, t: string)
    requires Strip(token) == t && t != "" && t[0] == '"'
    ensures DecScalar(num, token) == match JsonText.Loads(t) case Some(s) => Ok(Str(s)) case None => Err(BadJson)
  {
    hide Strip, ParseInt;
  }

  /** A key may be any JSON string: it ends at its own closing quote, and what follows it is left for the value. */
  lemma QuotedKey(token: string, key: string, tail: string)
    requires JsonReading.IsJsonString(token, key)
    ensures SplitKey(token + tail) == Ok((key, tail))
  {
    JsonReading.JsonStringInert(token, key);
    JsonReading.LoadsExactly(token, key);
    var text, body := token + tail, token[1..|token| - 1];
    hide JsonReading.IsJsonString, JsonText.Inert, JsonText.Loads, QuoteSpan;
    QuoteSpanInert(body, tail);
    assert text[1..] == body + "\"" + tail;
    assert text[..2 + |body|] == token && text[2 + |body|..] == tail;
  }

  /** So may a cell of a row. */
  lemma QuotedCell(token: string, t: string)
    requires JsonReading.IsJsonString(token, t)
    ensures IsCell(token)
  {
    JsonReading.JsonStringInert(token, t);
    assert '\n' !in token;
    hide JsonReading.IsJsonString, JsonText.Inert;
  }

  // ---------------------------------------------------------------- odd lines

  lemma {:induction false} PutAllIs(out: seq<Member>, keys: seq<string>, vs: seq<Value>)
    requires |keys| == |vs|
    ensures PutAll(out, keys, vs) == PutEach(out, keys, vs)
    decreases |keys|
  {
    hide Put;
    if keys != [] {
      PutAllIs(Put(out, keys[0], vs[0]), keys[1..], vs[1..]);
    }
  }

  /** In a row too a repeated column keeps the last value. */
  lemma RepeatedColumns(num: Numbers, text: string, fields: seq<string>, cells: seq<string>, vs: seq<Value>)
    requires SplitTop(text) == cells && |vs| == Fewest(|fields|, |cells|)
    requires DecCells(num, cells[..|vs|]) == Ok(vs)
    ensures var r := DecRow(num, text, fields);
            && r.Ok? && r.value.Obj? && DistinctKeys(r.value.members)
            && forall m :: m in r.value.members <==> LastValue(fields[..|vs|], vs, m)
  {
    hide SplitTop, DecCells, DistinctKeys, LastValue;
    NoKeys();
    PutAllIs([], fields[..|vs|], vs);
    PutEachIs([], fields[..|vs|], vs);
  }

  /** After a key in quotes whatever stands in the colon's place is skipped, unless it opens a header. */
  lemma QuotedMember(num: Numbers, token: string, key: string, sign: char, gap: nat, value: string, v: Value,
                     rest: string)
    requires JsonReading.IsJsonString(token, key) && sign != '[' && sign != '\n'
    requires IsLineText(value) && DecScalar(num, value) == Ok(v) && NoMember(LinesOf(rest))
    ensures Decode(num, token + ([sign] + (Blanks(gap) + value)) + "\n" + rest) == Ok(Obj([Member(key, v)]))
  {
    hide *;
    var tail := [sign] + (Blanks(gap) + value);
    TailEnd(sign, gap, value);
    QuotedKey(token, key, tail);
    TailValue(num.digit, sign, gap, value);
    QuotedLine(token, key, tail, value);
    ScalarBlock(num, value, v, LinesOf(rest));
    LinesJoin(token + tail, rest);
    OneMember(num, token + tail, key, tail, ScalarTail(value), v, LinesOf(rest));
    DecodeIs(num, token + tail + "\n" + rest);
  }

  lemma ScalarBlock(num: Numbers, token: string, v: Value, rest: seq<Line>)
    requires DecScalar(num, token) == Ok(v)
    ensures DecBlock(num, rest, 0, ScalarTail(token)) == Ok((v, rest))
  {
    hide DecScalar;
  }

  lemma QuotedLine(token: string, key: string, tail: string, value: string)
    requires JsonReading.IsJsonString(token, key) && IsLineText(value) && '\n' !in tail
    requires |tail| >= |value| && tail[|tail| - |value|..] == value
    ensures LinesOf(token + tail) == [Line(0, token + tail)] && !IsItem(token + tail)
    ensures token + tail != "" && (token + tail)[0] == '"'
  {
    JsonReading.JsonStringInert(token, key);
    hide JsonReading.IsJsonString, JsonText.Inert, IsSpace;
    var text := token + tail;
    assert text[|text| - 1] == value[|value| - 1];
    assert '\n' !in token && IsLineText(text);
    LineRead(Line(0, text));
    assert Render(Line(0, text)) == text;
  }

  lemma TailEnd(sign: char, gap: nat, value: string)
    ensures var tail := [sign] + (Blanks(gap) + value);
            |tail| >= |value| && tail[|tail| - |value|..] == value
  {
  }

  lemma TailValue(digit: DigitMap, sign: char, gap: nat, value: string)
    requires IsLineText(value) && sign != '['
    ensures ParseTail(digit, [sign] + (Blanks(gap) + value)) == Ok(ScalarTail(value))
    ensures sign != '\n' ==> '\n' !in [sign] + (Blanks(gap) + value)
  {
    var rest := [sign] + (Blanks(gap) + value);
    assert rest[1..] == Blanks(gap) + value;
    StripPadded(gap, value);
  }

  /** One member line and nothing that goes on after it. */
  lemma OneMember(num: Numbers, text: string, key: string, tail: string, value: ValueTail, v: Value, rest: seq<Line>)
    requires !IsItem(text) && text != "" && text[0] != '[' && SplitKey(text) == Ok((key, tail))
    requires ParseTail(num.digit, tail) == Ok(value) && DecBlock(num, rest, 0, value) == Ok((v, rest)) && NoMember(rest)
    ensures DecodeLines(num, [Line(0, text)] + rest) == Ok((Obj([Member(key, v)]), rest))
  {
    hide IsItem, SplitKey, ParseTail, DecBlock;
    var ls := [Line(0, text)] + rest;
    assert ls[1..] == rest && ls[0].indent == 0;
    assert MatchHeader(num.digit, text).None?;
    hide MatchHeader;
    assert DecMembers(num, rest, 0, [Member(key, v)]) == Ok(([Member(key, v)], rest));
  }

  /** A key alone, with its colon or without one, is an empty object if no deeper member follows. */
  lemma KeyAlone(num: Numbers, key: string, colon: string, rest: string)
    requires key != "" && Tight(key) && key[0] != '"' && !IsItem(key)
    requires '\n' !in key && '[' !in key && ':' !in key && (colon == "" || colon == ":")
    requires NoMember(LinesOf(rest)) && (LinesOf(rest) == [] || IsItem(LinesOf(rest)[0].text))
    ensures Decode(num, key + colon + "\n" + rest) == Ok(Obj([Member(key, Obj([]))]))
  {
    AloneLine(key, colon);
    assert ParseTail(num.digit, colon) == Ok(ObjectTail);
    assert DecBlock(num, LinesOf(rest), 0, ObjectTail) == Ok((Obj([]), LinesOf(rest)));
    LinesJoin(key + colon, rest);
    hide *;
    OneMember(num, key + colon, key, colon, ObjectTail, Obj([]), LinesOf(rest));
    DecodeIs(num, key + colon + "\n" + rest);
  }

  lemma AloneLine(key: string, colon: string)
    requires key != "" && Tight(key) && key[0] != '"' && !IsItem(key)
    requires '\n' !in key && '[' !in key && ':' !in key && (colon == "" || colon == ":")
    ensures var text := key + colon;
      && text != "" && text[0] != '[' && !IsItem(text) && SplitKey(text) == Ok((key, colon))
      && LinesOf(text) == [Line(0, text)]
  {
    AloneShape(key, colon);
    AloneKey(key, colon);
    hide IsItem, IsLineText, Tight, SplitKey;
    PlainRender(key + colon);
    hide LinesOf, Render;
    LineRead(Line(0, key + colon));
  }

  lemma PlainRender(text: string)
    ensures Render(Line(0, text)) == text
  {
    assert Blanks(0) == "";
  }

  lemma AloneKey(key: string, colon: string)
    requires key != "" && key[0] != '"' && '[' !in key && ':' !in key && (colon == "" || colon == ":")
    ensures (key + colon)[0] != '[' && SplitKey(key + colon) == Ok((key, colon))
  {
    var text := key + colon;
    assert forall i :: 0 <= i < |key| ==> text[i] == key[i] && key[i] in key;
    KeyEndAll(text, 0, |key|);
    hide KeyEnd, ReadQuoted;
    assert text[..|key|] == key && text[|key|..] == colon;
  }

  lemma AloneShape(key: string, colon: string)
    requires key != "" && Tight(key) && !IsItem(key) && '\n' !in key && (colon == "" || colon == ":")
    ensures IsLineText(key + colon) && !IsItem(key + colon)
  {
    hide IsSpace;
    var text := key + colon;
    if colon == "" {
      assert text == key;
    } else {
      assert text[|text| - 1] == ':' && !IsSpace(':') by { ColonShows(); }
      assert text[0] == key[0];
      assert |key| > 1 ==> text[1] == key[1];
      assert |key| == 1 ==> text[1] == ':';
      assert |text| >= 2;
    }
  }

  lemma ColonShows()
    ensures !IsSpace(':')
  {
  }

  lemma {:induction false} KeyEndAll(text: string, j: nat, k: nat)
    requires j <= k <= |text| && (k < |text| ==> text[k] == '[' || text[k] == ':')
    requires forall i :: j <= i < k ==> text[i] != '[' && text[i] != ':'
    ensures KeyEnd(text, j) == k
    decreases k - j
  {
    if j < k {
      KeyEndAll(text, j + 1, k);
    }
  }
}
