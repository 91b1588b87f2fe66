/** Which texts are JSON strings, and what they say (section 7 of RFC 8259), written out piece by piece. */
module JsonReading {
  import opened JsonText
  import opened Options

  /** A hexadecimal digit in either case. */
  predicate HexDigit(c: char, d: nat) {
    || ('0' <= c <= '9' && d == c as int - '0' as int)
    || ('a' <= c <= 'f' && d == c as int - 'a' as int + 10)
    || ('A' <= c <= 'F' && d == c as int - 'A' as int + 10)
  }

  /** A backslash, a u and four hexadecimal digits. */
  ghost predicate WritesUnit(text: string, n: nat) {
    && |text| == 6 && text[0] == '\\' && text[1] == 'u'
    && exists a: nat, b: nat, c: nat, d: nat ::
         && HexDigit(text[2], a) && HexDigit(text[3], b) && HexDigit(text[4], c) && HexDigit(text[5], d)
         && n == a * 4096 + b * 256 + c * 16 + d
  }

  predicate ShortFor(name: char, c: char) {
    || (name == '"' && c == '"') || (name == '\\' && c == '\\') || (name == '/' && c == '/')
    || (name == 'b' && c as int == 8) || (name == 'f' && c as int == 12)
    || (name == 'n' && c == '\n') || (name == 'r' && c == '\r') || (name == 't' && c == '\t')
  }

  /** The two units of a character beyond the first 65536. */
  predicate IsPair(hi: nat, lo: nat, c: char) {
    && 0xd800 <= hi < 0xdc00 && 0xdc00 <= lo < 0xe000
    && c as int == 0x10000 + (hi - 0xd800) * 0x400 + lo - 0xdc00
  }

  ghost predicate WritesPair(text: string, c: char) {
    && |text| == 12
    && exists hi: nat, lo: nat :: WritesUnit(text[..6], hi) && WritesUnit(text[6..], lo) && IsPair(hi, lo, c)
  }

  /** One of the ways to write a character inside a JSON string. */
  ghost predicate Writes(text: string, c: char) {
    || (|text| == 1 && text[0] == c && c >= ' ' && c != '"' && c != '\\')
    || (|text| == 2 && text[0] == '\\' && ShortFor(text[1], c))
    || (WritesUnit(text, c as int) && c as int < 0x10000)
    || WritesPair(text, c)
  }

  lemma HexIs(c: char)
    ensures forall d: nat :: HexDigit(c, d) <==> HexValue(c) == Some(d)
    ensures forall d: nat :: HexDigit(c, d) ==> d < 16
  {
  }

  lemma UnitReads(text: string, rest: string, n: nat)
    requires WritesUnit(text, n)
    ensures n < 0x10000 && ReadUnit(text + rest) == Some(n)
  {
    var a: nat, b: nat, c: nat, d: nat :|
      && HexDigit(text[2], a) && HexDigit(text[3], b) && HexDigit(text[4], c) && HexDigit(text[5], d)
      && n == a * 4096 + b * 256 + c * 16 + d;
    var s := text + rest;
    assert forall i :: 0 <= i < 6 ==> s[i] == text[i];
    HexIs(text[2]);
    HexIs(text[3]);
    HexIs(text[4]);
    HexIs(text[5]);
    hide HexDigit, HexValue;
    assert UnitOfDigits(a, b, c, d) == Some(n);
  }

  lemma UnitRead(s: string)
    requires ReadUnit(s).Some?
    ensures |s| >= 6 && WritesUnit(s[..6], ReadUnit(s).value)
  {
    var (a, b, c, d) := (HexValue(s[2]), HexValue(s[3]), HexValue(s[4]), HexValue(s[5]));
    assert HexDigit(s[..6][2], a.value) && HexDigit(s[..6][3], b.value) && HexDigit(s[..6][4], c.value)
           && HexDigit(s[..6][5], d.value);
    assert UnitOfDigits(a.value, b.value, c.value, d.value) == ReadUnit(s);
  }

  lemma PairReads(text: string, rest: string, c: char)
    requires WritesPair(text, c)
    ensures text + rest != "" && ReadChar(text + rest) == Some((c, 12))
  {
    var hi: nat, lo: nat :| WritesUnit(text[..6], hi) && WritesUnit(text[6..], lo) && IsPair(hi, lo, c);
    var s := text + rest;
    assert s == text[..6] + (text[6..] + rest);
    assert s[6..] == text[6..] + rest && s[0] == text[..6][0] && s[1] == text[..6][1];
    UnitReads(text[..6], text[6..] + rest, hi);
    UnitReads(text[6..], rest, lo);
    hide WritesUnit, ReadUnit;
    var last := 0x10000 + (hi - 0xd800) * 0x400 + lo - 0xdc00;
    assert c == last as char;
  }

  lemma UnitCharReads(text: string, rest: string, c: char)
    requires WritesUnit(text, c as int) && c as int < 0x10000
    ensures text + rest != "" && ReadChar(text + rest) == Some((c, 6))
  {
    var s := text + rest;
    assert s[0] == text[0] && s[1] == text[1];
    UnitReads(text, rest, c as int);
    hide WritesUnit, ReadUnit;
  }

  lemma WrittenReads(text: string, rest: string, c: char)
    requires Writes(text, c)
    ensures text + rest != "" && ReadChar(text + rest) == Some((c, |text|))
  {
    if WritesPair(text, c) {
      PairReads(text, rest, c);
    } else if WritesUnit(text, c as int) && c as int < 0x10000 {
      UnitCharReads(text, rest, c);
    } else {
      var s := text + rest;
      assert s[0] == text[0] && (|text| == 2 ==> s[1] == text[1]);
      hide WritesPair, WritesUnit, ReadUnit;
    }
  }

  lemma ReadWrites(s: string)
    requires s != "" && ReadChar(s).Some?
    ensures Writes(s[..ReadChar(s).value.1], ReadChar(s).value.0)
  {
    if s[0] == '\\' && s[1] == 'u' {
      var hi := ReadUnit(s);
      UnitRead(s);
      if 0xd800 <= hi.value < 0xe000 {
        var lo := ReadUnit(s[6..]);
        UnitRead(s[6..]);
        assert s[..12][..6] == s[..6] && s[..12][6..] == s[6..][..6];
        hide WritesUnit, ReadUnit;
        assert IsPair(hi.value, lo.value, ReadChar(s).value.0);
        assert WritesPair(s[..12], ReadChar(s).value.0);
      }
    } else {
      hide WritesUnit, WritesPair;
    }
  }

  function Glued(pieces: seq<string>): string {
    if pieces == [] then "" else pieces[0] + Glued(pieces[1..])
  }

  /** The pieces are written one after the other and say these characters. */
  ghost predicate Spelled(pieces: seq<string>, t: string) {
    |pieces| == |t| && forall i :: 0 <= i < |t| ==> Writes(pieces[i], t[i])
  }

  lemma {:induction false} SpelledReads(pieces: seq<string>, t: string)
    requires Spelled(pieces, t)
    ensures Unescape(Glued(pieces)) == Some(t)
  {
    if t != "" {
      hide Writes, ReadChar;
      WrittenReads(pieces[0], Glued(pieces[1..]), t[0]);
      SpelledReads(pieces[1..], t[1..]);
      var s := Glued(pieces);
      assert s[|pieces[0]|..] == Glued(pieces[1..]);
      assert [t[0]] + t[1..] == t;
    }
  }

  lemma UnescapeParts(s: string)
    requires s != "" && Unescape(s).Some?
    ensures ReadChar(s).Some? && Unescape(s[ReadChar(s).value.1..]).Some?
    ensures Unescape(s).value == [ReadChar(s).value.0] + Unescape(s[ReadChar(s).value.1..]).value
    ensures ReadChar(s).value.1 > 0
  {
    hide ReadChar;
  }

  lemma SpelledCons(piece: string, c: char, pieces: seq<string>, t: string)
    requires Writes(piece, c) && Spelled(pieces, t)
    ensures Spelled([piece] + pieces, [c] + t) && Glued([piece] + pieces) == piece + Glued(pieces)
  {
    hide Writes;
    assert ([piece] + pieces)[1..] == pieces;
  }

  lemma {:induction false} ReadSpelled(s: string) returns (pieces: seq<string>)
    requires Unescape(s).Some?
    ensures Glued(pieces) == s && Spelled(pieces, Unescape(s).value)
  {
    pieces := [];
    if s != "" {
      UnescapeParts(s);
      ReadWrites(s);
      hide *;
      var n := ReadChar(s).value.1;
      var more := ReadSpelled(s[n..]);
      pieces := [s[..n]] + more;
      SpelledCons(s[..n], ReadChar(s).value.0, more, Unescape(s[n..]).value);
      assert s[..n] + s[n..] == s;
    }
  }

  ghost predicate IsJsonString(token: string, t: string) {
    exists pieces :: token == "\"" + Glued(pieces) + "\"" && Spelled(pieces, t)
  }

  /** A token is read as the string `t` exactly if it is, between two quotes, a row of pieces that write the
      characters of `t`: each as itself, unless it is a control character, a quote or a backslash; as one of the
      eight short escapes; as a unit in hexadecimal; or as a surrogate pair of units. */
  lemma LoadsExactly(token: string, t: string)
    ensures Loads(token) == Some(t) <==> IsJsonString(token, t)
  {
    hide Spelled, Glued, Unescape;
    if Loads(token) == Some(t) {
      var pieces := ReadSpelled(token[1..|token| - 1]);
      assert token == "\"" + Glued(pieces) + "\"";
    }
    if pieces :| token == "\"" + Glued(pieces) + "\"" && Spelled(pieces, t) {
      SpelledReads(pieces, t);
      assert token[1..|token| - 1] == Glued(pieces);
    }
  }

  // ---------------------------------------------------------------- where such a token ends

  predicate NoControl(s: string) {
    forall c :: c in s ==> c >= ' '
  }

  lemma UnitInert(text: string, n: nat)
    requires WritesUnit(text, n)
    ensures Inert(text) && NoControl(text)
  {
    var t := text[2..];
    assert |t| == 4 && t[0] == text[2] && t[1] == text[3] && t[2] == text[4] && t[3] == text[5];
    InertPlain(t);
  }

  lemma PieceInert(text: string, c: char)
    requires Writes(text, c)
    ensures Inert(text) && NoControl(text)
  {
    InertEmpty();
    if WritesPair(text, c) {
      var hi: nat, lo: nat :| WritesUnit(text[..6], hi) && WritesUnit(text[6..], lo) && IsPair(hi, lo, c);
      UnitInert(text[..6], hi);
      UnitInert(text[6..], lo);
      InertAppend(text[..6], text[6..]);
      assert text == text[..6] + text[6..];
    } else if WritesUnit(text, c as int) {
      UnitInert(text, c as int);
    } else {
      hide WritesPair, WritesUnit;
      assert |text| == 1 ==> text[1..] == "";
      assert |text| == 2 ==> text[2..] == "";
    }
  }

  lemma {:induction false} GluedInert(pieces: seq<string>, t: string)
    requires Spelled(pieces, t)
    ensures Inert(Glued(pieces)) && NoControl(Glued(pieces))
  {
    InertEmpty();
    if t != "" {
      PieceInert(pieces[0], t[0]);
      assert forall i :: 0 <= i < |t| - 1 ==> Writes(pieces[1..][i], t[1..][i]);
      hide Inert, Writes;
      GluedInert(pieces[1..], t[1..]);
      InertAppend(pieces[0], Glued(pieces[1..]));
    }
  }

  /** Between the outer quotes of a JSON string there is no quote that closes it, and no control character. */
  lemma JsonStringInert(token: string, t: string)
    requires IsJsonString(token, t)
    ensures |token| >= 2 && token[0] == '"' && token[|token| - 1] == '"'
    ensures Inert(token[1..|token| - 1]) && NoControl(token)
  {
    var pieces :| token == "\"" + Glued(pieces) + "\"" && Spelled(pieces, t);
    GluedInert(pieces, t);
    hide Spelled, Glued, Inert;
    assert token[1..|token| - 1] == Glued(pieces);
  }
}
