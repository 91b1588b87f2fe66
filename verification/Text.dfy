/** The character and line operations of the original's string type that the codecs rely on:
    white space stripping, line splitting, joining and decimal numerals. */
module Text {
  import opened Options

  /** White space as `str.strip`, `str.isspace` and the pattern class `\s` see it. */
  predicate IsSpace(c: char) {
    var n := c as int;
    || 9 <= n <= 13 || 0x1c <= n <= 0x20 || n == 0x85 || n == 0xa0 || n == 0x1680
    || 0x2000 <= n <= 0x200a || n == 0x2028 || n == 0x2029 || n == 0x202f || n == 0x205f || n == 0x3000
  }

  /** The characters at which `str.splitlines` ends a line. */
  predicate IsLineBreak(c: char) {
    var n := c as int;
    10 <= n <= 13 || 0x1c <= n <= 0x1e || n == 0x85 || n == 0x2028 || n == 0x2029
  }

  predicate OneLine(s: string) {
    forall i :: 0 <= i < |s| ==> !IsLineBreak(s[i])
  }

  /** The two tables, character by character. */
  lemma SpacesAndBreaks(c: char)
    ensures IsSpace(c)
            <==> c as int in {9, 10, 11, 12, 13, 28, 29, 30, 31, 32, 133, 160, 5760, 8192, 8193, 8194, 8195, 8196, 8197,
                              8198, 8199, 8200, 8201, 8202, 8232, 8233, 8239, 8287, 12288}
    ensures IsLineBreak(c) <==> c as int in {10, 11, 12, 13, 28, 29, 30, 133, 8232, 8233}
  {
  }

  function LStrip(s: string): (r: string)
    ensures |r| <= |s| && (r != "" ==> !IsSpace(r[0]))
  {
    if s != "" && IsSpace(s[0]) then LStrip(s[1..]) else s
  }

  function RStrip(s: string): (r: string)
    ensures r <= s && (r != "" ==> !IsSpace(r[|r| - 1]))
  {
    if s != "" && IsSpace(s[|s| - 1]) then RStrip(s[..|s| - 1]) else s
  }

  function Strip(s: string): string {
    RStrip(LStrip(s))
  }

  /** `s.lstrip(" ")`: only the plain space. */
  function LStripBlanks(s: string): (r: string)
    ensures |r| <= |s|
  {
    if s != "" && s[0] == ' ' then LStripBlanks(s[1..]) else s
  }

  /** Not empty, and no white space at either end. */
  predicate Tight(s: string) {
    s != "" && !IsSpace(s[0]) && !IsSpace(s[|s| - 1])
  }

  lemma StripTight(s: string)
    requires s != "" && s == Strip(s)
    ensures Tight(s)
  {
  }

  lemma {:induction false} LStripBlank(s: string)
    ensures LStrip(s) == "" <==> forall c :: c in s ==> IsSpace(c)
  {
    hide IsSpace;
    if s != "" {
      LStripBlank(s[1..]);
      assert s == [s[0]] + s[1..];
    }
  }

  lemma {:induction false} RStripKeeps(s: string)
    requires s != "" && !IsSpace(s[0])
    ensures RStrip(s) != "" && RStrip(s)[0] == s[0]
  {
    hide IsSpace;
    if IsSpace(s[|s| - 1]) {
      RStripKeeps(s[..|s| - 1]);
    }
  }

  /** Only white space strips to nothing. */
  lemma StripBlank(s: string)
    ensures Strip(s) == "" <==> forall c :: c in s ==> IsSpace(c)
  {
    LStripBlank(s);
    hide IsSpace;
    if LStrip(s) != "" {
      RStripKeeps(LStrip(s));
    }
  }

  function Blanks(n: nat): (r: string)
    ensures |r| == n
    ensures forall i :: 0 <= i < n ==> r[i] == ' '
  {
    seq(n, _ => ' ')
  }

  lemma StripOfTight(s: string)
    requires Tight(s)
    ensures Strip(s) == s
  {
  }

  lemma {:induction false} StripPadded(n: nat, s: string)
    requires Tight(s)
    ensures LStrip(Blanks(n) + s) == s
    ensures LStripBlanks(Blanks(n) + s) == s
  {
    var t := Blanks(n) + s;
    if n == 0 {
      assert t == s;
    } else {
      assert t[0] == ' ' && t[1..] == Blanks(n - 1) + s;
      StripPadded(n - 1, s);
    }
  }

  // ---------------------------------------------------------------- joining and splitting

  function Join(sep: string, parts: seq<string>): string {
    if parts == [] then "" else if |parts| == 1 then parts[0] else parts[0] + sep + Join(sep, parts[1..])
  }

  /** `s.split(c)` for a one-character separator; `buf` is the piece read so far. */
  function SplitOn(s: string, c: char, buf: string): (r: seq<string>)
    ensures r != []
  {
    if s == "" then [buf]
    else if s[0] == c then [buf] + SplitOn(s[1..], c, "")
    else SplitOn(s[1..], c, buf + [s[0]])
  }

  lemma {:induction false} SplitOnPiece(p: string, rest: string, c: char, buf: string)
    requires c !in p
    ensures SplitOn(p + rest, c, buf) == SplitOn(rest, c, buf + p)
  {
    if p == "" {
      assert p + rest == rest && buf + p == buf;
    } else {
      assert (p + rest)[1..] == p[1..] + rest;
      assert buf + [p[0]] + p[1..] == buf + p;
      SplitOnPiece(p[1..], rest, c, buf + [p[0]]);
    }
  }

  /** Splitting undoes joining when no part contains the separator. */
  lemma {:induction false} SplitJoin(parts: seq<string>, c: char)
    requires parts != []
    requires forall p :: p in parts ==> c !in p
    ensures SplitOn(Join([c], parts), c, "") == parts
  {
    assert parts[0] in parts;
    if |parts| == 1 {
      SplitOnPiece(parts[0], "", c, "");
      assert parts[0] + "" == parts[0] == "" + parts[0];
    } else {
      var tail := Join([c], parts[1..]);
      assert parts[0] + [c] + tail == parts[0] + ([c] + tail);
      SplitOnPiece(parts[0], [c] + tail, c, "");
      assert ([c] + tail)[1..] == tail;
      forall p | p in parts[1..] ensures c !in p {
        assert p in parts;
      }
      SplitJoin(parts[1..], c);
      assert "" + parts[0] == parts[0];
    }
  }

  // ---------------------------------------------------------------- decimal numerals

  /** The decimal value of a character, for every character of Unicode class Nd. The map itself
      is a parameter; only its ASCII part is fixed. */
  type DigitMap = char -> Option<nat>

  ghost predicate IsDigitMap(digit: DigitMap) {
    && (forall c: char :: '0' <= c <= '9' ==> digit(c) == Some(c as int - '0' as int))
    && (forall c: char :: c < '0' || '9' < c < 128 as char ==> digit(c) == None)
    && (forall c: char :: digit(c).Some? ==> digit(c).value < 10 && !IsSpace(c))
  }

  /** Where the run of decimal digits that starts at `i` ends. */
  function DigitRun(digit: DigitMap, s: string, i: nat): (j: nat)
    requires i <= |s|
    ensures i <= j <= |s|
    decreases |s| - i
  {
    if i < |s| && digit(s[i]).Some? then DigitRun(digit, s, i + 1) else i
  }

  lemma {:induction false} DigitRunStops(digit: DigitMap, s: string, i: nat, j: nat)
    requires i <= j <= |s| && (j < |s| ==> digit(s[j]).None?)
    requires forall k :: i <= k < j ==> digit(s[k]).Some?
    ensures DigitRun(digit, s, i) == j
    decreases j - i
  {
    if i < j {
      DigitRunStops(digit, s, i + 1, j);
    }
  }

  function DigitChar(d: nat): char
    requires d < 10
  {
    ('0' as int + d) as char
  }

  predicate AsciiDigits(s: string) {
    s != "" && forall c :: c in s ==> '0' <= c <= '9'
  }

  /** `str(n)` for a natural number. */
  function NatText(n: nat): (s: string)
    ensures AsciiDigits(s)
  {
    if n < 10 then [DigitChar(n)] else NatText(n / 10) + [DigitChar(n % 10)]
  }

  /** No zero in front, except of zero itself. */
  lemma {:induction false} NatTextForm(n: nat)
    ensures NatText(n)[0] == '0' <==> n == 0
    ensures n < 10 ==> |NatText(n)| == 1
  {
    if n >= 10 {
      NatTextForm(n / 10);
    }
  }

  /** `str(n)`. */
  function IntText(n: int): string {
    if n < 0 then "-" + NatText(-n) else NatText(n)
  }

  /** The digits part of an integer literal: one underscore is allowed between two digits. */
  function DigitsValue(digit: DigitMap, s: string): Option<nat> {
    if s == "" then None
    else
      var d := digit(s[|s| - 1]);
      if d.None? then None
      else if |s| == 1 then d
      else
        var high := DigitsValue(digit, if s[|s| - 2] == '_' then s[..|s| - 2] else s[..|s| - 1]);
        if high.None? then None else Some(high.value * 10 + d.value)
  }

  /** `int(s)`: white space around, an optional sign, then digits. */
  function ParseInt(digit: DigitMap, s: string): Option<int> {
    var t := Strip(s);
    if t == "" then None
    else if t[0] == '-' then
      var v := DigitsValue(digit, t[1..]);
      if v.None? then None else Some(-(v.value as int))
    else if t[0] == '+' then DigitsValue(digit, t[1..])
    else DigitsValue(digit, t)
  }

  lemma DigitsUnfold(digit: DigitMap, t: string)
    requires t != ""
    ensures DigitsValue(digit, t)
            == if digit(t[|t| - 1]).None? then None
               else if |t| == 1 then digit(t[|t| - 1])
               else
                 var high := DigitsValue(digit, if t[|t| - 2] == '_' then t[..|t| - 2] else t[..|t| - 1]);
                 if high.None? then None else Some(high.value * 10 + digit(t[|t| - 1]).value)
  {
    hide IsSpace, IsDigitMap;
  }

  lemma Snoc(s: string, c: char)
    ensures var t := s + [c];
            && t != "" && t[|t| - 1] == c && t[..|t| - 1] == s && (|t| == 1 <==> s == "")
            && (s != "" ==> t[|t| - 2] == s[|s| - 1] && t[..|t| - 2] == s[..|s| - 1])
  {
  }

  /** The last character decides first; an underscore before it is skipped. */
  lemma DigitsLast(digit: DigitMap, s: string, c: char)
    ensures DigitsValue(digit, s + [c])
            == if digit(c).None? then None
               else if s == "" then digit(c)
               else
                 var high := DigitsValue(digit, if s[|s| - 1] == '_' then s[..|s| - 1] else s);
                 if high.None? then None else Some(high.value * 10 + digit(c).value)
  {
    hide DigitsValue, IsSpace, IsDigitMap;
    Snoc(s, c);
    DigitsUnfold(digit, s + [c]);
  }

  /** One more digit, with or without an underscore before it, makes ten times the number and that digit. */
  lemma DigitsMore(digit: DigitMap, s: string, c: char)
    requires IsDigitMap(digit) && DigitsValue(digit, s).Some? && digit(c).Some?
    ensures DigitsValue(digit, s + [c]) == Some(DigitsValue(digit, s).value * 10 + digit(c).value)
    ensures DigitsValue(digit, s + "_" + [c]) == DigitsValue(digit, s + [c])
  {
    hide DigitsValue, IsDigitMap, IsSpace;
    DigitsShape(digit, s);
    UnderscoreIsNone(digit);
    DigitsLast(digit, s, c);
    DigitsLast(digit, s + "_", c);
    Snoc(s, '_');
  }

  lemma UnderscoreIsNone(digit: DigitMap)
    requires IsDigitMap(digit)
    ensures digit('_').None?
  {
  }

  /** A single digit is a number; nothing that is empty, ends in another character, starts with an underscore
      or has two in a row is one. */
  lemma DigitsRefused(digit: DigitMap, s: string, c: char)
    requires IsDigitMap(digit)
    ensures DigitsValue(digit, "") == None && DigitsValue(digit, [c]) == digit(c)
    ensures digit(c).None? ==> DigitsValue(digit, s + [c]) == None
    ensures DigitsValue(digit, "_" + [c]) == None
    ensures DigitsValue(digit, s + "__" + [c]) == None
  {
    UnderscoreIsNone(digit);
    DigitsLast(digit, s, c);
    DigitsLast(digit, "_", c);
    DigitsLast(digit, s + "__", c);
    DigitsLast(digit, s, '_');
    DigitsLast(digit, "", c);
    assert DigitsValue(digit, "") == None;
    hide DigitsValue, IsDigitMap, IsSpace;
    assert "_"[..0] == "" && "" + [c] == [c] && s + "__" == (s + ['_']) + ['_'];
    Snoc(s + ['_'], '_');
  }

  /** White space around and one sign in front are allowed. */
  lemma SignedInt(digit: DigitMap, before: string, s: string, after: string)
    requires IsDigitMap(digit) && DigitsValue(digit, s).Some?
    requires forall c :: c in before || c in after ==> IsSpace(c)
    ensures var n := DigitsValue(digit, s).value;
            && ParseInt(digit, before + s + after) == Some(n)
            && ParseInt(digit, before + ("+" + s) + after) == Some(n)
            && ParseInt(digit, before + ("-" + s) + after) == Some(-(n as int))
  {
    hide *;
    DigitsShape(digit, s);
    SignTight(s);
    ParseAround(digit, before, s, after);
    ParseAround(digit, before, "+" + s, after);
    ParseAround(digit, before, "-" + s, after);
  }

  lemma SignTight(s: string)
    requires Tight(s)
    ensures s != "" && Tight("+" + s) && Tight("-" + s)
    ensures ("+" + s)[0] == '+' && ("-" + s)[0] == '-' && ("+" + s)[1..] == s && ("-" + s)[1..] == s
  {
  }

  lemma ParseAround(digit: DigitMap, before: string, t: string, after: string)
    requires Tight(t) && t != "" && forall c :: c in before || c in after ==> IsSpace(c)
    ensures ParseInt(digit, before + t + after)
            == if t[0] == '-' then
                 (match DigitsValue(digit, t[1..]) case Some(n) => Some(-(n as int)) case None => None)
               else DigitsValue(digit, if t[0] == '+' then t[1..] else t)
  {
    hide *;
    StripAround(before, t, after);
    ParseStripped(digit, before + t + after, t);
  }

  lemma ParseStripped(digit: DigitMap, s: string, t: string)
    requires Strip(s) == t && t != ""
    ensures ParseInt(digit, s)
            == if t[0] == '-' then
                 (match DigitsValue(digit, t[1..]) case Some(n) => Some(-(n as int)) case None => None)
               else DigitsValue(digit, if t[0] == '+' then t[1..] else t)
  {
    hide Strip, DigitsValue;
  }

  lemma {:induction false} DigitsShape(digit: DigitMap, s: string)
    requires IsDigitMap(digit) && DigitsValue(digit, s).Some?
    ensures s != "" && digit(s[0]).Some? && digit(s[|s| - 1]).Some?
    ensures s[0] != '+' && s[0] != '-' && Tight(s)
    decreases |s|
  {
    if |s| > 1 {
      DigitsShape(digit, if s[|s| - 2] == '_' then s[..|s| - 2] else s[..|s| - 1]);
    }
  }

  /** Stripping takes the white space on both sides. */
  lemma StripAround(before: string, s: string, after: string)
    requires Tight(s) && forall c :: c in before || c in after ==> IsSpace(c)
    ensures Strip(before + s + after) == s
  {
    LStripBefore(before, s + after);
    RStripAfter(s, after);
    hide IsSpace;
    assert before + s + after == before + (s + after);
  }

  lemma {:induction false} LStripBefore(before: string, s: string)
    requires s != "" && !IsSpace(s[0]) && forall c :: c in before ==> IsSpace(c)
    ensures LStrip(before + s) == s
  {
    hide IsSpace;
    if before == "" {
      assert before + s == s;
    } else {
      assert before[0] in before && (before + s)[1..] == before[1..] + s;
      LStripBefore(before[1..], s);
    }
  }

  lemma {:induction false} RStripAfter(s: string, after: string)
    requires forall c :: c in after ==> IsSpace(c)
    ensures RStrip(s + after) == RStrip(s)
  {
    hide IsSpace;
    if after == "" {
      assert s + after == s;
    } else {
      var k := |after| - 1;
      assert after[k] in after && (s + after)[..|s + after| - 1] == s + after[..k];
      RStripAfter(s, after[..k]);
    }
  }

  lemma DigitCharValue(digit: DigitMap, d: nat)
    requires IsDigitMap(digit) && d < 10
    ensures digit(DigitChar(d)) == Some(d) && DigitChar(d) != '_'
  {
  }

  lemma {:induction false} NatTextValue(digit: DigitMap, n: nat)
    requires IsDigitMap(digit)
    ensures DigitsValue(digit, NatText(n)) == Some(n)
  {
    hide IsDigitMap, DigitChar;
    DigitCharValue(digit, n % 10);
    if n >= 10 {
      var (s, high) := (NatText(n), NatText(n / 10));
      assert s[..|s| - 1] == high;
      assert s[|s| - 2] == high[|high| - 1] && high[|high| - 1] in high;
      NatTextValue(digit, n / 10);
    }
  }

  lemma DigitsTight(s: string)
    requires AsciiDigits(s)
    ensures Tight(s) && '0' <= s[0] <= '9'
  {
    assert s[0] in s && s[|s| - 1] in s;
  }

  lemma IntTextTight(n: int)
    ensures Tight(IntText(n))
    ensures if n < 0 then IntText(n)[0] == '-' && IntText(n)[1..] == NatText(-n) else '0' <= IntText(n)[0] <= '9'
  {
    hide NatText;
    DigitsTight(NatText(if n < 0 then -n else n));
  }

  lemma IntTextValue(digit: DigitMap, n: int)
    requires IsDigitMap(digit)
    ensures ParseInt(digit, IntText(n)) == Some(n)
  {
    hide IsDigitMap, NatText, DigitsValue, Strip;
    IntTextTight(n);
    NatTextValue(digit, if n < 0 then -n else n);
    StripOfTight(IntText(n));
  }
}
