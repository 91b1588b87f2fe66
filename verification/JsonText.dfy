/** JSON string syntax (section 7 of RFC 8259), as `json.dumps` prints it with ASCII output and as
    `json.loads` reads it. */
module JsonText {
  import opened Options

  // ---------------------------------------------------------------- hexadecimal code units

  type CodeUnit = n: int | 0 <= n < 0x10000

  function HexChar(d: nat): char
    requires d < 16
  {
    if d < 10 then ('0' as int + d) as char else ('a' as int + d - 10) as char
  }

  function HexValue(c: char): Option<nat> {
    if '0' <= c <= '9' then Some(c as int - '0' as int)
    else if 'a' <= c <= 'f' then Some(c as int - 'a' as int + 10)
    else if 'A' <= c <= 'F' then Some(c as int - 'A' as int + 10)
    else None
  }

  /** `\uXXXX` for one UTF-16 code unit. */
  function UnitText(n: CodeUnit): string {
    ['\\', 'u', HexChar(n / 4096), HexChar(n / 256 % 16), HexChar(n / 16 % 16), HexChar(n % 16)]
  }

  /** The code unit written by a `\uXXXX` at the start of `s`. */
  function ReadUnit(s: string): Option<CodeUnit> {
    if |s| < 6 || s[0] != '\\' || s[1] != 'u' then None
    else
      var (a, b, c, d) := (HexValue(s[2]), HexValue(s[3]), HexValue(s[4]), HexValue(s[5]));
      if a.None? || b.None? || c.None? || d.None? then None
      else UnitOfDigits(a.value, b.value, c.value, d.value)
  }

  function UnitOfDigits(a: nat, b: nat, c: nat, d: nat): Option<CodeUnit> {
    if a < 16 && b < 16 && c < 16 && d < 16 then Some(((a * 16 + b) * 16 + c) * 16 + d) else None
  }

  lemma HexRoundTrip(d: nat)
    requires d < 16
    ensures HexValue(HexChar(d)) == Some(d)
    ensures ' ' <= HexChar(d) <= '~' && HexChar(d) != '"' && HexChar(d) != '\\'
  {
  }

  lemma HexDigits(n: CodeUnit)
    ensures n / 4096 < 16
    ensures UnitOfDigits(n / 4096, n / 256 % 16, n / 16 % 16, n % 16) == Some(n)
  {
    var (n1, n2, n3) := (n / 16, n / 256, n / 4096);
    assert n1 / 16 == n2 && n2 / 16 == n3;
    assert n == n1 * 16 + n % 16 && n1 == n2 * 16 + n1 % 16 && n2 == n3 * 16 + n2 % 16;
  }

  lemma ReadUnitText(n: CodeUnit, rest: string)
    ensures ReadUnit(UnitText(n) + rest) == Some(n)
  {
    hide HexChar, HexValue, UnitOfDigits;
    HexDigits(n);
    HexRoundTrip(n / 4096);
    HexRoundTrip(n / 256 % 16);
    HexRoundTrip(n / 16 % 16);
    HexRoundTrip(n % 16);
  }

  // ---------------------------------------------------------------- printing

  /** The letter of the two-character escape of `c`, if it has one. */
  function ShortName(c: char): (r: Option<char>)
    ensures r.Some? ==> ' ' <= r.value <= '~' && r.value != 'u'
    ensures r.None? ==> c != '"' && c != '\\'
  {
    if c == '"' || c == '\\' then Some(c)
    else if c == '\n' then Some('n')
    else if c == '\r' then Some('r')
    else if c == '\t' then Some('t')
    else if c as int == 8 then Some('b')
    else if c as int == 12 then Some('f')
    else None
  }

  function EscapeChar(c: char): string {
    var name := ShortName(c);
    if name.Some? then ['\\', name.value] else if ' ' <= c <= '~' then [c] else UnitsText(c as int)
  }

  /** One code unit, or a surrogate pair. */
  function UnitsText(n: nat): string
    requires n < 0x110000
  {
    if n < 0x10000 then UnitText(n)
    else UnitText(0xd800 + (n - 0x10000) / 0x400) + UnitText(0xdc00 + (n - 0x10000) % 0x400)
  }

  function Escape(s: string): string {
    if s == "" then "" else EscapeChar(s[0]) + Escape(s[1..])
  }

  /** `json.dumps(s)` for a string. */
  function Quote(s: string): string {
    "\"" + Escape(s) + "\""
  }

  // ---------------------------------------------------------------- reading

  /** The character named by a two-character escape. */
  function ShortEscape(c: char): Option<char> {
    if c == '"' || c == '\\' || c == '/' then Some(c)
    else if c == 'b' then Some(8 as char)
    else if c == 'f' then Some(12 as char)
    else if c == 'n' then Some('\n')
    else if c == 'r' then Some('\r')
    else if c == 't' then Some('\t')
    else None
  }

  /** The first character written in a string body, and the number of places it takes. A surrogate
      that has no partner is refused: it is not a character. */
  function ReadChar(s: string): (r: Option<(char, nat)>)
    requires s != ""
    ensures r.Some? ==> 0 < r.value.1 <= |s|
  {
    if s[0] == '"' || s[0] < ' ' then None
    else if s[0] != '\\' then Some((s[0], 1))
    else if |s| == 1 then None
    else if s[1] != 'u' then
      var c := ShortEscape(s[1]);
      if c.None? then None else Some((c.value, 2))
    else
      var hi := ReadUnit(s);
      if hi.None? || 0xdc00 <= hi.value < 0xe000 then None
      else if hi.value < 0xd800 || 0xe000 <= hi.value then Some((hi.value as char, 6))
      else
        var lo := ReadUnit(s[6..]);
        if lo.None? || lo.value < 0xdc00 || 0xe000 <= lo.value then None
        else Some(((0x10000 + (hi.value - 0xd800) * 0x400 + lo.value - 0xdc00) as char, 12))
  }

  function Unescape(s: string): Option<string> {
    if s == "" then Some("")
    else
      var c := ReadChar(s);
      if c.None? then None
      else
        var rest := Unescape(s[c.value.1..]);
        if rest.None? then None else Some([c.value.0] + rest.value)
  }

  /** `json.loads` of a text that starts with a quote: one whole string, or an error. */
  function Loads(s: string): Option<string> {
    if |s| >= 2 && s[0] == '"' && s[|s| - 1] == '"' then Unescape(s[1..|s| - 1]) else None
  }

  // ---------------------------------------------------------------- properties

  lemma ReadEscapedChar(c: char, rest: string)
    ensures EscapeChar(c) != ""
    ensures ReadChar(EscapeChar(c) + rest) == Some((c, |EscapeChar(c)|))
  {
    if ShortName(c).None? && !(' ' <= c <= '~') {
      ReadEscapedUnits(c, rest);
    }
  }

  lemma ReadEscapedUnits(c: char, rest: string)
    ensures ReadChar(UnitsText(c as int) + rest) == Some((c, |UnitsText(c as int)|))
  {
    hide ReadUnit, HexChar;
    if c as int < 0x10000 {
      ReadUnitText(c as int, rest);
    } else {
      var n := c as int - 0x10000;
      var (hi, lo) := (0xd800 + n / 0x400, 0xdc00 + n % 0x400);
      var s := UnitText(hi) + UnitText(lo) + rest;
      assert s == UnitText(hi) + (UnitText(lo) + rest);
      assert s[6..] == UnitText(lo) + rest;
      ReadUnitText(hi, UnitText(lo) + rest);
      ReadUnitText(lo, rest);
    }
  }

  /** Reading a printed string gives the string back, for every string. */
  lemma {:induction false} LoadsQuote(s: string)
    ensures Unescape(Escape(s)) == Some(s)
    ensures Loads(Quote(s)) == Some(s)
  {
    assert Quote(s)[1..|Quote(s)| - 1] == Escape(s);
    if s != "" {
      var (head, tail) := (EscapeChar(s[0]), Escape(s[1..]));
      ReadEscapedChar(s[0], tail);
      assert (head + tail)[|head|..] == tail;
      LoadsQuote(s[1..]);
      assert ReadChar(Escape(s)) == Some((s[0], |head|));
      assert [s[0]] + s[1..] == s;
    }
  }

  /** A text in which every quote is behind a backslash, and every backslash has its character: read
      from inside a quoted span, it leaves the span open. */
  predicate Inert(s: string) {
    || s == ""
    || (s[0] == '\\' && |s| >= 2 && Inert(s[2..]))
    || (s[0] != '\\' && s[0] != '"' && Inert(s[1..]))
  }

  lemma {:induction false} InertAppend(a: string, b: string)
    requires Inert(a) && Inert(b)
    ensures Inert(a + b)
  {
    if a == "" {
      assert a + b == b;
    } else if a[0] == '\\' {
      assert (a + b)[2..] == a[2..] + b;
      InertAppend(a[2..], b);
    } else {
      assert (a + b)[1..] == a[1..] + b;
      InertAppend(a[1..], b);
    }
  }

  lemma InertEmpty()
    ensures Inert("")
  {
  }

  predicate PlainText(s: string) {
    forall i :: 0 <= i < |s| ==> ' ' <= s[i] <= '~' && s[i] != '"' && s[i] != '\\'
  }

  lemma {:induction false} InertPlain(s: string)
    requires PlainText(s)
    ensures Inert(s)
  {
    if s != "" {
      InertPlain(s[1..]);
    }
  }

  predicate Printable(s: string) {
    forall c :: c in s ==> ' ' <= c <= '~'
  }

  lemma InertUnit(n: CodeUnit)
    ensures Inert(UnitText(n)) && Printable(UnitText(n))
  {
    hide HexChar;
    var s := UnitText(n);
    HexRoundTrip(n / 4096);
    HexRoundTrip(n / 256 % 16);
    HexRoundTrip(n / 16 % 16);
    HexRoundTrip(n % 16);
    var t := s[2..];
    assert |t| == 4 && t[0] == s[2] && t[1] == s[3] && t[2] == s[4] && t[3] == s[5];
    InertPlain(t);
  }

  lemma InertEscapeChar(c: char)
    ensures Inert(EscapeChar(c)) && Printable(EscapeChar(c))
  {
    hide UnitsText, ShortName;
    if ShortName(c).None? {
      if !(' ' <= c <= '~') {
        InertUnits(c as int);
      }
    } else {
      assert ['\\', ShortName(c).value][2..] == "";
    }
  }

  lemma InertUnits(n: nat)
    requires n < 0x110000
    ensures Inert(UnitsText(n)) && Printable(UnitsText(n))
  {
    hide UnitText, Inert;
    if n < 0x10000 {
      InertUnit(n);
    } else {
      var (hi, lo) := (0xd800 + (n - 0x10000) / 0x400, 0xdc00 + (n - 0x10000) % 0x400);
      InertUnit(hi);
      InertUnit(lo);
      InertAppend(UnitText(hi), UnitText(lo));
    }
  }

  /** The printed body never closes its own quotes and is printable ASCII. */
  lemma {:induction false} EscapeShape(s: string)
    ensures Inert(Escape(s)) && Printable(Escape(s))
  {
    hide Inert, EscapeChar;
    if s == "" {
      assert Inert("") by { InertEmpty(); }
    } else {
      InertEscapeChar(s[0]);
      EscapeShape(s[1..]);
      InertAppend(EscapeChar(s[0]), Escape(s[1..]));
    }
  }

  predicate LowerHex(s: string) {
    forall i :: 0 <= i < |s| ==> '0' <= s[i] <= '9' || 'a' <= s[i] <= 'f'
  }

  /** A code unit is a backslash, a `u` and its four lower-case digits. */
  lemma UnitForm(n: CodeUnit)
    ensures var s := UnitText(n);
            |s| == 6 && s[0] == '\\' && s[1] == 'u' && LowerHex(s[2..]) && ReadUnit(s) == Some(n)
  {
    ReadUnitText(n, "");
    assert UnitText(n) + "" == UnitText(n);
  }

  /** What each character is printed as: itself, a two-character escape, or its code units. */
  lemma EscapeForm(c: char)
    ensures ' ' <= c <= '~' && c != '"' && c != '\\' ==> EscapeChar(c) == [c]
    ensures c == '"' || c == '\\' ==> EscapeChar(c) == ['\\', c]
    ensures EscapeChar('\n') == "\\n" && EscapeChar('\r') == "\\r" && EscapeChar('\t') == "\\t"
    ensures EscapeChar(8 as char) == "\\b" && EscapeChar(12 as char) == "\\f"
    ensures !(' ' <= c <= '~') && c as int !in {8, 9, 10, 12, 13} && c as int < 0x10000
            ==> EscapeChar(c) == UnitText(c as int)
    ensures c as int >= 0x10000
            ==> var n := c as int - 0x10000;
                EscapeChar(c) == UnitText(0xd800 + n / 0x400) + UnitText(0xdc00 + n % 0x400)
  {
  }

  lemma {:induction false} EscapeJoin(a: string, b: string)
    ensures Escape(a + b) == Escape(a) + Escape(b)
  {
    if a == "" {
      assert a + b == b;
    } else {
      assert (a + b)[1..] == a[1..] + b;
      EscapeJoin(a[1..], b);
      assert EscapeChar(a[0]) + (Escape(a[1..]) + Escape(b)) == EscapeChar(a[0]) + Escape(a[1..]) + Escape(b);
    }
  }

  /** A printed string: each character's escape in turn, between quotes. */
  lemma QuoteForm(a: string, c: char, b: string)
    ensures Quote("") == "\"\""
    ensures Quote(a + [c] + b) == "\"" + Escape(a) + EscapeChar(c) + Escape(b) + "\""
  {
    hide EscapeChar;
    EscapeOne(c);
    hide Escape;
    EscapeJoin(a + [c], b);
    EscapeJoin(a, [c]);
    Quoted(Escape(a), EscapeChar(c), Escape(b));
    EmptyQuoted();
  }

  lemma EscapeOne(c: char)
    ensures Escape([c]) == EscapeChar(c)
  {
    hide EscapeChar;
    assert [c][1..] == "";
    assert EscapeChar(c) + "" == EscapeChar(c);
  }

  lemma Quoted(a: string, b: string, c: string)
    ensures "\"" + (a + b + c) + "\"" == "\"" + a + b + c + "\""
  {
  }

  lemma EmptyQuoted()
    ensures Quote("") == "\"\""
  {
    assert Escape("") == "";
    assert "\"" + "" + "\"" == "\"\"";
  }
}
