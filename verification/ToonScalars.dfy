/** TOON values, the quoting rules, and the text of single values and comma-separated rows. */
module ToonScalars {
  import opened Options
  import opened Text
  import JsonText

  // ---------------------------------------------------------------- values

  /** A floating-point number other than NaN, as its bit pattern. */
  datatype Float = Float(bits: nat)

  /** JSON-shaped data. An object is its members in insertion order. */
  datatype Value =
    | Null
    | Bool(b: bool)
    | Int(n: int)
    | Num(f: Float)
    | Str(s: string)
    | List(items: seq<Value>)
    | Obj(members: seq<Member>)

  datatype Member = Member(key: string, value: Value)

  predicate IsPrimitive(v: Value) {
    !v.List? && !v.Obj?
  }

  predicate HasKey(ms: seq<Member>, k: string) {
    exists i :: 0 <= i < |ms| && ms[i].key == k
  }

  predicate DistinctKeys(ms: seq<Member>) {
    forall i, j :: 0 <= i < j < |ms| ==> ms[i].key != ms[j].key
  }

  /** Objects are dictionaries: no key occurs twice, at any depth. */
  predicate WellFormed(v: Value)
    decreases v, 0
  {
    match v
    case List(items) => forall x :: x in items ==> WellFormed(x)
    case Obj(ms) => WellFormedMembers(ms)
    case _ => true
  }

  predicate WellFormedMembers(ms: seq<Member>)
    decreases ms, 1
  {
    DistinctKeys(ms) && forall m :: m in ms ==> WellFormed(m.value)
  }

  /** What the decoder can raise: a header it cannot read, a bad JSON string, a missing line. */
  datatype ToonError = TopLevelScalar | MalformedHeader | BadJson | OutOfLines

  type Decoded<T> = Result<T, ToonError>

  // ---------------------------------------------------------------- numbers

  /** How Python reads digits and prints and reads floats. */
  datatype Numbers = Numbers(
    digit: DigitMap,
    printFloat: Float -> string,
    parseFloat: string -> Option<Float>)

  predicate NumberChar(c: char) {
    || '0' <= c <= '9' || c == '+' || c == '-' || c == '.'
    || c == 'e' || c == 'I' || c == 'n' || c == 'f' || c == 'i' || c == 't' || c == 'y'
  }

  /** The print/parse law: a printed float is made of number characters only, is no integer
      literal, and reads back as itself. */
  ghost predicate Lawful(num: Numbers) {
    && IsDigitMap(num.digit)
    && forall f ::
         && NumberText(num.printFloat(f))
         && ParseInt(num.digit, num.printFloat(f)) == None
         && num.parseFloat(num.printFloat(f)) == Some(f)
  }

  predicate LooksNumeric(num: Numbers, s: string) {
    ParseInt(num.digit, s).Some? || num.parseFloat(s).Some?
  }

  // ---------------------------------------------------------------- quoting

  predicate ValueNeedsQuote(num: Numbers, s: string) {
    || s == "" || s != Strip(s)
    || ',' in s || '"' in s || '\n' in s || '\t' in s
    || s[0] == '[' || s[0] == '{' || s[0] == '-' || s[0] == '#' || s[0] == '"' || s[0] == '\''
    || s == "true" || s == "false" || s == "null"
    || LooksNumeric(num, s)
  }

  predicate KeyNeedsQuote(k: string) {
    || k == "" || k != Strip(k)
    || ',' in k || ':' in k || '"' in k || '[' in k || ']' in k || '{' in k || '}' in k
    || ' ' in k || '\n' in k || '\t' in k
    || k[0] == '-' || k[0] == '#' || k[0] == '"' || k[0] == '\''
  }

  function EncStr(num: Numbers, s: string): string {
    if ValueNeedsQuote(num, s) then JsonText.Quote(s) else s
  }

  function EncKey(k: string): string {
    if KeyNeedsQuote(k) then JsonText.Quote(k) else k
  }

  function EncScalar(num: Numbers, v: Value): string
    requires IsPrimitive(v)
  {
    match v
    case Null => "null"
    case Bool(b) => if b then "true" else "false"
    case Int(n) => IntText(n)
    case Num(f) => num.printFloat(f)
    case Str(s) => EncStr(num, s)
  }

  function LoadsString(s: string): Decoded<string> {
    var r := JsonText.Loads(s);
    if r.None? then Err(BadJson) else Ok(r.value)
  }

  function DecScalar(num: Numbers, token: string): Decoded<Value> {
    var tok := Strip(token);
    if tok == "" then Ok(Str(""))
    else if tok[0] == '"' then
      var s :- LoadsString(tok);
      Ok(Str(s))
    else if tok == "null" then Ok(Null)
    else if tok == "true" then Ok(Bool(true))
    else if tok == "false" then Ok(Bool(false))
    else
      var n := ParseInt(num.digit, tok);
      if n.Some? then Ok(Int(n.value))
      else
        var f := num.parseFloat(tok);
        if f.Some? then Ok(Num(f.value)) else Ok(Str(tok))
  }

  // ---------------------------------------------------------------- rows

  /** `_split_top` before its final strip: split at the delimiters outside quoted spans. */
  function SplitScan(s: string, delim: char, inQuote: bool, buf: string): (r: seq<string>)
    ensures r != []
  {
    if s == "" then [buf]
    else if inQuote then
      if s[0] == '\\' && |s| > 1 then SplitScan(s[2..], delim, true, buf + s[..2])
      else SplitScan(s[1..], delim, s[0] != '"', buf + [s[0]])
    else if s[0] == '"' then SplitScan(s[1..], delim, true, buf + [s[0]])
    else if s[0] == delim then [buf] + SplitScan(s[1..], delim, false, "")
    else SplitScan(s[1..], delim, false, buf + [s[0]])
  }

  function StripAll(parts: seq<string>): (r: seq<string>)
    ensures |r| == |parts|
    ensures forall i :: 0 <= i < |parts| ==> r[i] == Strip(parts[i])
  {
    seq(|parts|, i requires 0 <= i < |parts| => Strip(parts[i]))
  }

  function SplitTop(s: string): seq<string> {
    StripAll(SplitScan(s, ',', false, ""))
  }

  function EncCells(num: Numbers, vs: seq<Value>): (r: seq<string>)
    requires forall v :: v in vs ==> IsPrimitive(v)
    ensures |r| == |vs|
    ensures forall i :: 0 <= i < |vs| ==> r[i] == EncScalar(num, vs[i])
  {
    seq(|vs|, i requires 0 <= i < |vs| => EncScalar(num, vs[i]))
  }

  function DecCells(num: Numbers, cells: seq<string>): (r: Decoded<seq<Value>>)
    ensures r.Ok? ==> |r.value| == |cells|
  {
    if cells == [] then Ok([])
    else
      var v :- DecScalar(num, cells[0]);
      var rest := DecCells(num, cells[1..]);
      if rest.Err? then rest else Ok([v] + rest.value)
  }

  // ---------------------------------------------------------------- properties

  /** Text that a row may hold between two commas: either no comma and no quote at all, or one
      quoted span. */
  predicate IsCell(t: string) {
    && Tight(t) && '\n' !in t
    && ((',' !in t && '"' !in t)
        || (|t| >= 2 && t[0] == '"' && t[|t| - 1] == '"' && JsonText.Inert(t[1..|t| - 1])))
  }

  lemma QuoteIsCell(s: string)
    ensures IsCell(JsonText.Quote(s))
  {
    var (q, body) := (JsonText.Quote(s), JsonText.Escape(s));
    JsonText.EscapeShape(s);
    assert q[1..|q| - 1] == body;
  }

  lemma {:induction false} BareStrShape(num: Numbers, s: string)
    requires !ValueNeedsQuote(num, s)
    ensures IsCell(s) && s[0] != '[' && s[0] != '"'
  {
    StripTight(s);
  }

  predicate NumberText(s: string) {
    s != "" && forall i :: 0 <= i < |s| ==> NumberChar(s[i])
  }

  lemma NumberIsCell(s: string)
    requires NumberText(s)
    ensures IsCell(s) && s[0] != '[' && s[0] != '"'
    ensures s != "null" && s != "true" && s != "false"
  {
    assert !NumberChar("null"[1]) && !NumberChar("true"[2]) && !NumberChar("false"[1]);
  }

  lemma IntIsNumberText(n: int)
    ensures NumberText(IntText(n))
  {
    var s := NatText(if n < 0 then -n else n);
    forall i | 0 <= i < |s| ensures NumberChar(s[i]) { assert s[i] in s; }
  }

  /** The text of a scalar is one cell of a row and never looks like an array header. */
  lemma EncScalarShape(num: Numbers, v: Value)
    requires Lawful(num) && IsPrimitive(v)
    ensures IsCell(EncScalar(num, v)) && EncScalar(num, v)[0] != '['
  {
    match v
    case Int(n) => IntIsNumberText(n); NumberIsCell(IntText(n));
    case Num(f) => NumberIsCell(num.printFloat(f));
    case Str(s) =>
      if ValueNeedsQuote(num, s) { QuoteIsCell(s); } else { BareStrShape(num, s); }
    case _ =>
  }

  /** A scalar reads back as itself, with its type: no string turns into a number, a boolean or
      null, and no number or constant turns into a string. */
  lemma ScalarRoundTrip(num: Numbers, v: Value)
    requires Lawful(num) && IsPrimitive(v)
    ensures DecScalar(num, EncScalar(num, v)) == Ok(v)
  {
    hide ParseInt, IsDigitMap, DecScalar, IntText, EncStr;
    match v
    case Int(n) =>
      IntTextValue(num.digit, n);
      IntIsNumberText(n);
      NumberTokenRead(num, IntText(n));
    case Num(f) => NumberTokenRead(num, num.printFloat(f));
    case Str(s) => StrRoundTrip(num, s);
    case _ => ConstantsRead(num);
  }

  lemma ConstantsRead(num: Numbers)
    ensures DecScalar(num, "null") == Ok(Null)
    ensures DecScalar(num, "true") == Ok(Bool(true))
    ensures DecScalar(num, "false") == Ok(Bool(false))
  {
    hide Strip, ParseInt, IsSpace;
    ConstantsTight();
    StripOfTight("null");
    StripOfTight("true");
    StripOfTight("false");
    assert "null"[0] != "true"[0] && "null"[0] != "false"[0] && "true"[0] != "false"[0];
  }

  lemma ConstantsTight()
    ensures Tight("null") && Tight("true") && Tight("false")
  {
  }

  lemma NumberTokenRead(num: Numbers, s: string)
    requires NumberText(s) && LooksNumeric(num, s)
    ensures DecScalar(num, s) == Ok(
      if ParseInt(num.digit, s).Some? then Int(ParseInt(num.digit, s).value) else Num(num.parseFloat(s).value))
  {
    hide ParseInt, Strip;
    NumberIsCell(s);
    StripOfTight(s);
  }

  lemma StrRoundTrip(num: Numbers, s: string)
    ensures DecScalar(num, EncStr(num, s)) == Ok(Str(s))
  {
    if ValueNeedsQuote(num, s) {
      hide ValueNeedsQuote;
      QuoteIsCell(s);
      JsonText.LoadsQuote(s);
    } else {
      BareStrShape(num, s);
    }
  }

  lemma {:induction false} ScanInert(a: string, rest: string, delim: char, buf: string)
    requires JsonText.Inert(a)
    ensures SplitScan(a + rest, delim, true, buf) == SplitScan(rest, delim, true, buf + a)
  {
    if a == "" {
      assert a + rest == rest && buf + a == buf;
    } else {
      var k := if a[0] == '\\' then 2 else 1;
      assert (a + rest)[k..] == a[k..] + rest && (a + rest)[..k] == a[..k];
      assert buf + a[..k] + a[k..] == buf + a && a[..1] == [a[0]];
      ScanInert(a[k..], rest, delim, buf + a[..k]);
    }
  }

  lemma {:induction false} ScanBare(a: string, rest: string, delim: char, buf: string)
    requires delim !in a && '"' !in a
    ensures SplitScan(a + rest, delim, false, buf) == SplitScan(rest, delim, false, buf + a)
  {
    if a == "" {
      assert a + rest == rest && buf + a == buf;
    } else {
      assert a[0] in a;
      assert (a + rest)[1..] == a[1..] + rest;
      assert buf + [a[0]] + a[1..] == buf + a;
      ScanBare(a[1..], rest, delim, buf + [a[0]]);
    }
  }

  /** A cell is read whole, whatever follows it. */
  lemma ScanCell(t: string, rest: string, buf: string)
    requires IsCell(t)
    ensures SplitScan(t + rest, ',', false, buf) == SplitScan(rest, ',', false, buf + t)
  {
    if ',' in t || '"' in t {
      var body := t[1..|t| - 1];
      assert t + rest == "\"" + (body + ("\"" + rest));
      assert (t + rest)[1..] == body + ("\"" + rest);
      ScanInert(body, "\"" + rest, ',', buf + "\"");
      assert ("\"" + rest)[1..] == rest;
      assert buf + "\"" + body + "\"" == buf + t;
    } else {
      ScanBare(t, rest, ',', buf);
    }
  }

  lemma {:induction false} ScanRow(cells: seq<string>)
    requires cells != [] && forall t :: t in cells ==> IsCell(t)
    ensures SplitScan(Join(",", cells), ',', false, "") == cells
  {
    hide IsCell;
    var t := cells[0];
    assert "" + t == t;
    if |cells| == 1 {
      ScanCell(t, "", "");
      assert t + "" == t && cells == [t];
    } else {
      var tail := Join(",", cells[1..]);
      assert t + "," + tail == t + ("," + tail);
      ScanCell(t, "," + tail, "");
      assert ("," + tail)[1..] == tail;
      ScanRow(cells[1..]);
      assert [t] + cells[1..] == cells;
    }
  }

  /** Splitting a joined row gives back its cells. */
  lemma SplitRow(cells: seq<string>)
    requires cells != [] && forall t :: t in cells ==> IsCell(t)
    ensures SplitTop(Join(",", cells)) == cells
  {
    hide Strip, SplitScan;
    ScanRow(cells);
    forall i | 0 <= i < |cells| ensures Strip(cells[i]) == cells[i] {
      assert cells[i] in cells;
      StripOfTight(cells[i]);
    }
    assert StripAll(cells) == cells;
  }

  /** A joined row starts and ends with white-space-free text and stays on one line. */
  lemma {:induction false} RowShape(cells: seq<string>)
    requires cells != [] && forall t :: t in cells ==> IsCell(t)
    ensures Tight(Join(",", cells)) && '\n' !in Join(",", cells)
  {
    assert cells[0] in cells;
    if |cells| > 1 {
      RowShape(cells[1..]);
    }
  }

  /** The values of an inline array or table row survive printing and reading. */
  lemma {:induction false} CellsRoundTrip(num: Numbers, vs: seq<Value>)
    requires Lawful(num) && forall v :: v in vs ==> IsPrimitive(v)
    ensures forall t :: t in EncCells(num, vs) ==> IsCell(t)
    ensures DecCells(num, EncCells(num, vs)) == Ok(vs)
    ensures vs != [] ==> SplitTop(Join(",", EncCells(num, vs))) == EncCells(num, vs)
  {
    hide Lawful, IsCell, EncScalar, DecScalar, SplitTop, SplitScan, IsPrimitive;
    var cells := EncCells(num, vs);
    forall i | 0 <= i < |cells| ensures IsCell(cells[i]) {
      EncScalarShape(num, vs[i]);
    }
    if vs == [] {
      assert cells == [];
    } else {
      SplitRow(cells);
      ScalarRoundTrip(num, vs[0]);
      CellsRoundTrip(num, vs[1..]);
      assert cells[1..] == EncCells(num, vs[1..]);
      assert [vs[0]] + vs[1..] == vs;
    }
  }
}
