/** The TOON decoder inverts the encoder, block by block and on whole texts. */
module ToonRoundTrip {
  import opened Collections
  import opened Options
  import opened Text
  import opened ToonScalars
  import opened ToonLines
  import opened ToonSpec

  // ---------------------------------------------------------------- meaning

  /** A JSON value as Python compares it: an object is a dictionary, without key order. */
  datatype Json =
    | JNull
    | JBool(b: bool)
    | JInt(n: int)
    | JNum(f: Float)
    | JStr(s: string)
    | JList(items: seq<Json>)
    | JObj(members: map<string, Json>)

  function Meaning(v: Value): Json
    decreases v, 0
  {
    match v
    case Null => JNull
    case Bool(b) => JBool(b)
    case Int(n) => JInt(n)
    case Num(f) => JNum(f)
    case Str(s) => JStr(s)
    case List(items) => JList(Meanings(items))
    case Obj(ms) => JObj(MembersMeaning(ms))
  }

  function Meanings(vs: seq<Value>): seq<Json>
    decreases vs, 1
  {
    if vs == [] then [] else [Meaning(vs[0])] + Meanings(vs[1..])
  }

  function MembersMeaning(ms: seq<Member>): map<string, Json>
    decreases ms, 1
  {
    if ms == [] then map[] else MembersMeaning(ms[1..])[ms[0].key := Meaning(ms[0].value)]
  }

  // ---------------------------------------------------------------- what comes back

  /** The value as it comes back: the members of a table row stand in header order. */
  function Canon(v: Value): Value
    decreases v, 0
  {
    match v
    case List(items) => List(CanonItems(items))
    case Obj(ms) => Obj(CanonMembers(ms))
    case _ => v
  }

  function CanonItems(items: seq<Value>): seq<Value>
    decreases items, 2
  {
    if AllPrimitive(items) then items
    else if TabularFields(items).Some? then CanonRows(TabularFields(items).value, TableCells(items))
    else CanonEach(items)
  }

  function CanonRow(fields: seq<string>, row: Row): Value
    requires |row| == |fields|
  {
    Obj(PutAll([], fields, row))
  }

  function CanonRows(fields: seq<string>, rows: seq<Row>): seq<Value>
    requires forall i :: 0 <= i < |rows| ==> |rows[i]| == |fields|
  {
    if rows == [] then [] else [CanonRow(fields, rows[0])] + CanonRows(fields, rows[1..])
  }

  function CanonEach(items: seq<Value>): seq<Value>
    decreases items, 1
  {
    if items == [] then [] else [Canon(items[0])] + CanonEach(items[1..])
  }

  function CanonMembers(ms: seq<Member>): seq<Member>
    decreases ms, 1
  {
    if ms == [] then [] else [Member(ms[0].key, Canon(ms[0].value))] + CanonMembers(ms[1..])
  }

  // ---------------------------------------------------------------- headers

  function HeaderOf(num: Numbers, items: seq<Value>): Header {
    if items == [] then Header(0, None, None)
    else if AllPrimitive(items) then Header(|items|, None, Some(Join(",", EncCells(num, items))))
    else Header(|items|, TabularFields(items), None)
  }

  lemma FieldNames(items: seq<Value>, fields: seq<string>)
    requires items != [] && TabularFields(items) == Some(fields)
    ensures fields != [] && forall f :: f in fields ==> IsCell(f) && '}' !in f
  {
    forall i | 0 <= i < |fields| ensures IsCell(fields[i]) && '}' !in fields[i] {
      assert items[0].members[i] in items[0].members;
      EncKeyShape(fields[i]);
    }
  }

  lemma {:induction false} JoinWithout(parts: seq<string>, c: char)
    requires c != ',' && forall p :: p in parts ==> c !in p
    ensures c !in Join(",", parts)
  {
    if |parts| > 0 {
      assert parts[0] in parts;
      if |parts| > 1 {
        JoinWithout(parts[1..], c);
      }
    }
  }

  /** A printed array header is recognised and gives back the count, the field names and the row. */
  lemma HeaderRoundTrip(num: Numbers, items: seq<Value>)
    requires Lawful(num)
    ensures MatchHeader(num.digit, ArrayHead(num, items)).Some?
    ensures ParseArrayHeader(num.digit, ArrayHead(num, items)) == Ok(HeaderOf(num, items))
  {
    if items != [] && AllPrimitive(items) {
      var row := Join(",", EncCells(num, items));
      CellsRoundTrip(num, items);
      RowShape(EncCells(num, items));
      PayloadOfRow(row);
      PlainHeader(num.digit, |items|, " " + row);
    } else if items != [] && TabularFields(items).Some? {
      var fields := TabularFields(items).value;
      FieldNames(items, fields);
      JoinWithout(fields, '}');
      SplitRow(fields);
      TableHeader(num.digit, |items|, Join(",", fields));
    } else {
      PlainHeader(num.digit, |items|, "");
    }
  }

  lemma CountLine(n: nat, tail: string)
    requires tail != "" && !IsSpace(tail[|tail| - 1]) && '\n' !in tail
    ensures (CountText(n) + tail)[0] == '[' && IsLineText(CountText(n) + tail)
  {
    assert '\n' !in NatText(n);
  }

  /** An array header is one line of text that no item marker starts. */
  lemma HeaderShape(num: Numbers, items: seq<Value>)
    requires Lawful(num)
    ensures ArrayHead(num, items) != "" && ArrayHead(num, items)[0] == '['
    ensures IsLineText(ArrayHead(num, items))
  {
    hide Lawful, CountText, EncCells, IsLineText, Join;
    if items != [] && AllPrimitive(items) {
      CellsRoundTrip(num, items);
      RowShape(EncCells(num, items));
      LineTextOf(Join(",", EncCells(num, items)));
      ColonText(Join(",", EncCells(num, items)));
      CountLine(|items|, ":" + (" " + Join(",", EncCells(num, items))));
    } else if items != [] && TabularFields(items).Some? {
      var fields := TabularFields(items).value;
      FieldNames(items, fields);
      RowShape(fields);
      CountLine(|items|, "{" + Join(",", fields) + "}:");
    } else {
      CountLine(|items|, ":" + "");
    }
  }

  lemma LineTextOf(t: string)
    requires Tight(t) && '\n' !in t
    ensures IsLineText(t)
  {
  }

  // ---------------------------------------------------------------- single lines

  function TailOf(num: Numbers, v: Value): ValueTail {
    match v
    case Obj(_) => ObjectTail
    case List(items) => ArrayTail(HeaderOf(num, items))
    case _ => ScalarTail(EncScalar(num, v))
  }

  lemma KeyedLine(k: string, tail: string)
    requires tail != "" && !IsSpace(tail[|tail| - 1]) && '\n' !in tail
    ensures IsLineText(EncKey(k) + tail) && !IsItem(EncKey(k) + tail)
    ensures (EncKey(k) + tail)[0] != '['
  {
    var (kk, text) := (EncKey(k), EncKey(k) + tail);
    hide EncKey, IsSpace;
    EncKeyShape(k);
    assert text[0] == kk[0] && text[|text| - 1] == tail[|tail| - 1];
    assert text != "-" by { assert text[0] != '-'; }
  }

  lemma ColonText(t: string)
    requires IsLineText(t)
    ensures var rest := ":" + (" " + t);
      rest[0] == ':' && rest[1..] == " " + t && !IsSpace(rest[|rest| - 1]) && '\n' !in rest
  {
    var rest := ":" + (" " + t);
    assert rest[|rest| - 1] == t[|t| - 1] && rest[1..] == " " + t;
  }

  lemma ScalarText(num: Numbers, v: Value)
    requires Lawful(num) && IsPrimitive(v)
    ensures IsLineText(EncScalar(num, v)) && EncScalar(num, v)[0] != '['
  {
    hide Lawful, EncScalar;
    EncScalarShape(num, v);
  }

  lemma DashText(t: string)
    requires IsLineText(t)
    ensures var text := "- " + t;
      IsLineText(text) && text != "-" && |text| > 2 && text[2..] == t
  {
    var text := "- " + t;
    assert text[|text| - 1] == t[|t| - 1] && text[2..] == t;
  }

  /** Text that can follow a key: it ends the key, stays on the line and does not end in a blank. */
  predicate IsTailText(rest: string) {
    rest != "" && (rest[0] == '[' || rest[0] == ':') && !IsSpace(rest[|rest| - 1]) && '\n' !in rest
  }

  /** What follows the key on a member line. */
  lemma MemberTailRoundTrip(num: Numbers, v: Value)
    requires Lawful(num)
    ensures IsTailText(MemberRest(num, v))
    ensures ParseTail(num.digit, MemberRest(num, v)) == Ok(TailOf(num, v))
  {
    hide Lawful, ParseTail, EncScalar, ArrayHead, ParseArrayHeader, MatchHeader, HeaderOf, IsTailText, IsLineText;
    match v
    case Obj(_) =>
      BareColon(num.digit);
    case List(items) =>
      HeaderShape(num, items);
      HeaderRoundTrip(num, items);
      HeaderTailRead(num.digit, ArrayHead(num, items));
    case _ =>
      ScalarText(num, v);
      ScalarTailRead(num.digit, EncScalar(num, v));
  }

  lemma HeaderTailRead(digit: DigitMap, t: string)
    requires IsLineText(t) && t[0] == '[' && ParseArrayHeader(digit, t).Ok?
    ensures IsTailText(t) && ParseTail(digit, t) == Ok(ArrayTail(ParseArrayHeader(digit, t).value))
  {
  }

  lemma BareColon(digit: DigitMap)
    ensures ParseTail(digit, ":") == Ok(ObjectTail) && IsTailText(":")
  {
    hide ParseArrayHeader, IsLineBreak;
    assert ":"[1..] == "";
    assert Payload("") == None;
  }

  lemma ScalarTailRead(digit: DigitMap, t: string)
    requires IsLineText(t)
    ensures ParseTail(digit, ":" + (" " + t)) == Ok(ScalarTail(t)) && IsTailText(":" + (" " + t))
  {
    hide Payload, ParseArrayHeader, IsSpace;
    ColonText(t);
    PayloadOfRow(t);
  }

  /** The line of a member is one line of text, no item and no array header, and gives back the key
      and what kind of value follows. */
  lemma MemberLineRoundTrip(num: Numbers, m: Member)
    requires Lawful(num)
    ensures IsLineText(MemberText(num, m)) && !IsItem(MemberText(num, m)) && MemberText(num, m)[0] != '['
    ensures ParseMember(num.digit, MemberText(num, m)) == Ok((m.key, TailOf(num, m.value)))
  {
    hide EncKey, IsSpace, IsItem, IsLineText, SplitKey, Lawful, ParseTail, TailOf, MemberRest;
    MemberTailRoundTrip(num, m.value);
    KeyedLine(m.key, MemberRest(num, m.value));
    KeyRoundTrip(m.key, MemberRest(num, m.value));
  }

  /** The line of an item is one line of text and gives back what kind of value follows. */
  lemma ItemLineRoundTrip(num: Numbers, v: Value)
    requires Lawful(num)
    ensures IsLineText(ItemText(num, v))
    ensures ParseItem(num.digit, ItemText(num, v)) == Ok(TailOf(num, v))
  {
    hide Lawful, ParseItem, EncScalar, ArrayHead, ParseArrayHeader, MatchHeader, HeaderOf, IsLineText;
    match v
    case Obj(_) =>
      DashRead(num.digit);
    case List(items) =>
      HeaderShape(num, items);
      HeaderRoundTrip(num, items);
      HeaderItemRead(num.digit, ArrayHead(num, items));
    case _ =>
      ScalarText(num, v);
      ScalarItemRead(num.digit, EncScalar(num, v));
  }

  lemma DashRead(digit: DigitMap)
    ensures IsLineText("-") && ParseItem(digit, "-") == Ok(ObjectTail)
  {
  }

  lemma HeaderItemRead(digit: DigitMap, t: string)
    requires IsLineText(t) && MatchHeader(digit, t).Some? && ParseArrayHeader(digit, t).Ok?
    ensures IsLineText("- " + t)
    ensures ParseItem(digit, "- " + t) == Ok(ArrayTail(ParseArrayHeader(digit, t).value))
  {
    hide MatchHeader, ParseArrayHeader;
    DashText(t);
  }

  lemma ScalarItemRead(digit: DigitMap, t: string)
    requires IsLineText(t) && t[0] != '['
    ensures IsLineText("- " + t) && ParseItem(digit, "- " + t) == Ok(ScalarTail(t))
  {
    assert MatchHeader(digit, t).None?;
    hide MatchHeader, ParseArrayHeader;
    DashText(t);
  }

  // ---------------------------------------------------------------- dictionaries

  lemma {:induction false} PutFresh(ms: seq<Member>, k: string, v: Value)
    requires !HasKey(ms, k)
    ensures Put(ms, k, v) == ms + [Member(k, v)]
  {
    if ms != [] {
      assert ms[0].key != k;
      assert forall i :: 0 <= i < |ms[1..]| ==> ms[1..][i].key == ms[i + 1].key;
      PutFresh(ms[1..], k, v);
      assert [ms[0]] + (ms[1..] + [Member(k, v)]) == ms + [Member(k, v)];
    }
  }

  lemma Regroup<T>(a: seq<T>, b: seq<T>, c: seq<T>, d: seq<T>)
    ensures a + b + c + d == a + (b + (c + d))
    ensures a + b + c == a + (b + c)
  {
  }

  // ---------------------------------------------------------------- rows of a table

  /** A table row is read back with its fields in header order. */
  lemma RowRoundTrip(num: Numbers, fields: seq<string>, row: Row)
    requires Lawful(num) && fields != [] && |row| == |fields|
    ensures DecRow(num, RowText(num, row), fields) == Ok(CanonRow(fields, row))
    ensures IsLineText(RowText(num, row))
  {
    hide Lawful, IsCell, SplitScan, SplitTop, DecCells;
    CellsRoundTrip(num, row);
    var cells := EncCells(num, row);
    RowShape(cells);
    assert cells[..|fields|] == cells && fields[..|fields|] == fields;
  }

  lemma {:induction false} RowsRoundTrip(num: Numbers, d: nat, fields: seq<string>, rows: seq<Row>, rest: seq<Line>)
    requires Lawful(num) && fields != [] && forall i :: 0 <= i < |rows| ==> |rows[i]| == |fields|
    ensures DecRows(num, RowLines(num, d, rows) + rest, |rows|, fields) == Ok((CanonRows(fields, rows), rest))
  {
    if rows == [] {
      assert RowLines(num, d, rows) + rest == rest;
    } else {
      hide Lawful, RowText, DecRow, IsLineText, CanonRow;
      var (line, more) := (Line(d, RowText(num, rows[0])), RowLines(num, d, rows[1..]));
      Regroup([line], more, rest, []);
      RowRoundTrip(num, fields, rows[0]);
      RowsRoundTrip(num, d, fields, rows[1..], rest);
      RowsStep(num, line, more + rest, |rows|, fields);
    }
  }

  lemma RowsStep(num: Numbers, line: Line, ls: seq<Line>, n: nat, fields: seq<string>)
    requires n > 0
    requires DecRow(num, line.text, fields).Ok? && DecRows(num, ls, n - 1, fields).Ok?
    ensures var row := DecRow(num, line.text, fields).value;
      var (rows, rest) := DecRows(num, ls, n - 1, fields).value;
      DecRows(num, [line] + ls, n, fields) == Ok(([row] + rows, rest))
  {
    assert ([line] + ls)[1..] == ls;
  }

  // ---------------------------------------------------------------- blocks

  /** Lines that may follow the block of a line at depth `d`: none, or a line at depth `d` or less. */
  predicate FollowsAt(rest: seq<Line>, d: nat) {
    rest != [] ==> rest[0].indent <= d
  }

  predicate FreshKeys(out: seq<Member>, ms: seq<Member>) {
    DistinctKeys(ms) && forall i, j :: 0 <= i < |out| && 0 <= j < |ms| ==> out[i].key != ms[j].key
  }

  lemma FreshStep(out: seq<Member>, ms: seq<Member>, v: Value)
    requires ms != [] && FreshKeys(out, ms)
    ensures Put(out, ms[0].key, v) == out + [Member(ms[0].key, v)]
    ensures FreshKeys(out + [Member(ms[0].key, v)], ms[1..])
  {
    PutFresh(out, ms[0].key, v);
  }

  lemma MembersStep(num: Numbers, line: Line, ls: seq<Line>, d: nat, out: seq<Member>)
    requires line.indent == d && !IsItem(line.text) && ParseMember(num.digit, line.text).Ok?
    requires DecBlock(num, ls, d, ParseMember(num.digit, line.text).value.1).Ok?
    ensures var (k, tail) := ParseMember(num.digit, line.text).value;
      var (v, rest) := DecBlock(num, ls, d, tail).value;
      DecMembers(num, [line] + ls, d, out) == DecMembers(num, rest, d, Put(out, k, v))
  {
    assert ([line] + ls)[1..] == ls;
  }

  lemma MembersStop(num: Numbers, rest: seq<Line>, d: nat, out: seq<Member>)
    requires rest != [] ==> rest[0].indent < d
    ensures DecMembers(num, rest, d, out) == Ok((out, rest))
  {
  }

  lemma ItemsStep(num: Numbers, line: Line, ls: seq<Line>, n: nat, d: nat)
    requires n > 0 && ParseItem(num.digit, line.text).Ok?
    requires DecBlock(num, ls, d, ParseItem(num.digit, line.text).value).Ok?
    ensures var (v, rest) := DecBlock(num, ls, d, ParseItem(num.digit, line.text).value).value;
      DecItems(num, rest, n - 1, d).Ok?
      ==> var (vs, last) := DecItems(num, rest, n - 1, d).value;
          DecItems(num, [line] + ls, n, d) == Ok(([v] + vs, last))
  {
    assert ([line] + ls)[1..] == ls;
    assert DecItem(num, [line] + ls, d) == DecBlock(num, ls, d, ParseItem(num.digit, line.text).value);
  }

  /** Block locality of members: the decoder returns exactly the printed members, and stops on the
      first line after them. */
  lemma {:induction false} MembersRoundTrip(num: Numbers, d: nat, ms: seq<Member>, rest: seq<Line>, out: seq<Member>)
    requires Lawful(num) && FreshKeys(out, ms) && (forall m :: m in ms ==> WellFormed(m.value))
    requires rest != [] ==> rest[0].indent < d
    ensures DecMembers(num, MembersLines(num, d, ms) + rest, d, out) == Ok((out + CanonMembers(ms), rest))
    decreases ms, 3
  {
    hide Lawful, MemberText, Block, DecBlock, TailOf, ParseMember, DecMembers, IsItem, IsLineText;
    hide WellFormed, Canon, Put, FreshKeys;
    if ms == [] {
      assert MembersLines(num, d, ms) + rest == rest && out + CanonMembers(ms) == out;
      MembersStop(num, rest, d, out);
    } else {
      var (m, tail) := (ms[0], ms[1..]);
      var (line, block, more) := (Line(d, MemberText(num, m)), Block(num, d, m.value), MembersLines(num, d, tail));
      Regroup([line], block, more, rest);
      assert m in ms;
      if tail != [] { FirstMemberLine(num, d, tail); }
      MemberLineRoundTrip(num, m);
      BlockRoundTrip(num, d, m.value, more + rest);
      MembersStep(num, line, block + (more + rest), d, out);
      FreshStep(out, ms, Canon(m.value));
      MembersRoundTrip(num, d, tail, rest, out + [Member(m.key, Canon(m.value))]);
      Regroup(out, [Member(m.key, Canon(m.value))], CanonMembers(tail), []);
    }
  }

  /** The lines of members start at their own depth. */
  lemma FirstMemberLine(num: Numbers, d: nat, ms: seq<Member>)
    requires ms != []
    ensures [Line(d, MemberText(num, ms[0]))] <= MembersLines(num, d, ms)
  {
  }

  lemma FirstItemLine(num: Numbers, d: nat, items: seq<Value>)
    requires items != []
    ensures [Line(d, ItemText(num, items[0]))] <= ItemsLines(num, d, items)
  {
  }

  /** Block locality of one value: below its line, the decoder reads exactly the value and stops on
      the first line after its block. */
  lemma {:induction false} BlockRoundTrip(num: Numbers, d: nat, v: Value, rest: seq<Line>)
    requires Lawful(num) && WellFormed(v) && FollowsAt(rest, d)
    ensures DecBlock(num, Block(num, d, v) + rest, d, TailOf(num, v)) == Ok((Canon(v), rest))
    decreases v, 2
  {
    hide Lawful, DecNested, DecArray, MembersLines, ArrayBody, DecScalar, EncScalar, CanonMembers, CanonItems, HeaderOf;
    match v
    case Obj(ms) => NestedRoundTrip(num, d, ms, rest);
    case List(items) => ArrayRoundTrip(num, d, items, rest);
    case _ =>
      ScalarRoundTrip(num, v);
      assert Block(num, d, v) + rest == rest;
  }

  lemma NestedStep(num: Numbers, ls: seq<Line>, rest: seq<Line>, d: nat, line: Line)
    requires [line] <= ls && line.indent == d + 1 && !IsItem(line.text)
    requires DecMembers(num, ls + rest, d + 1, []).Ok?
    ensures var (ms, last) := DecMembers(num, ls + rest, d + 1, []).value;
      DecNested(num, ls + rest, d) == Ok((Obj(ms), last))
  {
    assert (ls + rest)[0] == line;
  }

  lemma NestedStop(num: Numbers, rest: seq<Line>, d: nat)
    requires FollowsAt(rest, d)
    ensures DecNested(num, [] + rest, d) == Ok((Obj([]), rest))
  {
    assert [] + rest == rest;
  }

  /** The block of a nested object, empty or not. */
  lemma {:induction false} NestedRoundTrip(num: Numbers, d: nat, ms: seq<Member>, rest: seq<Line>)
    requires Lawful(num) && WellFormedMembers(ms) && FollowsAt(rest, d)
    ensures DecNested(num, MembersLines(num, d + 1, ms) + rest, d) == Ok((Obj(CanonMembers(ms)), rest))
    decreases ms, 4
  {
    hide Lawful, MemberText, DecMembers, DecNested, ParseMember, TailOf, WellFormed, IsItem, IsLineText;
    if ms == [] {
      NestedStop(num, rest, d);
    } else {
      FirstMemberLine(num, d + 1, ms);
      MemberLineRoundTrip(num, ms[0]);
      MembersRoundTrip(num, d + 1, ms, rest, []);
      NestedStep(num, MembersLines(num, d + 1, ms), rest, d, Line(d + 1, MemberText(num, ms[0])));
      assert [] + CanonMembers(ms) == CanonMembers(ms);
    }
  }

  /** The block below an array header. */
  lemma {:induction false} ArrayRoundTrip(num: Numbers, d: nat, items: seq<Value>, rest: seq<Line>)
    requires Lawful(num) && (forall x :: x in items ==> WellFormed(x)) && FollowsAt(rest, d)
    ensures DecArray(num, ArrayBody(num, d, items) + rest, d, HeaderOf(num, items))
         == Ok((CanonItems(items), rest))
    decreases items, 4
  {
    hide Lawful, RowLines, ItemsLines, DecRows, DecItems, CanonEach, CanonRows, EncScalar, DecScalar, IsCell;
    hide WellFormed, SplitTop;
    if AllPrimitive(items) {
      CellsRoundTrip(num, items);
      assert ArrayBody(num, d, items) + rest == rest;
    } else if TabularFields(items).Some? {
      FieldNames(items, TabularFields(items).value);
      RowsRoundTrip(num, d + 1, TabularFields(items).value, TableCells(items), rest);
    } else {
      ItemsRoundTrip(num, d + 1, items, rest);
    }
  }

  lemma {:induction false} ItemsRoundTrip(num: Numbers, d: nat, items: seq<Value>, rest: seq<Line>)
    requires Lawful(num) && (forall x :: x in items ==> WellFormed(x)) && FollowsAt(rest, d)
    ensures DecItems(num, ItemsLines(num, d, items) + rest, |items|, d) == Ok((CanonEach(items), rest))
    decreases items, 3
  {
    hide Lawful, ItemText, Block, DecBlock, DecItem, TailOf, ParseItem, IsLineText, WellFormed, Canon;
    if items == [] {
      assert ItemsLines(num, d, items) + rest == rest;
    } else {
      var (v, tail) := (items[0], items[1..]);
      var (line, block, more) := (Line(d, ItemText(num, v)), Block(num, d, v), ItemsLines(num, d, tail));
      Regroup([line], block, more, rest);
      assert v in items;
      if tail != [] { FirstItemLine(num, d, tail); }
      ItemLineRoundTrip(num, v);
      BlockRoundTrip(num, d, v, more + rest);
      ItemsRoundTrip(num, d, tail, rest);
      ItemsStep(num, line, block + (more + rest), |items|, d);
    }
  }

  // ---------------------------------------------------------------- every line is well formed

  lemma {:induction false} RowLinesShape(num: Numbers, d: nat, rows: seq<Row>)
    requires Lawful(num) && forall i :: 0 <= i < |rows| ==> rows[i] != []
    ensures AllLineTexts(RowLines(num, d, rows))
  {
    hide Lawful, RowText, IsLineText;
    if rows != [] {
      RowTextShape(num, rows[0]);
      RowLinesShape(num, d, rows[1..]);
    }
  }

  lemma RowTextShape(num: Numbers, row: Row)
    requires Lawful(num) && row != []
    ensures IsLineText(RowText(num, row))
  {
    hide Lawful, IsCell;
    CellsRoundTrip(num, row);
    RowShape(EncCells(num, row));
  }

  lemma AppendLines(line: Line, block: seq<Line>, more: seq<Line>)
    requires IsLineText(line.text) && AllLineTexts(block) && AllLineTexts(more)
    ensures AllLineTexts([line] + block + more)
  {
  }

  lemma {:induction false} BlockShape(num: Numbers, d: nat, v: Value)
    requires Lawful(num)
    ensures AllLineTexts(Block(num, d, v))
    decreases v, 2
  {
    match v
    case Obj(ms) => MembersShape(num, d + 1, ms);
    case List(items) =>
      hide Lawful, RowLines, ItemsLines, AllLineTexts;
      if AllPrimitive(items) {
        assert AllLineTexts([]) by { NoLines(); }
      } else if TabularFields(items).Some? {
        FieldNames(items, TabularFields(items).value);
        RowLinesShape(num, d + 1, TableCells(items));
      } else {
        ItemsShape(num, d + 1, items);
      }
    case _ =>
  }

  lemma NoLines()
    ensures AllLineTexts([])
  {
  }

  lemma {:induction false} MembersShape(num: Numbers, d: nat, ms: seq<Member>)
    requires Lawful(num)
    ensures AllLineTexts(MembersLines(num, d, ms))
    decreases ms, 3
  {
    hide Lawful, AllLineTexts, IsLineText, MemberText, Block, IsItem, ParseMember, TailOf;
    if ms == [] {
      NoLines();
    } else {
      MemberLineRoundTrip(num, ms[0]);
      BlockShape(num, d, ms[0].value);
      MembersShape(num, d, ms[1..]);
      AppendLines(Line(d, MemberText(num, ms[0])), Block(num, d, ms[0].value), MembersLines(num, d, ms[1..]));
    }
  }

  lemma {:induction false} ItemsShape(num: Numbers, d: nat, items: seq<Value>)
    requires Lawful(num)
    ensures AllLineTexts(ItemsLines(num, d, items))
    decreases items, 3
  {
    hide Lawful, AllLineTexts, IsLineText, ItemText, Block, ParseItem, TailOf;
    if items == [] {
      NoLines();
    } else {
      ItemLineRoundTrip(num, items[0]);
      BlockShape(num, d, items[0]);
      ItemsShape(num, d, items[1..]);
      AppendLines(Line(d, ItemText(num, items[0])), Block(num, d, items[0]), ItemsLines(num, d, items[1..]));
    }
  }

  // ---------------------------------------------------------------- what comes back means the same

  lemma {:induction false} MeaningAt(ms: seq<Member>, k: string)
    ensures k in MembersMeaning(ms) <==> HasKey(ms, k)
    ensures HasKey(ms, k) ==> MembersMeaning(ms)[k] == Meaning(Lookup(ms, k))
  {
    hide Meaning;
    if ms != [] {
      MeaningAt(ms[1..], k);
      assert HasKey(ms, k) <==> ms[0].key == k || HasKey(ms[1..], k) by {
        assert forall i :: 0 <= i < |ms[1..]| ==> ms[1..][i] == ms[i + 1];
        assert forall i :: 0 < i < |ms| ==> ms[1..][i - 1] == ms[i];
      }
    }
  }

  function Zip(fields: seq<string>, row: seq<Value>): (r: seq<Member>)
    requires |fields| == |row|
    ensures |r| == |fields|
    ensures forall i :: 0 <= i < |fields| ==> r[i] == Member(fields[i], row[i])
  {
    seq(|fields|, i requires 0 <= i < |fields| => Member(fields[i], row[i]))
  }

  lemma {:induction false} PutAllFresh(out: seq<Member>, fields: seq<string>, row: seq<Value>)
    requires |fields| == |row|
    requires forall i, j :: 0 <= i < j < |fields| ==> fields[i] != fields[j]
    requires forall i, j :: 0 <= i < |out| && 0 <= j < |fields| ==> out[i].key != fields[j]
    ensures PutAll(out, fields, row) == out + Zip(fields, row)
    decreases |fields|
  {
    if fields == [] {
      assert out + Zip(fields, row) == out;
    } else {
      PutFresh(out, fields[0], row[0]);
      PutAllFresh(out + [Member(fields[0], row[0])], fields[1..], row[1..]);
      assert out + [Member(fields[0], row[0])] + Zip(fields[1..], row[1..]) == out + Zip(fields, row);
    }
  }

  lemma {:induction false} LookupAt(ms: seq<Member>, i: nat)
    requires DistinctKeys(ms) && i < |ms|
    ensures HasKey(ms, ms[i].key) && Lookup(ms, ms[i].key) == ms[i].value
  {
    if i > 0 {
      LookupAt(ms[1..], i - 1);
    }
  }

  /** The keys of the object are exactly the fields. */
  ghost predicate KeysAre(x: Value, fields: seq<string>) {
    x.Obj? && forall f :: f in fields <==> HasKey(x.members, f)
  }

  ghost predicate IsTableRow(x: Value, fields: seq<string>, row: seq<Value>) {
    KeysAre(x, fields) && row == RowValues(x.members, fields)
  }

  lemma ZipMeaningAt(fields: seq<string>, row: seq<Value>, k: string)
    requires Distinct(fields) && |fields| == |row|
    ensures k in MembersMeaning(Zip(fields, row)) <==> k in fields
    ensures forall i :: 0 <= i < |fields| && fields[i] == k ==>
      k in MembersMeaning(Zip(fields, row)) && MembersMeaning(Zip(fields, row))[k] == Meaning(row[i])
  {
    hide Meaning, MembersMeaning;
    var zip := Zip(fields, row);
    MeaningAt(zip, k);
    forall i | 0 <= i < |fields| && fields[i] == k
      ensures HasKey(zip, k) && Lookup(zip, k) == row[i]
    {
      LookupAt(zip, i);
    }
  }

  /** A table row means the same object as the original row, whatever the order of its keys. */
  lemma RowMeaning(fields: seq<string>, x: Value)
    requires Distinct(fields) && KeysAre(x, fields)
    ensures MembersMeaning(PutAll([], fields, RowValues(x.members, fields))) == MembersMeaning(x.members)
  {
    hide Meaning, MembersMeaning, Distinct, PutAll;
    var row := RowValues(x.members, fields);
    PutAllUnique(fields, row);
    forall k ensures (k in MembersMeaning(Zip(fields, row)) <==> k in MembersMeaning(x.members))
      && (k in MembersMeaning(x.members) ==> MembersMeaning(Zip(fields, row))[k] == MembersMeaning(x.members)[k])
    {
      ZipMeaningAt(fields, row, k);
      MeaningAt(x.members, k);
      if k in fields {
        var i :| 0 <= i < |fields| && fields[i] == k;
        assert row[i] == Lookup(x.members, k);
      }
    }
    assert MembersMeaning(Zip(fields, row)) == MembersMeaning(x.members);
  }

  lemma PutAllUnique(fields: seq<string>, row: seq<Value>)
    requires Distinct(fields) && |fields| == |row|
    ensures PutAll([], fields, row) == Zip(fields, row)
  {
    PutAllFresh([], fields, row);
    assert [] + Zip(fields, row) == Zip(fields, row);
  }

  lemma CanonRowMeaning(fields: seq<string>, x: Value, row: Row)
    requires Distinct(fields) && |row| == |fields| && IsTableRow(x, fields, row)
    ensures Meaning(CanonRow(fields, row)) == Meaning(x)
  {
    hide Distinct, PutAll;
    RowMeaning(fields, x);
  }

  lemma {:induction false} RowsMeaning(fields: seq<string>, items: seq<Value>, rows: seq<Row>)
    requires Distinct(fields) && |rows| == |items|
    requires forall i :: 0 <= i < |rows| ==> |rows[i]| == |fields|
    requires forall i :: 0 <= i < |items| ==> IsTableRow(items[i], fields, rows[i])
    ensures Meanings(CanonRows(fields, rows)) == Meanings(items)
  {
    hide IsTableRow, Distinct, CanonRow;
    if items != [] {
      CanonRowMeaning(fields, items[0], rows[0]);
      RowsMeaning(fields, items[1..], rows[1..]);
    }
  }

  lemma TableKeys(items: seq<Value>, x: Value)
    requires items != [] && TabularFields(items).Some? && x in items
    ensures KeysAre(x, TabularFields(items).value)
  {
    TableRow(items, x);
    var (ms, first) := (x.members, items[0].members);
    assert KeySet(ms) == KeySet(first);
    forall f | HasKey(ms, f) ensures f in Keys(first) {
      var i :| 0 <= i < |ms| && ms[i].key == f;
      assert ms[i] in ms && f in KeySet(ms);
      var m :| m in first && m.key == f;
      var j :| 0 <= j < |first| && first[j] == m;
      assert Keys(first)[j] == f;
    }
  }

  lemma TableMeaning(items: seq<Value>)
    requires items != [] && TabularFields(items).Some? && WellFormed(items[0])
    ensures Meanings(CanonRows(TabularFields(items).value, TableCells(items))) == Meanings(items)
  {
    hide KeysAre, Meanings, CanonRows, WellFormed;
    var fields := TabularFields(items).value;
    hide TabularFields;
    FieldsUnique(items);
    forall i | 0 <= i < |items| ensures IsTableRow(items[i], fields, TableCells(items)[i]) {
      TableKeys(items, items[i]);
    }
    RowsMeaning(fields, items, TableCells(items));
  }

  lemma FieldsUnique(items: seq<Value>)
    requires items != [] && TabularFields(items).Some? && WellFormed(items[0])
    ensures Distinct(TabularFields(items).value)
  {
  }

  lemma {:induction false} CanonMeaning(v: Value)
    requires WellFormed(v)
    ensures Meaning(Canon(v)) == Meaning(v)
    decreases v, 2
  {
    hide TabularFields, TableCells, CanonRows, CanonEach, CanonMembers, Meanings, MembersMeaning;
    match v
    case List(items) =>
      if AllPrimitive(items) {
      } else if TabularFields(items).Some? {
        assert items[0] in items;
        TableMeaning(items);
      } else {
        EachMeaning(items);
      }
    case Obj(ms) => MembersKeepMeaning(ms);
    case _ =>
  }

  lemma {:induction false} EachMeaning(items: seq<Value>)
    requires forall x :: x in items ==> WellFormed(x)
    ensures Meanings(CanonEach(items)) == Meanings(items)
    decreases items, 3
  {
    if items != [] {
      assert items[0] in items;
      CanonMeaning(items[0]);
      EachMeaning(items[1..]);
    }
  }

  lemma {:induction false} MembersKeepMeaning(ms: seq<Member>)
    requires forall m :: m in ms ==> WellFormed(m.value)
    ensures MembersMeaning(CanonMembers(ms)) == MembersMeaning(ms)
    decreases ms, 3
  {
    if ms != [] {
      assert ms[0] in ms;
      CanonMeaning(ms[0].value);
      MembersKeepMeaning(ms[1..]);
    }
  }

  // ---------------------------------------------------------------- whole texts

  lemma ObjectStart(num: Numbers, ls: seq<Line>, line: Line)
    requires [line] <= ls && line.text != "" && line.text[0] != '['
    requires DecMembers(num, ls, 0, []).Ok?
    ensures var (ms, rest) := DecMembers(num, ls, 0, []).value;
      DecodeLines(num, ls) == Ok((Obj(ms), rest))
  {
    assert ls[0] == line && MatchHeader(num.digit, line.text).None?;
  }

  lemma ObjectLines(num: Numbers, ms: seq<Member>)
    requires Lawful(num) && WellFormedMembers(ms)
    ensures DecodeLines(num, MembersLines(num, 0, ms)) == Ok((Obj(CanonMembers(ms)), []))
  {
    if ms != [] {
      hide Lawful, MemberText, MembersLines, DecodeLines, ParseMember, TailOf, WellFormed, IsItem, IsLineText;
      hide MatchHeader, CanonMembers, DecMembers;
      MembersRoundTrip(num, 0, ms, [], []);
      FirstMemberLine(num, 0, ms);
      MemberLineRoundTrip(num, ms[0]);
      EmptyEnd(MembersLines(num, 0, ms));
      EmptyEnd(CanonMembers(ms));
      MemberTextNotEmpty(num, ms[0]);
      ObjectStart(num, MembersLines(num, 0, ms), Line(0, MemberText(num, ms[0])));
    }
  }

  lemma MemberTextNotEmpty(num: Numbers, m: Member)
    ensures MemberText(num, m) != ""
  {
    EncKeyShape(m.key);
  }

  lemma ArrayLines(num: Numbers, items: seq<Value>)
    requires Lawful(num) && WellFormed(List(items))
    ensures DecodeLines(num, [Line(0, ArrayHead(num, items))] + Block(num, 0, List(items)))
         == Ok((Canon(List(items)), []))
  {
    hide Lawful, ArrayHead, DecBlock, Block, WellFormed, MatchHeader, ParseArrayHeader, Canon;
    HeaderRoundTrip(num, items);
    var block := Block(num, 0, List(items));
    BlockRoundTrip(num, 0, List(items), []);
    assert ([Line(0, ArrayHead(num, items))] + block)[1..] == block && block + [] == block;
  }

  /** A full decode consumes every line. */
  lemma LinesRoundTrip(num: Numbers, v: Value)
    requires Lawful(num) && WellFormed(v) && !IsPrimitive(v)
    ensures DecodeLines(num, EncodeLines(num, v)) == Ok((Canon(v), []))
  {
    hide Lawful, DecodeLines, Block, ArrayHead, MembersLines;
    match v
    case Obj(ms) => ObjectLines(num, ms);
    case List(items) => ArrayLines(num, items);
  }

  lemma EmptyEnd<T>(a: seq<T>)
    ensures a + [] == a && [] + a == a
  {
  }

  lemma EncodeLinesShape(num: Numbers, v: Value)
    requires Lawful(num) && !IsPrimitive(v)
    ensures AllLineTexts(EncodeLines(num, v))
  {
    hide Lawful, Block, ArrayHead, MembersLines, AllLineTexts, IsLineText;
    match v
    case Obj(ms) => MembersShape(num, 0, ms);
    case List(items) =>
      HeaderShape(num, items);
      BlockShape(num, 0, v);
      NoLines();
      AppendLines(Line(0, ArrayHead(num, items)), Block(num, 0, v), []);
      EmptyEnd([Line(0, ArrayHead(num, items))] + Block(num, 0, v));
  }

  /** The law the module promises: for every object or array with distinct keys, decoding the
      encoded text gives the value back, up to the order of keys inside objects. */
  lemma RoundTrip(num: Numbers, v: Value)
    requires Lawful(num) && WellFormed(v) && !IsPrimitive(v)
    ensures Encode(num, v).Ok?
    ensures Decode(num, Encode(num, v).value).Ok?
    ensures Meaning(Decode(num, Encode(num, v).value).value) == Meaning(v)
  {
    hide Lawful, EncodeLines, DecodeLines, WellFormed, Canon, Meaning, AllLineTexts;
    EncodeLinesShape(num, v);
    TextRoundTrip(EncodeLines(num, v));
    LinesRoundTrip(num, v);
    CanonMeaning(v);
  }
}
