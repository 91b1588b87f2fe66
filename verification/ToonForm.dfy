/** The printed form of TOON: which lines every value is printed as, told from the value alone. */
module ToonForm {
  import opened Options
  import opened Text
  import opened ToonScalars
  import opened ToonLines
  import opened ToonSpec
  import JsonText
  import ToonRoundTrip

  // ---------------------------------------------------------------- scalars and keys

  predicate PaddedText(s: string) {
    s != "" && (IsSpace(s[0]) || IsSpace(s[|s| - 1]))
  }

  /** A string that is printed without quotes: not empty or padded, no comma, quote, line feed or tab in it, no
      structural character in front, and not to be taken for a constant or a number. */
  predicate BareString(num: Numbers, s: string) {
    && s != "" && !PaddedText(s)
    && (forall c :: c in s ==> c !in {',', '"', '\n', '\t'})
    && s[0] !in {'[', '{', '-', '#', '"', '\''}
    && s !in {"true", "false", "null"}
    && ParseInt(num.digit, s).None? && num.parseFloat(s).None?
  }

  /** A key that is printed without quotes. */
  predicate BareKey(k: string) {
    && k != "" && !PaddedText(k)
    && (forall c :: c in k ==> c !in {',', ':', '"', '[', ']', '{', '}', ' ', '\n', '\t'})
    && k[0] !in {'-', '#', '"', '\''}
  }

  lemma PaddedIs(s: string)
    requires s != ""
    ensures s != Strip(s) <==> PaddedText(s)
  {
    if !PaddedText(s) {
      StripOfTight(s);
    }
  }

  /** Strings are quoted exactly in the stated cases. */
  lemma BareStringExactly(num: Numbers, s: string)
    ensures EncStr(num, s) == if BareString(num, s) then s else JsonText.Quote(s)
  {
    if s != "" {
      PaddedIs(s);
    }
    hide Strip, ParseInt, IsSpace;
  }

  lemma BareKeyExactly(k: string)
    ensures EncKey(k) == if BareKey(k) then k else JsonText.Quote(k)
  {
    if k != "" {
      PaddedIs(k);
    }
    hide Strip, IsSpace;
  }

  /** The text of a scalar. */
  function ScalarShown(num: Numbers, v: Value): string
    requires IsPrimitive(v)
  {
    match v
    case Null => "null"
    case Bool(b) => if b then "true" else "false"
    case Int(n) => IntText(n)
    case Num(f) => num.printFloat(f)
    case Str(s) => if BareString(num, s) then s else JsonText.Quote(s)
  }

  function KeyShown(k: string): string {
    if BareKey(k) then k else JsonText.Quote(k)
  }

  lemma ScalarIs(num: Numbers, v: Value)
    requires IsPrimitive(v)
    ensures EncScalar(num, v) == ScalarShown(num, v)
  {
    if v.Str? {
      BareStringExactly(num, v.s);
    }
    hide BareString, EncStr;
  }

  // ---------------------------------------------------------------- lines

  /** Where a value stands: as the whole text, below a key, or as an element of a list. */
  datatype Place = Top | Under(key: string) | Element

  /** Two blanks for each level. */
  function Pad(depth: nat): string {
    if depth == 0 then "" else "  " + Pad(depth - 1)
  }

  /** What stands in front of an array's brackets. */
  function ArrayMark(place: Place): string {
    match place
    case Top => ""
    case Under(k) => KeyShown(k)
    case Element => "- "
  }

  predicate AllScalars(vs: seq<Value>) {
    forall i :: 0 <= i < |vs| ==> IsPrimitive(vs[i])
  }

  /** Objects with scalar members only, all with the same keys, at least one, and none to be quoted. */
  ghost predicate IsTable(items: seq<Value>) {
    && items != []
    && (forall i :: 0 <= i < |items| ==>
          items[i].Obj? && items[i].members != []
          && forall j :: 0 <= j < |items[i].members| ==> IsPrimitive(items[i].members[j].value))
    && (forall i, k :: 0 <= i < |items| ==> (HasKey(items[i].members, k) <==> HasKey(items[0].members, k)))
    && forall j :: 0 <= j < |items[0].members| ==> BareKey(items[0].members[j].key)
  }

  /** The value that an object has at a key. */
  ghost function ValueAt(ms: seq<Member>, k: string): Value
    requires HasKey(ms, k)
  {
    var i :| 0 <= i < |ms| && ms[i].key == k;
    ms[i].value
  }

  /** The lines of a value at a depth, as strings. */
  ghost function Shown(num: Numbers, d: nat, place: Place, v: Value): seq<string>
    decreases v, 1
  {
    match v
    case Obj(ms) =>
      (match place
       case Top => []
       case Under(k) => [Pad(d) + KeyShown(k) + ":"]
       case Element => [Pad(d) + "-"])
      + ShownMembers(num, if place.Top? then d else d + 1, ms)
    case List(items) => ShownArray(num, d, ArrayMark(place), items)
    case _ =>
      match place
      case Top => []
      case Under(k) => [Pad(d) + KeyShown(k) + ": " + ScalarShown(num, v)]
      case Element => [Pad(d) + "- " + ScalarShown(num, v)]
  }

  ghost function ShownMembers(num: Numbers, d: nat, ms: seq<Member>): seq<string>
    decreases ms, 2
  {
    if ms == [] then [] else Shown(num, d, Under(ms[0].key), ms[0].value) + ShownMembers(num, d, ms[1..])
  }

  /** Scalars on one line, a table with one row for each object, or one element after the other. */
  ghost function ShownArray(num: Numbers, d: nat, mark: string, items: seq<Value>): seq<string>
    decreases items, 3
  {
    var head := Pad(d) + mark + "[" + NatText(|items|) + "]";
    if items == [] then [head + ":"]
    else if AllScalars(items) then [head + ": " + Join(",", ScalarTexts(num, items))]
    else if IsTable(items) then
      [head + "{" + Join(",", Keys(items[0].members)) + "}:"] + ShownRows(num, d + 1, items)
    else [head + ":"] + ShownElements(num, d + 1, items)
  }

  ghost function ShownElements(num: Numbers, d: nat, items: seq<Value>): seq<string>
    decreases items, 2
  {
    if items == [] then [] else Shown(num, d, Element, items[0]) + ShownElements(num, d, items[1..])
  }

  function ScalarTexts(num: Numbers, vs: seq<Value>): (r: seq<string>)
    requires AllScalars(vs)
  {
    seq(|vs|, i requires 0 <= i < |vs| => ScalarShown(num, vs[i]))
  }

  /** One row for each object: its values in the order of the first object's keys. */
  ghost function ShownRows(num: Numbers, d: nat, items: seq<Value>): seq<string>
    requires IsTable(items)
  {
    seq(|items|, i requires 0 <= i < |items| => Pad(d) + Join(",", RowTexts(num, items, i)))
  }

  ghost function RowTexts(num: Numbers, items: seq<Value>, i: nat): seq<string>
    requires IsTable(items) && i < |items|
  {
    var first, ms := items[0].members, items[i].members;
    seq(|first|, j requires 0 <= j < |first| =>
      assert HasKey(first, first[j].key);
      ScalarShown(num, ValueAt(ms, first[j].key)))
  }

  // ---------------------------------------------------------------- the encoder prints this form

  lemma {:induction false} PadIs(d: nat)
    ensures Pad(d) == Blanks(2 * d)
  {
    if d > 0 {
      PadIs(d - 1);
      assert "  " + Blanks(2 * (d - 1)) == Blanks(2 * d);
    }
  }

  lemma OneLineShown(d: nat, text: string)
    ensures RenderAll([Line(d, text)]) == [Pad(d) + text]
  {
    PadIs(d);
  }

  lemma RenderJoin(a: seq<Line>, b: seq<Line>)
    ensures RenderAll(a + b) == RenderAll(a) + RenderAll(b)
  {
    hide Render;
  }

  lemma RenderThree(a: seq<Line>, b: seq<Line>, c: seq<Line>)
    ensures RenderAll(a + b + c) == RenderAll(a + b) + RenderAll(c)
    ensures RenderAll(a + b) == RenderAll(a) + RenderAll(b)
  {
    RenderJoin(a + b, c);
    RenderJoin(a, b);
  }

  lemma RenderNone()
    ensures RenderAll([]) == []
  {
  }

  lemma AllScalarsIs(vs: seq<Value>)
    ensures AllPrimitive(vs) <==> AllScalars(vs)
  {
    forall i | 0 <= i < |vs| ensures vs[i] in vs {
    }
  }

  lemma ScalarTextsAre(num: Numbers, vs: seq<Value>)
    requires AllScalars(vs) && AllPrimitive(vs)
    ensures ScalarTexts(num, vs) == EncCells(num, vs)
  {
    forall i | 0 <= i < |vs| ensures ScalarTexts(num, vs)[i] == EncCells(num, vs)[i] {
      ScalarIs(num, vs[i]);
    }
  }

  lemma KeySetIs(a: seq<Member>, b: seq<Member>)
    ensures KeySet(a) == KeySet(b) <==> forall k :: HasKey(a, k) <==> HasKey(b, k)
  {
    forall k ensures HasKey(a, k) <==> k in KeySet(a) {
      KeyIn(a, k);
    }
    forall k ensures HasKey(b, k) <==> k in KeySet(b) {
      KeyIn(b, k);
    }
    hide HasKey, KeySet;
    assert KeySet(a) == KeySet(b) <==> forall k :: k in KeySet(a) <==> k in KeySet(b);
  }

  lemma KeyIn(ms: seq<Member>, k: string)
    ensures HasKey(ms, k) <==> k in KeySet(ms)
  {
    if HasKey(ms, k) {
      var i :| 0 <= i < |ms| && ms[i].key == k;
      assert ms[i] in ms;
    }
  }

  lemma FlatIs(x: Value)
    ensures FlatObject(x) <==> x.Obj? && forall j :: 0 <= j < |x.members| ==> IsPrimitive(x.members[j].value)
  {
    if x.Obj? {
      forall j | 0 <= j < |x.members| ensures x.members[j] in x.members {
      }
    }
  }

  lemma BareKeysAre(ms: seq<Member>)
    ensures (exists m :: m in ms && KeyNeedsQuote(m.key)) <==> !(forall j :: 0 <= j < |ms| ==> BareKey(ms[j].key))
  {
    forall k ensures KeyNeedsQuote(k) <==> !BareKey(k) {
      if k != "" {
        PaddedIs(k);
      }
    }
    hide KeyNeedsQuote, BareKey;
    forall j | 0 <= j < |ms| ensures ms[j] in ms {
    }
  }

  lemma TableFields(items: seq<Value>)
    requires IsTable(items)
    ensures TabularFields(items) == Some(Keys(items[0].members))
  {
    hide KeyNeedsQuote, BareKey, FlatObject, KeySet;
    var first := items[0].members;
    BareKeysAre(first);
    forall x | x in items ensures x.Obj? && FlatObject(x) && KeySet(x.members) == KeySet(first) {
      var i :| 0 <= i < |items| && items[i] == x;
      FlatIs(items[i]);
      KeySetIs(items[i].members, first);
    }
    hide HasKey;
  }

  lemma TableShape(items: seq<Value>)
    requires items != [] && TabularFields(items).Some?
    ensures IsTable(items)
  {
    hide KeyNeedsQuote, BareKey, FlatObject, KeySet;
    assert items[0] in items;
    var first := items[0].members;
    BareKeysAre(first);
    assert HasKey(first, first[0].key);
    forall i | 0 <= i < |items|
      ensures items[i].Obj? && items[i].members != []
      ensures forall j :: 0 <= j < |items[i].members| ==> IsPrimitive(items[i].members[j].value)
      ensures forall k :: HasKey(items[i].members, k) <==> HasKey(first, k)
    {
      assert items[i] in items;
      FlatIs(items[i]);
      KeySetIs(items[i].members, first);
      assert HasKey(items[i].members, first[0].key);
    }
  }

  /** An array is printed as a table exactly if it is one, in the order of the first object's keys. */
  lemma TableExactly(items: seq<Value>)
    requires items != []
    ensures TabularFields(items) == if IsTable(items) then Some(Keys(items[0].members)) else None
  {
    hide IsTable, TabularFields;
    if IsTable(items) {
      TableFields(items);
    } else if TabularFields(items).Some? {
      TableShape(items);
    }
  }

  lemma LookupIs(ms: seq<Member>, k: string)
    requires DistinctKeys(ms) && HasKey(ms, k)
    ensures Lookup(ms, k) == ValueAt(ms, k)
  {
    var i :| 0 <= i < |ms| && ms[i].key == k;
    ToonRoundTrip.LookupAt(ms, i);
    forall j | 0 <= j < |ms| && ms[j].key == k ensures j == i {
    }
  }

  lemma TableRowShown(num: Numbers, items: seq<Value>, i: nat)
    requires IsTable(items) && TabularFields(items) == Some(Keys(items[0].members)) && i < |items|
    requires forall x :: x in items ==> WellFormed(x)
    ensures RowText(num, TableCells(items)[i]) == Join(",", RowTexts(num, items, i))
  {
    var ms, fields, row := items[i].members, Keys(items[0].members), TableCells(items)[i];
    assert items[i] in items && WellFormed(items[i]);
    TableRow(items, items[i]);
    forall j | 0 <= j < |fields|
      ensures HasKey(ms, fields[j]) && row[j] == ValueAt(ms, fields[j])
      ensures EncCells(num, row)[j] == RowTexts(num, items, i)[j]
    {
      assert HasKey(items[0].members, fields[j]);
      LookupIs(ms, fields[j]);
      ScalarIs(num, row[j]);
    }
    hide Lookup, ValueAt, ScalarShown, EncScalar, IsTable, TabularFields;
    assert EncCells(num, row) == RowTexts(num, items, i);
  }

  lemma {:induction false} RowsShown(num: Numbers, d: nat, rows: seq<Row>)
    ensures RenderAll(RowLines(num, d, rows))
         == seq(|rows|, i requires 0 <= i < |rows| => Pad(d) + RowText(num, rows[i]))
  {
    hide RowText, Render, Pad;
    if rows != [] {
      var line, rest := Line(d, RowText(num, rows[0])), RowLines(num, d, rows[1..]);
      OneLineShown(d, RowText(num, rows[0]));
      RenderJoin([line], rest);
      RowsShown(num, d, rows[1..]);
    }
  }

  lemma TableLines(num: Numbers, d: nat, items: seq<Value>)
    requires IsTable(items) && TabularFields(items) == Some(Keys(items[0].members))
    requires forall x :: x in items ==> WellFormed(x)
    ensures RenderAll(RowLines(num, d, TableCells(items))) == ShownRows(num, d, items)
  {
    RowsShown(num, d, TableCells(items));
    hide IsTable, TabularFields, TableCells, RowLines, Render, RowText, RowTexts, WellFormed;
    forall i | 0 <= i < |items|
      ensures RowText(num, TableCells(items)[i]) == Join(",", RowTexts(num, items, i))
    {
      TableRowShown(num, items, i);
    }
  }

  lemma NoTable(items: seq<Value>)
    ensures IsTable(items) ==> items != [] && items[0].Obj? && !AllScalars(items)
  {
    if IsTable(items) {
      assert !IsPrimitive(items[0]);
    }
  }

  /** The line of an array, whatever stands in front of it. */
  lemma HeadShown(num: Numbers, d: nat, mark: string, items: seq<Value>)
    ensures ShownArray(num, d, mark, items) != []
    ensures RenderAll([Line(d, mark + ArrayHead(num, items))]) == [ShownArray(num, d, mark, items)[0]]
  {
    hide *;
    OneLineShown(d, mark + ArrayHead(num, items));
    HeadIs(num, items);
    FirstShown(num, d, mark, items);
    HeadText(Pad(d), mark, NatText(|items|), HeadTail(num, items));
  }

  /** What follows the count in the line of an array. */
  function HeadTail(num: Numbers, items: seq<Value>): string {
    if items == [] then ":"
    else if AllPrimitive(items) then ": " + Join(",", EncCells(num, items))
    else if TabularFields(items).Some? then "{" + Join(",", TabularFields(items).value) + "}:"
    else ":"
  }

  lemma HeadIs(num: Numbers, items: seq<Value>)
    ensures ArrayHead(num, items) == "[" + NatText(|items|) + "]" + HeadTail(num, items)
  {
    hide TabularFields, EncCells, AllPrimitive, Join, NatText;
    HeadTails(num, items);
  }

  lemma FirstShown(num: Numbers, d: nat, mark: string, items: seq<Value>)
    ensures ShownArray(num, d, mark, items) != []
    ensures ShownArray(num, d, mark, items)[0]
            == Pad(d) + mark + "[" + NatText(|items|) + "]" + HeadTail(num, items)
  {
    AllScalarsIs(items);
    if items != [] {
      TableExactly(items);
    }
    if AllScalars(items) {
      ScalarTextsAre(num, items);
    }
    hide IsTable, TabularFields, EncCells, ScalarTexts, AllScalars, AllPrimitive, ShownRows, ShownElements, Pad, Join,
         NatText;
    Unbroken(Pad(d) + mark + "[" + NatText(|items|) + "]",
             if AllScalars(items) then Join(",", ScalarTexts(num, items)) else "",
             if items != [] && IsTable(items) then Join(",", Keys(items[0].members)) else "");
  }

  lemma Unbroken(head: string, cells: string, names: string)
    ensures head + (": " + cells) == head + ": " + cells
    ensures head + ("{" + names + "}:") == head + "{" + names + "}:"
  {
  }

  lemma HeadText(pad: string, mark: string, count: string, tail: string)
    ensures pad + (mark + ("[" + count + "]" + tail)) == pad + mark + "[" + count + "]" + tail
  {
  }

  lemma HeadTails(num: Numbers, items: seq<Value>)
    ensures ":" + "" == ":"
    ensures AllPrimitive(items)
            ==> ": " + Join(",", EncCells(num, items)) == ":" + (" " + Join(",", EncCells(num, items)))
  {
  }

  /** What stands below the line of an array. */
  lemma ArrayParts(num: Numbers, d: nat, mark: string, items: seq<Value>)
    ensures ShownArray(num, d, mark, items) != []
    ensures ShownArray(num, d, mark, items)
            == [ShownArray(num, d, mark, items)[0]]
               + if AllScalars(items) then []
                 else if IsTable(items) then ShownRows(num, d + 1, items)
                 else ShownElements(num, d + 1, items)
  {
    NoTable(items);
    assert items == [] ==> AllScalars(items);
    hide IsTable, AllScalars, ShownRows, ShownElements, Join, NatText, Pad, ScalarTexts;
  }

  lemma BodyParts(num: Numbers, d: nat, items: seq<Value>)
    ensures AllScalars(items) ==> ArrayBody(num, d, items) == []
    ensures !AllScalars(items) && IsTable(items)
            ==> TabularFields(items) == Some(Keys(items[0].members))
                && ArrayBody(num, d, items) == RowLines(num, d + 1, TableCells(items))
    ensures !AllScalars(items) && !IsTable(items) ==> ArrayBody(num, d, items) == ItemsLines(num, d + 1, items)
  {
    AllScalarsIs(items);
    if items != [] {
      TableExactly(items);
    }
    hide IsTable, TabularFields, AllScalars, AllPrimitive, RowLines, ItemsLines, TableCells;
  }

  /** The lines of an array: its own and those below it. */
  lemma {:induction false} ArrayIs(num: Numbers, d: nat, mark: string, items: seq<Value>)
    requires forall x :: x in items ==> WellFormed(x)
    ensures RenderAll([Line(d, mark + ArrayHead(num, items))] + ArrayBody(num, d, items))
            == ShownArray(num, d, mark, items)
    decreases items, 3
  {
    hide *;
    HeadShown(num, d, mark, items);
    RenderJoin([Line(d, mark + ArrayHead(num, items))], ArrayBody(num, d, items));
    ArrayParts(num, d, mark, items);
    BodyParts(num, d, items);
    RenderNone();
    if !AllScalars(items) {
      if IsTable(items) {
        TableLines(num, d + 1, items);
      } else {
        ElementsAre(num, d + 1, items);
      }
    }
  }

  lemma {:induction false} ElementsAre(num: Numbers, d: nat, items: seq<Value>)
    requires forall x :: x in items ==> WellFormed(x)
    ensures RenderAll(ItemsLines(num, d, items)) == ShownElements(num, d, items)
    decreases items, 2
  {
    RenderNone();
    if items != [] {
      assert items[0] in items;
      hide Shown, ItemText, Block, RenderAll, WellFormed;
      ElementIs(num, d, items[0]);
      ElementsAre(num, d, items[1..]);
      RenderThree([Line(d, ItemText(num, items[0]))], Block(num, d, items[0]), ItemsLines(num, d, items[1..]));
    }
  }

  lemma {:induction false} MembersAre(num: Numbers, d: nat, ms: seq<Member>)
    requires forall m :: m in ms ==> WellFormed(m.value)
    ensures RenderAll(MembersLines(num, d, ms)) == ShownMembers(num, d, ms)
    decreases ms, 2
  {
    RenderNone();
    if ms != [] {
      assert ms[0] in ms;
      hide Shown, MemberText, Block, RenderAll, WellFormed;
      MemberIs(num, d, ms[0].key, ms[0].value);
      MembersAre(num, d, ms[1..]);
      RenderThree([Line(d, MemberText(num, ms[0]))], Block(num, d, ms[0].value), MembersLines(num, d, ms[1..]));
    }
  }

  lemma ObjectShown(num: Numbers, d: nat, place: Place, text: string, ms: seq<Member>)
    requires RenderAll(MembersLines(num, d + 1, ms)) == ShownMembers(num, d + 1, ms)
    requires match place
             case Top => false
             case Under(k) => text == EncKey(k) + ":"
             case Element => text == "-"
    ensures RenderAll([Line(d, text)] + Block(num, d, Obj(ms))) == Shown(num, d, place, Obj(ms))
  {
    if place.Under? {
      BareKeyExactly(place.key);
    }
    OneLineShown(d, text);
    RenderJoin([Line(d, text)], MembersLines(num, d + 1, ms));
    hide BareKey, EncKey, Pad, RenderAll, MembersLines, ShownMembers;
    if place.Under? {
      assert Pad(d) + KeyShown(place.key) + ":" == Pad(d) + text;
    }
  }

  lemma ScalarShownAt(num: Numbers, d: nat, place: Place, text: string, v: Value)
    requires IsPrimitive(v)
    requires match place
             case Top => false
             case Under(k) => text == EncKey(k) + (":" + (" " + EncScalar(num, v)))
             case Element => text == "- " + EncScalar(num, v)
    ensures RenderAll([Line(d, text)] + Block(num, d, v)) == Shown(num, d, place, v)
  {
    if place.Under? {
      BareKeyExactly(place.key);
    }
    ScalarIs(num, v);
    OneLineShown(d, text);
    assert [Line(d, text)] + [] == [Line(d, text)];
    hide BareKey, EncKey, Pad, RenderAll, EncScalar, ScalarShown, KeyShown, IsPrimitive;
    if place.Under? {
      KeyedText(Pad(d), KeyShown(place.key), ScalarShown(num, v));
    } else {
      DashedText(Pad(d), ScalarShown(num, v));
    }
  }

  lemma KeyedText(pad: string, key: string, text: string)
    ensures pad + key + ": " + text == pad + (key + (":" + (" " + text)))
  {
  }

  lemma DashedText(pad: string, text: string)
    ensures pad + "- " + text == pad + ("- " + text)
  {
  }

  lemma ListShown(num: Numbers, d: nat, place: Place, items: seq<Value>)
    ensures Shown(num, d, place, List(items)) == ShownArray(num, d, ArrayMark(place), items)
    ensures Block(num, d, List(items)) == ArrayBody(num, d, items)
    ensures place.Under? ==> ArrayMark(place) == EncKey(place.key)
  {
    if place.Under? {
      BareKeyExactly(place.key);
    }
    hide BareKey, EncKey, ShownArray, ArrayBody;
  }

  lemma ElementText(num: Numbers, v: Value)
    ensures match v
            case Obj(_) => ItemText(num, v) == "-"
            case List(items) => ItemText(num, v) == "- " + ArrayHead(num, items)
            case _ => ItemText(num, v) == "- " + EncScalar(num, v)
  {
    hide ArrayHead, EncScalar;
  }

  lemma MemberTexts(num: Numbers, k: string, v: Value)
    ensures match v
            case Obj(_) => MemberText(num, Member(k, v)) == EncKey(k) + ":"
            case List(items) => MemberText(num, Member(k, v)) == EncKey(k) + ArrayHead(num, items)
            case _ => MemberText(num, Member(k, v)) == EncKey(k) + (":" + (" " + EncScalar(num, v)))
  {
    hide ArrayHead, EncScalar, EncKey;
  }

  /** The lines of a list element. */
  lemma {:induction false} ElementIs(num: Numbers, d: nat, v: Value)
    requires WellFormed(v)
    ensures RenderAll([Line(d, ItemText(num, v))] + Block(num, d, v)) == Shown(num, d, Element, v)
    decreases v, 1
  {
    match v {
      case Obj(ms) => MembersAre(num, d + 1, ms);
      case List(items) => ArrayIs(num, d, "- ", items);
      case _ =>
    }
    ElementText(num, v);
    hide *;
    match v {
      case Obj(ms) => ObjectShown(num, d, Element, "-", ms);
      case List(items) =>
        ListShown(num, d, Element, items);
        MarkOfElement();
      case _ => ScalarShownAt(num, d, Element, ItemText(num, v), v);
    }
  }

  lemma MarkOfElement()
    ensures ArrayMark(Element) == "- " && ArrayMark(Top) == ""
  {
  }

  /** The lines of a member. */
  lemma {:induction false} MemberIs(num: Numbers, d: nat, k: string, v: Value)
    requires WellFormed(v)
    ensures RenderAll([Line(d, MemberText(num, Member(k, v)))] + Block(num, d, v)) == Shown(num, d, Under(k), v)
    decreases v, 1
  {
    match v {
      case Obj(ms) => MembersAre(num, d + 1, ms);
      case List(items) => ArrayIs(num, d, EncKey(k), items);
      case _ =>
    }
    MemberTexts(num, k, v);
    hide *;
    match v {
      case Obj(ms) => ObjectShown(num, d, Under(k), EncKey(k) + ":", ms);
      case List(items) => ListShown(num, d, Under(k), items);
      case _ => ScalarShownAt(num, d, Under(k), MemberText(num, Member(k, v)), v);
    }
  }

  /** Every object and array is printed in this form, line by line. */
  lemma PrintedForm(num: Numbers, v: Value)
    requires WellFormed(v) && !IsPrimitive(v)
    ensures Encode(num, v) == Ok(Join("\n", Shown(num, 0, Top, v)))
  {
    hide Join, RenderAll;
    match v
    case Obj(ms) =>
      MembersAre(num, 0, ms);
      NothingBefore(ShownMembers(num, 0, ms));
      hide ShownMembers, MembersLines;
    case List(items) =>
      ArrayIs(num, 0, "", items);
      hide ArrayHead, ArrayBody, ShownArray;
      assert "" + ArrayHead(num, items) == ArrayHead(num, items);
  }

  lemma NothingBefore(lines: seq<string>)
    ensures [] + lines == lines
  {
  }

  // ---------------------------------------------------------------- arrays on the text

  /** A row of the table: the object's scalar at each of the first object's keys, in their order. */
  ghost predicate IsRow(num: Numbers, first: seq<Member>, ms: seq<Member>, cells: seq<string>) {
    && |cells| == |first|
    && forall j :: 0 <= j < |first| ==> CellAt(num, ms, first[j].key, cells[j])
  }

  ghost predicate CellAt(num: Numbers, ms: seq<Member>, k: string, cell: string) {
    exists i :: 0 <= i < |ms| && ms[i].key == k && IsPrimitive(ms[i].value) && cell == ScalarShown(num, ms[i].value)
  }

  /** An array of objects with scalars under the same bare keys is one header and one row for each object. */
  lemma TableText(num: Numbers, items: seq<Value>) returns (rows: seq<seq<string>>)
    requires IsTable(items) && WellFormed(List(items))
    ensures |rows| == |items|
    ensures forall i :: 0 <= i < |items| ==> IsRow(num, items[0].members, items[i].members, rows[i])
    ensures Encode(num, List(items))
            == Ok(Join("\n", ["[" + NatText(|items|) + "]{" + Join(",", Keys(items[0].members)) + "}:"]
                             + seq(|items|, i requires 0 <= i < |items| => "  " + Join(",", rows[i]))))
  {
    assert !IsPrimitive(List(items));
    hide *;
    PrintedForm(num, List(items));
    TableShown(num, items);
    rows := RowsOf(num, items);
  }

  lemma RowsOf(num: Numbers, items: seq<Value>) returns (rows: seq<seq<string>>)
    requires IsTable(items)
    ensures |rows| == |items|
    ensures forall i :: 0 <= i < |items| ==> IsRow(num, items[0].members, items[i].members, rows[i])
    ensures ShownRows(num, 1, items) == seq(|items|, i requires 0 <= i < |items| => "  " + Join(",", rows[i]))
  {
    rows := seq(|items|, i requires 0 <= i < |items| => RowTexts(num, items, i));
    forall i | 0 <= i < |items| ensures IsRow(num, items[0].members, items[i].members, rows[i]) {
      RowIs(num, items, i);
    }
    RowsUnder(num, items, rows);
  }

  lemma RowsUnder(num: Numbers, items: seq<Value>, rows: seq<seq<string>>)
    requires IsTable(items) && |rows| == |items|
    requires forall i :: 0 <= i < |items| ==> rows[i] == RowTexts(num, items, i)
    ensures ShownRows(num, 1, items) == seq(|items|, i requires 0 <= i < |items| => "  " + Join(",", rows[i]))
  {
    hide IsTable, RowTexts, Join;
    assert Pad(1) == "  " by {
      assert Pad(0) == "" && Pad(1) == "  " + Pad(0);
    }
  }

  lemma TableShown(num: Numbers, items: seq<Value>)
    requires IsTable(items)
    ensures items != [] && items[0].Obj?
    ensures Shown(num, 0, Top, List(items))
            == ["[" + NatText(|items|) + "]{" + Join(",", Keys(items[0].members)) + "}:"] + ShownRows(num, 1, items)
  {
    NoTable(items);
    hide AllScalars, IsTable, Join, NatText, ShownRows;
    MarkOfElement();
    HeadTexts(NatText(|items|), Join(",", Keys(items[0].members)));
  }

  lemma HeadTexts(count: string, keys: string)
    ensures "" + "" + "[" + count + "]" + "{" + keys + "}:" == "[" + count + "]{" + keys + "}:"
  {
    assert "]" + "{" == "]{";
    assert "" + "" + "[" + count + "]" + "{" + keys + "}:" == "[" + count + ("]" + "{") + keys + "}:";
  }

  lemma RowIs(num: Numbers, items: seq<Value>, i: nat)
    requires IsTable(items) && i < |items|
    ensures IsRow(num, items[0].members, items[i].members, RowTexts(num, items, i))
  {
    var first, ms := items[0].members, items[i].members;
    forall j | 0 <= j < |first| ensures CellAt(num, ms, first[j].key, RowTexts(num, items, i)[j]) {
      assert HasKey(first, first[j].key);
      assert HasKey(ms, first[j].key);
      var k :| 0 <= k < |ms| && ms[k].key == first[j].key && ms[k].value == ValueAt(ms, first[j].key);
      assert IsPrimitive(ms[k].value);
    }
  }
}
