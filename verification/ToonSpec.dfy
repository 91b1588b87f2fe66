/** What the TOON encoder writes and the TOON decoder reads, as functions over lines. */
module ToonSpec {
  import opened Options
  import opened Text
  import opened ToonScalars
  import opened ToonLines

  // ---------------------------------------------------------------- encoding

  function Keys(ms: seq<Member>): (r: seq<string>)
    ensures |r| == |ms|
    ensures forall i :: 0 <= i < |ms| ==> r[i] == ms[i].key
  {
    seq(|ms|, i requires 0 <= i < |ms| => ms[i].key)
  }

  function KeySet(ms: seq<Member>): set<string> {
    set m | m in ms :: m.key
  }

  predicate AllPrimitive(vs: seq<Value>) {
    forall v :: v in vs ==> IsPrimitive(v)
  }

  predicate FlatObject(v: Value) {
    v.Obj? && forall m :: m in v.members ==> IsPrimitive(m.value)
  }

  /** The shared field order of an array of flat objects with one key set, if there is one. */
  function TabularFields(items: seq<Value>): Option<seq<string>>
    requires items != []
  {
    if !(forall x :: x in items ==> x.Obj?) || items[0].members == [] then None
    else
      var first := items[0].members;
      if exists x :: x in items && !(FlatObject(x) && KeySet(x.members) == KeySet(first)) then None
      else if exists m :: m in first && KeyNeedsQuote(m.key) then None
      else Some(Keys(first))
  }

  /** The value at a key. Keys do not repeat, so the first occurrence is the only one. */
  function Lookup(ms: seq<Member>, k: string): Value
    requires HasKey(ms, k)
  {
    if ms[0].key == k then ms[0].value else Lookup(ms[1..], k)
  }

  function RowValues(ms: seq<Member>, fields: seq<string>): (r: seq<Value>)
    requires forall f :: f in fields ==> HasKey(ms, f)
    ensures |r| == |fields|
    ensures forall i :: 0 <= i < |fields| ==> r[i] == Lookup(ms, fields[i])
  {
    seq(|fields|, i requires 0 <= i < |fields| => Lookup(ms, fields[i]))
  }

  lemma {:induction false} LookupInside(ms: seq<Member>, k: string)
    requires HasKey(ms, k)
    ensures Member(k, Lookup(ms, k)) in ms
  {
    if ms[0].key == k {
      assert ms[0] in ms;
    } else {
      LookupInside(ms[1..], k);
    }
  }

  function ArrayHead(num: Numbers, items: seq<Value>): string {
    var n := CountText(|items|);
    if items == [] then n + (":" + "")
    else if AllPrimitive(items) then n + (":" + (" " + Join(",", EncCells(num, items))))
    else if TabularFields(items).Some? then n + ("{" + Join(",", TabularFields(items).value) + "}:")
    else n + (":" + "")
  }

  /** A row of a table holds a primitive at each field. */
  lemma TableRow(items: seq<Value>, x: Value)
    requires items != [] && TabularFields(items).Some? && x in items
    ensures x.Obj? && forall f :: f in TabularFields(items).value ==>
      HasKey(x.members, f) && IsPrimitive(Lookup(x.members, f))
  {
    var (ms, first) := (x.members, items[0].members);
    assert FlatObject(x) && KeySet(ms) == KeySet(first);
    forall f | f in Keys(first) ensures HasKey(ms, f) && IsPrimitive(Lookup(ms, f)) {
      var i :| 0 <= i < |first| && Keys(first)[i] == f;
      assert first[i] in first && f in KeySet(first);
      var m :| m in ms && m.key == f;
      LookupInside(ms, f);
    }
  }

  type Row = vs: seq<Value> | AllPrimitive(vs)

  function TableCells(items: seq<Value>): (r: seq<Row>)
    requires items != [] && TabularFields(items).Some?
    ensures |r| == |items|
    ensures forall i :: 0 <= i < |items| ==> |r[i]| == |TabularFields(items).value|
  {
    var fields := TabularFields(items).value;
    forall x | x in items { TableRow(items, x); }
    seq(|items|, i requires 0 <= i < |items| => assert items[i] in items; RowValues(items[i].members, fields))
  }

  function RowText(num: Numbers, row: Row): string {
    Join(",", EncCells(num, row))
  }

  function RowLines(num: Numbers, d: nat, rows: seq<Row>): seq<Line> {
    if rows == [] then [] else [Line(d, RowText(num, rows[0]))] + RowLines(num, d, rows[1..])
  }

  /** The line of an object member: its key, and a colon, an array header or a scalar. */
  function MemberText(num: Numbers, m: Member): string {
    EncKey(m.key) + MemberRest(num, m.value)
  }

  function MemberRest(num: Numbers, v: Value): string {
    match v
    case Obj(_) => ":"
    case List(items) => ArrayHead(num, items)
    case _ => ":" + (" " + EncScalar(num, v))
  }

  /** The line of a list item. */
  function ItemText(num: Numbers, v: Value): string {
    match v
    case Obj(_) => "-"
    case List(items) => "- " + ArrayHead(num, items)
    case _ => "- " + EncScalar(num, v)
  }

  /** The lines below the line of `v` when that line stands at depth `d`. */
  function Block(num: Numbers, d: nat, v: Value): seq<Line>
    decreases v, 0
  {
    match v
    case Obj(ms) => MembersLines(num, d + 1, ms)
    case List(items) => ArrayBody(num, d, items)
    case _ => []
  }

  /** The lines below an array header that stands at depth `d`. */
  function ArrayBody(num: Numbers, d: nat, items: seq<Value>): seq<Line>
    decreases items, 2
  {
    if AllPrimitive(items) then []
    else if TabularFields(items).Some? then RowLines(num, d + 1, TableCells(items))
    else ItemsLines(num, d + 1, items)
  }

  function ItemsLines(num: Numbers, d: nat, items: seq<Value>): seq<Line>
    decreases items, 1
  {
    if items == [] then []
    else [Line(d, ItemText(num, items[0]))] + Block(num, d, items[0]) + ItemsLines(num, d, items[1..])
  }

  function MembersLines(num: Numbers, d: nat, ms: seq<Member>): seq<Line>
    decreases ms, 1
  {
    if ms == [] then []
    else [Line(d, MemberText(num, ms[0]))] + Block(num, d, ms[0].value) + MembersLines(num, d, ms[1..])
  }

  function EncodeLines(num: Numbers, v: Value): seq<Line>
    requires !IsPrimitive(v)
  {
    match v
    case Obj(ms) => MembersLines(num, 0, ms)
    case List(items) => [Line(0, ArrayHead(num, items))] + Block(num, 0, v)
  }

  function Encode(num: Numbers, v: Value): Decoded<string> {
    if IsPrimitive(v) then Err(TopLevelScalar) else Ok(Join("\n", RenderAll(EncodeLines(num, v))))
  }

  // ---------------------------------------------------------------- decoding

  /** `out[k] = v` on a dictionary in insertion order. */
  function Put(ms: seq<Member>, k: string, v: Value): seq<Member> {
    if ms == [] then [Member(k, v)]
    else if ms[0].key == k then [Member(k, v)] + ms[1..]
    else [ms[0]] + Put(ms[1..], k, v)
  }

  function PutAll(out: seq<Member>, fields: seq<string>, vs: seq<Value>): seq<Member>
    requires |fields| == |vs|
    decreases |fields|
  {
    if fields == [] then out else PutAll(Put(out, fields[0], vs[0]), fields[1..], vs[1..])
  }

  /** A decoded block, and the lines after it. */
  type Parsed<T> = Decoded<(T, seq<Line>)>

  /** `parse_members`, continued with the members in `out`. */
  function DecMembers(num: Numbers, ls: seq<Line>, d: nat, out: seq<Member>): (r: Parsed<seq<Member>>)
    ensures r.Ok? ==> |r.value.1| <= |ls|
    decreases |ls|, 0
  {
    if ls == [] || ls[0].indent != d || IsItem(ls[0].text) then Ok((out, ls))
    else
      var kt :- ParseMember(num.digit, ls[0].text);
      var vr :- DecBlock(num, ls[1..], d, kt.1);
      DecMembers(num, vr.1, d, Put(out, kt.0, vr.0))
  }

  /** The value whose line stands at depth `d` and ended in `tail`. */
  function DecBlock(num: Numbers, ls: seq<Line>, d: nat, tail: ValueTail): (r: Parsed<Value>)
    ensures r.Ok? ==> |r.value.1| <= |ls|
    decreases |ls|, 4
  {
    match tail
    case ArrayTail(h) =>
      var ar :- DecArray(num, ls, d, h);
      Ok((List(ar.0), ar.1))
    case ScalarTail(token) =>
      var v :- DecScalar(num, token);
      Ok((v, ls))
    case ObjectTail => DecNested(num, ls, d)
  }

  /** The object whose header stands at depth `d`: the member lines one level deeper, if any. */
  function DecNested(num: Numbers, ls: seq<Line>, d: nat): (r: Parsed<Value>)
    ensures r.Ok? ==> |r.value.1| <= |ls|
    decreases |ls|, 1
  {
    if ls != [] && ls[0].indent == d + 1 && !IsItem(ls[0].text) then
      var mr :- DecMembers(num, ls, d + 1, []);
      Ok((Obj(mr.0), mr.1))
    else Ok((Obj([]), ls))
  }

  function DecArray(num: Numbers, ls: seq<Line>, d: nat, h: Header): (r: Parsed<seq<Value>>)
    ensures r.Ok? ==> |r.value.1| <= |ls|
    decreases |ls|, 3
  {
    if h.inline.Some? then
      var vs :- DecCells(num, SplitTop(h.inline.value));
      Ok((vs, ls))
    else if h.count == 0 then Ok(([], ls))
    else if h.fields.Some? then DecRows(num, ls, h.count, h.fields.value)
    else DecItems(num, ls, h.count, d + 1)
  }

  function DecRow(num: Numbers, text: string, fields: seq<string>): Decoded<Value> {
    var cells := SplitTop(text);
    var k := if |fields| < |cells| then |fields| else |cells|;
    var vs :- DecCells(num, cells[..k]);
    Ok(Obj(PutAll([], fields[..k], vs)))
  }

  function DecRows(num: Numbers, ls: seq<Line>, n: nat, fields: seq<string>): (r: Parsed<seq<Value>>)
    ensures r.Ok? ==> |r.value.1| <= |ls|
    decreases |ls|
  {
    if n == 0 then Ok(([], ls))
    else if ls == [] then Err(OutOfLines)
    else
      var row :- DecRow(num, ls[0].text, fields);
      var rest :- DecRows(num, ls[1..], n - 1, fields);
      Ok(([row] + rest.0, rest.1))
  }

  function DecItems(num: Numbers, ls: seq<Line>, n: nat, d: nat): (r: Parsed<seq<Value>>)
    ensures r.Ok? ==> |r.value.1| <= |ls|
    decreases |ls|, 2
  {
    if n == 0 then Ok(([], ls))
    else
      var item :- DecItem(num, ls, d);
      var rest :- DecItems(num, item.1, n - 1, d);
      Ok(([item.0] + rest.0, rest.1))
  }

  function DecItem(num: Numbers, ls: seq<Line>, d: nat): (r: Parsed<Value>)
    ensures r.Ok? ==> |r.value.1| < |ls|
    decreases |ls|, 0
  {
    if ls == [] then Err(OutOfLines)
    else
      var tail :- ParseItem(num.digit, ls[0].text);
      DecBlock(num, ls[1..], d, tail)
  }

  /** The value of a list of lines, and the lines that were not consumed. */
  function DecodeLines(num: Numbers, ls: seq<Line>): Parsed<Value> {
    if ls == [] then Ok((Obj([]), []))
    else if MatchHeader(num.digit, ls[0].text).Some? then
      var h :- ParseArrayHeader(num.digit, ls[0].text);
      DecBlock(num, ls[1..], 0, ArrayTail(h))
    else
      var mr :- DecMembers(num, ls, 0, []);
      Ok((Obj(mr.0), mr.1))
  }

  function Decode(num: Numbers, s: string): Decoded<Value> {
    var vr :- DecodeLines(num, ReadLines(SplitOn(s, '\n', "")));
    Ok(vr.0)
  }
}
