/** The TOON codec in the form the program has: emitters that append to a shared list of lines, a
    decoder that moves a cursor, and scanners that loop over an index. Each method is proved equal
    to its function in `ToonSpec`, so the laws proved there hold of it. */
module Toon {
  import opened Options
  import opened Text
  import opened ToonScalars
  import opened ToonLines
  import opened ToonSpec
  import ToonRoundTrip

  // ---------------------------------------------------------------- scanners

  /** Splits at the delimiter outside quoted spans. */
  method SplitAtTop(s: string, delim: char) returns (parts: seq<string>)
    ensures parts == StripAll(SplitScan(s, delim, false, ""))
  {
    var out, buf, i, inQuote := [], "", 0, false;
    while i < |s|
      invariant i <= |s|
      invariant SplitScan(s, delim, false, "") == out + SplitScan(s[i..], delim, inQuote, buf)
    {
      var c := s[i];
      assert s[i..][1..] == s[i + 1..];
      if inQuote {
        buf := buf + [c];
        if c == '\\' && i + 1 < |s| {
          assert s[i..][2..] == s[i + 2..] && s[i..][..2] == [c, s[i + 1]];
          assert buf + [s[i + 1]] == buf[..|buf| - 1] + [c, s[i + 1]];
          buf := buf + [s[i + 1]];
          i := i + 2;
          continue;
        }
        if c == '"' {
          inQuote := false;
        }
      } else if c == '"' {
        inQuote := true;
        buf := buf + [c];
      } else if c == delim {
        out := out + [buf];
        buf := "";
      } else {
        buf := buf + [c];
      }
      i := i + 1;
    }
    out := out + [buf];
    parts := StripAll(out);
  }

  /** Reads the quoted key at the start of a line. */
  method ReadQuotedKey(text: string) returns (r: Decoded<(string, string)>)
    requires text != ""
    ensures r == ReadQuoted(text)
  {
    var i := 1;
    while i < |text|
      invariant 1 <= i <= |text| + 1
      invariant i + QuoteSpan(text[if i <= |text| then i else |text|..])
             == 1 + QuoteSpan(text[1..]) + if i <= |text| then 0 else 1
    {
      assert text[i..][1..] == text[i + 1..];
      if text[i] == '\\' {
        if i + 2 <= |text| { assert text[i..][2..] == text[i + 2..]; }
        i := i + 2;
        continue;
      }
      if text[i] == '"' {
        break;
      }
      i := i + 1;
    }
    var e := if i < |text| then i + 1 else |text|;
    assert e == 1 + QuoteSpan(text[1..]);
    var key := LoadsString(text[..e]);
    r := if key.Err? then Err(key.error) else Ok((key.value, text[e..]));
  }

  /** The key of a member line, and what follows it. */
  method ReadKey(text: string) returns (r: Decoded<(string, string)>)
    ensures r == SplitKey(text)
  {
    if text != "" && text[0] == '"' {
      r := ReadQuotedKey(text);
    } else {
      var j := 0;
      while j < |text| && text[j] != '[' && text[j] != ':'
        invariant j <= |text| && KeyEnd(text, 0) == KeyEnd(text, j)
      {
        j := j + 1;
      }
      r := Ok((text[..j], text[j..]));
    }
  }

  // ---------------------------------------------------------------- emitters

  class LineBuffer {
    var lines: seq<string>

    constructor ()
      ensures lines == []
    {
      lines := [];
    }

    method Append(d: nat, text: string)
      modifies this
      ensures lines == old(lines) + RenderAll([Line(d, text)])
    {
      lines := lines + [Blanks(2 * d) + text];
    }

    method EmitMembers(num: Numbers, d: nat, ms: seq<Member>)
      modifies this
      ensures lines == old(lines) + RenderAll(MembersLines(num, d, ms))
      decreases ms, 1
    {
      var i := 0;
      while i < |ms|
        invariant i <= |ms|
        invariant lines + RenderAll(MembersLines(num, d, ms[i..])) == old(lines) + RenderAll(MembersLines(num, d, ms))
      {
        var m := ms[i];
        ghost var before := lines;
        Append(d, MemberText(num, m));
        EmitBlock(num, d, m.value);
        assert ms[i..][0] == m && ms[i..][1..] == ms[i + 1..];
        RenderStep(before, lines, Line(d, MemberText(num, m)), Block(num, d, m.value),
                   MembersLines(num, d, ms[i + 1..]));
        i := i + 1;
      }
      assert RenderAll(MembersLines(num, d, ms[i..])) == [];
    }

    /** The lines below the line of a value. */
    method EmitBlock(num: Numbers, d: nat, v: Value)
      modifies this
      ensures lines == old(lines) + RenderAll(Block(num, d, v))
      decreases v, 0
    {
      match v
      case Obj(ms) => EmitMembers(num, d + 1, ms);
      case List(items) => EmitArrayBody(num, d, items);
      case _ =>
    }

    method EmitArrayBody(num: Numbers, d: nat, items: seq<Value>)
      modifies this
      ensures lines == old(lines) + RenderAll(ArrayBody(num, d, items))
      decreases items, 2
    {
      if AllPrimitive(items) {
      } else if TabularFields(items).Some? {
        EmitRows(num, d + 1, TableCells(items));
      } else {
        EmitItems(num, d + 1, items);
      }
    }

    method EmitRows(num: Numbers, d: nat, rows: seq<Row>)
      modifies this
      ensures lines == old(lines) + RenderAll(RowLines(num, d, rows))
    {
      var i := 0;
      while i < |rows|
        invariant i <= |rows|
        invariant lines + RenderAll(RowLines(num, d, rows[i..])) == old(lines) + RenderAll(RowLines(num, d, rows))
      {
        ghost var before := lines;
        Append(d, RowText(num, rows[i]));
        assert rows[i..][0] == rows[i] && rows[i..][1..] == rows[i + 1..];
        RowStep(before, lines, Line(d, RowText(num, rows[i])), RowLines(num, d, rows[i + 1..]));
        i := i + 1;
      }
    }

    method EmitItems(num: Numbers, d: nat, items: seq<Value>)
      modifies this
      ensures lines == old(lines) + RenderAll(ItemsLines(num, d, items))
      decreases items, 1
    {
      var i := 0;
      while i < |items|
        invariant i <= |items|
        invariant lines + RenderAll(ItemsLines(num, d, items[i..])) == old(lines) + RenderAll(ItemsLines(num, d, items))
      {
        var v := items[i];
        ghost var before := lines;
        Append(d, ItemText(num, v));
        EmitBlock(num, d, v);
        assert items[i..][0] == v && items[i..][1..] == items[i + 1..];
        RenderStep(before, lines, Line(d, ItemText(num, v)), Block(num, d, v), ItemsLines(num, d, items[i + 1..]));
        i := i + 1;
      }
    }
  }

  lemma RenderStep(before: seq<string>, after: seq<string>, line: Line, block: seq<Line>, more: seq<Line>)
    requires after == before + RenderAll([line]) + RenderAll(block)
    ensures after + RenderAll(more) == before + RenderAll([line] + block + more)
  {
    assert RenderAll([line] + block + more) == RenderAll([line]) + RenderAll(block) + RenderAll(more);
  }

  lemma RowStep(before: seq<string>, after: seq<string>, line: Line, more: seq<Line>)
    requires after == before + RenderAll([line])
    ensures after + RenderAll(more) == before + RenderAll([line] + more)
  {
    assert RenderAll([line] + more) == RenderAll([line]) + RenderAll(more);
  }

  /** Prints an object or an array; anything else at the top is refused. */
  method EncodeText(num: Numbers, v: Value) returns (r: Decoded<string>)
    ensures r == Encode(num, v)
  {
    if IsPrimitive(v) {
      return Err(TopLevelScalar);
    }
    var out := new LineBuffer();
    match v {
      case Obj(ms) =>
        out.EmitMembers(num, 0, ms);
      case List(items) =>
        out.Append(0, ArrayHead(num, items));
        out.EmitBlock(num, 0, v);
        RenderStep([], out.lines, Line(0, ArrayHead(num, items)), Block(num, 0, v), []);
        assert [Line(0, ArrayHead(num, items))] + Block(num, 0, v) + [] == EncodeLines(num, v);
    }
    assert out.lines == RenderAll(EncodeLines(num, v));
    r := Ok(Join("\n", out.lines));
  }

  // ---------------------------------------------------------------- the decoder

  /** A parse result continued by a list of values that were read before it. */
  function After(vs: seq<Value>, p: Parsed<seq<Value>>): Parsed<seq<Value>> {
    match p
    case Ok((more, rest)) => Ok((vs + more, rest))
    case Err(e) => Err(e)
  }

  lemma AfterNone(p: Parsed<seq<Value>>)
    ensures After([], p) == p
  {
    if p.Ok? {
      assert [] + p.value.0 == p.value.0;
    }
  }

  lemma AfterOne(vs: seq<Value>, v: Value, p: Parsed<seq<Value>>)
    ensures After(vs + [v], p) == After(vs, After([v], p))
  {
    if p.Ok? {
      assert vs + [v] + p.value.0 == vs + ([v] + p.value.0);
    }
  }

  lemma RowsUnfold(num: Numbers, ls: seq<Line>, n: nat, fields: seq<string>)
    ensures DecRows(num, ls, n, fields) ==
      if n == 0 then Ok(([], ls))
      else if ls == [] then Err(OutOfLines)
      else
        match DecRow(num, ls[0].text, fields)
        case Err(e) => Err(e)
        case Ok(row) => After([row], DecRows(num, ls[1..], n - 1, fields))
  {
  }

  lemma ItemsUnfold(num: Numbers, ls: seq<Line>, n: nat, d: nat)
    ensures DecItems(num, ls, n, d) ==
      if n == 0 then Ok(([], ls))
      else
        match DecItem(num, ls, d)
        case Err(e) => Err(e)
        case Ok((v, rest)) => After([v], DecItems(num, rest, n - 1, d))
  {
  }

  /** What a cursor method returned, as a value or an error, with the cursor on `rest`. */
  ghost predicate Agrees<T>(p: Parsed<T>, r: Decoded<T>, rest: seq<Line>) {
    match p
    case Ok((v, after)) => r == Ok(v) && rest == after
    case Err(e) => r == Err(e)
  }

  class Decoder {
    const num: Numbers
    const lines: seq<Line>
    var i: nat

    constructor (num: Numbers, lines: seq<Line>)
      ensures this.num == num && this.lines == lines && i == 0
    {
      this.num := num;
      this.lines := lines;
      i := 0;
    }

    ghost predicate Valid()
      reads this`i
    {
      i <= |lines|
    }

    ghost function Rest(): seq<Line>
      reads this`i
      requires Valid()
    {
      lines[i..]
    }

    method ParseMembers(d: nat) returns (r: Decoded<seq<Member>>)
      requires Valid()
      modifies this`i
      ensures Valid() && old(i) <= i
      ensures Agrees(DecMembers(num, old(Rest()), d, []), r, Rest())
      decreases |lines| - i, 0
    {
      var out: seq<Member> := [];
      while i < |lines| && lines[i].indent == d && !IsItem(lines[i].text)
        invariant Valid() && old(i) <= i
        invariant DecMembers(num, old(Rest()), d, []) == DecMembers(num, Rest(), d, out)
        decreases |lines| - i
      {
        var text := lines[i].text;
        ghost var here := Rest();
        i := i + 1;
        assert here[0].text == text && here[1..] == Rest();
        var key := ReadKey(text);
        if key.Err? {
          return Err(key.error);
        }
        var tail := ParseTail(num.digit, key.value.1);
        if tail.Err? {
          return Err(tail.error);
        }
        var v := ParseBlock(d, tail.value);
        if v.Err? {
          return Err(v.error);
        }
        out := Put(out, key.value.0, v.value);
      }
      r := Ok(out);
    }

    /** The value whose line has just been read and ended in `tail`. */
    method ParseBlock(d: nat, tail: ValueTail) returns (r: Decoded<Value>)
      requires Valid()
      modifies this`i
      ensures Valid() && old(i) <= i
      ensures Agrees(DecBlock(num, old(Rest()), d, tail), r, Rest())
      decreases |lines| - i, 4
    {
      hide DecArray, DecMembers, DecScalar, IsItem;
      match tail {
        case ArrayTail(h) =>
          var vs := ParseArrayBody(d, h);
          r := if vs.Err? then Err(vs.error) else Ok(List(vs.value));
        case ScalarTail(token) =>
          r := DecScalar(num, token);
        case ObjectTail =>
          if i < |lines| && lines[i].indent == d + 1 && !IsItem(lines[i].text) {
            var ms := ParseMembers(d + 1);
            r := if ms.Err? then Err(ms.error) else Ok(Obj(ms.value));
          } else {
            r := Ok(Obj([]));
          }
      }
    }

    method ParseArrayBody(d: nat, h: Header) returns (r: Decoded<seq<Value>>)
      requires Valid()
      modifies this`i
      ensures Valid() && old(i) <= i
      ensures Agrees(DecArray(num, old(Rest()), d, h), r, Rest())
      decreases |lines| - i, 3
    {
      hide DecCells, DecRows, DecItems, SplitScan, StripAll;
      if h.inline.Some? {
        var tokens := SplitAtTop(h.inline.value, ',');
        r := DecCells(num, tokens);
      } else if h.count == 0 {
        r := Ok([]);
      } else if h.fields.Some? {
        r := ParseRows(h.count, h.fields.value);
      } else {
        r := ParseItems(h.count, d + 1);
      }
    }

    method ParseRows(n: nat, fields: seq<string>) returns (r: Decoded<seq<Value>>)
      requires Valid()
      modifies this`i
      ensures Valid() && old(i) <= i
      ensures Agrees(DecRows(num, old(Rest()), n, fields), r, Rest())
    {
      hide DecRows, DecRow;
      var rows: seq<Value> := [];
      AfterNone(DecRows(num, Rest(), n, fields));
      for k := 0 to n
        invariant Valid() && old(i) <= i
        invariant DecRows(num, old(Rest()), n, fields) == After(rows, DecRows(num, Rest(), n - k, fields))
      {
        RowsUnfold(num, Rest(), n - k, fields);
        if i == |lines| {
          return Err(OutOfLines);
        }
        ghost var here := Rest();
        var text := lines[i].text;
        i := i + 1;
        assert here[0].text == text && here[1..] == Rest();
        var row := DecRow(num, text, fields);
        if row.Err? {
          return Err(row.error);
        }
        AfterOne(rows, row.value, DecRows(num, Rest(), n - k - 1, fields));
        rows := rows + [row.value];
      }
      RowsUnfold(num, Rest(), 0, fields);
      assert rows + [] == rows;
      r := Ok(rows);
    }

    method ParseItems(n: nat, d: nat) returns (r: Decoded<seq<Value>>)
      requires Valid()
      modifies this`i
      ensures Valid() && old(i) <= i
      ensures Agrees(DecItems(num, old(Rest()), n, d), r, Rest())
      decreases |lines| - i, 2
    {
      hide DecItems, DecItem;
      var items: seq<Value> := [];
      AfterNone(DecItems(num, Rest(), n, d));
      for k := 0 to n
        invariant Valid() && old(i) <= i
        invariant DecItems(num, old(Rest()), n, d) == After(items, DecItems(num, Rest(), n - k, d))
      {
        ItemsUnfold(num, Rest(), n - k, d);
        var item := ParseItemAt(d);
        if item.Err? {
          return Err(item.error);
        }
        AfterOne(items, item.value, DecItems(num, Rest(), n - k - 1, d));
        items := items + [item.value];
      }
      ItemsUnfold(num, Rest(), 0, d);
      assert items + [] == items;
      r := Ok(items);
    }

    method ParseItemAt(d: nat) returns (r: Decoded<Value>)
      requires Valid()
      modifies this`i
      ensures Valid() && old(i) <= i
      ensures Agrees(DecItem(num, old(Rest()), d), r, Rest())
      decreases |lines| - i, 1
    {
      if i == |lines| {
        return Err(OutOfLines);
      }
      ghost var here := Rest();
      var text := lines[i].text;
      i := i + 1;
      assert here[0].text == text && here[1..] == Rest();
      var tail := ParseItem(num.digit, text);
      if tail.Err? {
        return Err(tail.error);
      }
      r := ParseBlock(d, tail.value);
    }
  }

  /** Decodes a whole text. */
  method DecodeText(num: Numbers, s: string) returns (r: Decoded<Value>)
    ensures r == Decode(num, s)
  {
    hide DecMembers, DecBlock, ReadLines, SplitOn, MatchHeader, ParseArrayHeader;
    var lines := ReadLines(SplitOn(s, '\n', ""));
    if lines == [] {
      return Ok(Obj([]));
    }
    var dec := new Decoder(num, lines);
    assert dec.Rest() == lines;
    var first := lines[0].text;
    if MatchHeader(num.digit, first).Some? {
      dec.i := 1;
      var h := ParseArrayHeader(num.digit, first);
      if h.Err? {
        return Err(h.error);
      }
      r := dec.ParseBlock(0, ArrayTail(h.value));
    } else {
      var ms := dec.ParseMembers(0);
      r := if ms.Err? then Err(ms.error) else Ok(Obj(ms.value));
    }
  }

  /** The running codec keeps the promised law: what `EncodeText` prints, `DecodeText` reads back,
      up to the order of keys inside objects. */
  method EncodeThenDecode(num: Numbers, v: Value) returns (r: Decoded<Value>)
    requires Lawful(num) && WellFormed(v) && !IsPrimitive(v)
    ensures r.Ok? && ToonRoundTrip.Meaning(r.value) == ToonRoundTrip.Meaning(v)
  {
    var text := EncodeText(num, v);
    ToonRoundTrip.RoundTrip(num, v);
    r := DecodeText(num, text.value);
  }
}
