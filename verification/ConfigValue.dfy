/** Parsed configuration values, and what can be looked up in them. */
module ConfigValue {
  import opened Options

  datatype Value =
    | Null
    | Bool(flag: bool)
    | Int(number: int)
    | Float(quantity: real)
    | Text(text: string)
    | List(items: seq<Value>)
    | Map(entries: map<string, Value>)

  type Path = seq<string>

  /** The value under a path of mapping keys, if there is one. */
  function At(v: Value, path: Path): Option<Value>
    decreases |path|
  {
    if path == [] then Some(v)
    else if v.Map? && path[0] in v.entries then At(v.entries[path[0]], path[1..])
    else None
  }

  /** `mapping.get(key)`; a missing key reads as null. */
  function Get(m: map<string, Value>, key: string): Value {
    if key in m then m[key] else Null
  }

  /** Integers as `isinstance(value, int)` sees them: booleans are 0 and 1. */
  function Whole(v: Value): Option<int> {
    match v
    case Int(n) => Some(n)
    case Bool(b) => Some(if b then 1 else 0)
    case _ => None
  }

  /** Numbers as `isinstance(value, (int, float))` sees them. */
  function Number(v: Value): Option<real> {
    match v
    case Int(n) => Some(n as real)
    case Float(r) => Some(r)
    case Bool(b) => Some(if b then 1.0 else 0.0)
    case _ => None
  }

  /** What Python's `if value:` takes for false. */
  predicate Falsy(v: Value) {
    match v
    case Null => true
    case Bool(b) => !b
    case Int(n) => n == 0
    case Float(r) => r == 0.0
    case Text(s) => s == ""
    case List(l) => l == []
    case Map(m) => m == map[]
  }

  /** Looking deeper from what was found. */
  lemma {:induction false} AtJoin(v: Value, p: Path, q: Path)
    ensures At(v, p + q) == if At(v, p).None? then None else At(At(v, p).value, q)
    decreases |p|
  {
    if p == [] {
      assert p + q == q;
    } else {
      assert (p + q)[1..] == p[1..] + q;
      if v.Map? && p[0] in v.entries {
        AtJoin(v.entries[p[0]], p[1..], q);
      }
    }
  }
}
