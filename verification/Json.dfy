/** JSON data as Python holds it: what connectors return, what a model answers, what SOP steps carry. */
module Json {
  import opened Wrappers

  datatype Value =
    | Null
    | Bool(b: bool)
    | Int(n: int)
    | Float(r: real)
    | Str(s: string)
    | Arr(items: seq<Value>)
    | Obj(fields: map<string, Value>)

  /** A Python `bool` is also an integer, and equality sees it as one. */
  function Numeric(v: Value): Option<real> {
    match v
    case Bool(b) => Some(if b then 1.0 else 0.0)
    case Int(n) => Some(n as real)
    case Float(r) => Some(r)
    case _ => None
  }

  /** Python's `==` on JSON data: numbers and booleans by value, lists and dictionaries deeply. */
  predicate PyEq(a: Value, b: Value) {
    if Numeric(a).Some? || Numeric(b).Some? then Numeric(a) == Numeric(b)
    else
      match (a, b)
      case (Arr(x), Arr(y)) => |x| == |y| && forall i | 0 <= i < |x| :: PyEq(x[i], y[i])
      case (Obj(x), Obj(y)) => x.Keys == y.Keys && forall k | k in x.Keys :: PyEq(x[k], y[k])
      case _ => a == b
  }
}

/** Places inside JSON data. */
module JsonPath {
  import opened Wrappers
  import opened Json

  datatype Step = Key(name: string) | Item(index: nat)

  /** What is reached from a value by taking keys and items. */
  function At(v: Value, path: seq<Step>): Option<Value>
    decreases |path|
  {
    if path == [] then Some(v)
    else
      match path[0]
      case Key(k) => if v.Obj? && k in v.fields then At(v.fields[k], path[1..]) else None
      case Item(i) => if v.Arr? && i < |v.items| then At(v.items[i], path[1..]) else None
  }
}
