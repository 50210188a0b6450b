/**
 * The Python values that an `argparse.Namespace` or a JSON gridsearch config
 * holds, and the handful of Python operators the driver applies to them.
 */
module PyValues {

  datatype Value =
    | None
    | Bool(b: bool)
    | Int(i: int)
    | Float(x: real)
    | Str(s: string)
    | List(items: seq<Value>)

  /** `bool(v)`, the test behind `or`, `and` and `if`. */
  predicate Truthy(v: Value)
  {
    match v
    case None => false
    case Bool(b) => b
    case Int(i) => i != 0
    case Float(x) => x != 0.0
    case Str(s) => |s| > 0
    case List(xs) => |xs| > 0
  }

  /** Values that take part in numeric comparison; `bool` is a subclass of `int`. */
  predicate IsNumber(v: Value)
  {
    v.Bool? || v.Int? || v.Float?
  }

  function AsReal(v: Value): real
    requires IsNumber(v)
  {
    if v.Bool? then (if v.b then 1.0 else 0.0)
    else if v.Int? then v.i as real
    else v.x
  }

  /** `v == n` for an int literal `n`: only a number can equal an int, never a string or None. */
  predicate EqualsInt(v: Value, n: int)
  {
    IsNumber(v) && AsReal(v) == n as real
  }

  /** The attributes of an `argparse.Namespace`, as `vars(args)` returns them. */
  type Bag = map<string, Value>

  /** `set(xs)` */
  function SetOf(xs: seq<string>): set<string>
  {
    set x | x in xs
  }
}
