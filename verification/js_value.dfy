/** JavaScript values as the adapter sees them, and the few operators of the
    language that its three functions rely on: `typeof`, truthiness, property
    reads, `||`, `&&`, `Array.isArray` and `Array.prototype.indexOf`. */
module JsValues {

  datatype Option<+T> = None | Some(value: T)

  /** A settled promise: `Ok` when it resolved, `Err` when it rejected. */
  datatype Result<+T, +E> = Ok(value: T) | Err(error: E)

  /** A dynamic JavaScript value. Objects are compared structurally; a
      function value is only known by an identity number, its behaviour is
      supplied separately wherever it is called. */
  datatype Value =
    | Undefined
    | Null
    | Bool(b: bool)
    | Num(n: real)
    | Str(s: string)
    | Arr(items: seq<Value>)
    | Obj(fields: map<string, Value>)
    | Fun(id: nat)

  /** The string the `typeof` operator yields. */
  function TypeOf(v: Value): (t: string)
    ensures t == "object" <==> v.Null? || v.Arr? || v.Obj?
    ensures t == "function" <==> v.Fun?
    ensures t == "string" <==> v.Str?
    ensures t == "undefined" <==> v.Undefined?
  {
    match v
    case Undefined => "undefined"
    case Null => "object"
    case Bool(_) => "boolean"
    case Num(_) => "number"
    case Str(_) => "string"
    case Arr(_) => "object"
    case Obj(_) => "object"
    case Fun(_) => "function"
  }

  /** JavaScript truthiness (ToBoolean). NaN is not modelled, see README. */
  predicate Truthy(v: Value) {
    match v
    case Undefined => false
    case Null => false
    case Bool(b) => b
    case Num(n) => n != 0.0
    case Str(s) => s != ""
    case _ => true
  }

  /** `Array.isArray(v)`. */
  predicate IsArray(v: Value) {
    v.Arr?
  }

  /** The property read `v.key` for the plain data keys the adapter reads
      (`request`, `type`, `intent`, `session`, `attributes`, `context`,
      `user`, `succeed`, `fail`): an own property of an object, `undefined`
      otherwise. Reading a property of `null` or `undefined` throws in
      JavaScript; callers guard against that themselves. */
  function Get(v: Value, key: string): Value
  {
    match v
    case Obj(fields) => if key in fields then fields[key] else Undefined
    case _ => Undefined
  }

  /** `a || b`: the first operand when it is truthy, the second otherwise. */
  function Or(a: Value, b: Value): Value
  {
    if Truthy(a) then a else b
  }

  /** `a && b`: the first operand when it is falsy, the second otherwise. */
  function And(a: Value, b: Value): Value
  {
    if Truthy(a) then b else a
  }

  /** `xs.indexOf(x)`: the first position holding a value strictly equal to
      `x`, or -1. For the string literals the adapter searches, strict
      equality is equality of values. */
  function IndexOf(xs: seq<Value>, x: Value): (r: int)
    ensures -1 <= r < |xs|
    ensures r == -1 <==> x !in xs
    ensures 0 <= r ==> xs[r] == x && x !in xs[..r]
  {
    if xs == [] then -1
    else if xs[0] == x then 0
    else
      var k := IndexOf(xs[1..], x);
      assert xs == [xs[0]] + xs[1..];
      if k < 0 then -1
      else
        assert xs[..k + 1] == [xs[0]] + xs[1..][..k];
        k + 1
  }
}
