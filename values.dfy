/** The Python values a request validator can receive from a JSON body, with Python's
    truthiness, `==` and `str()` on them. Floats and dictionaries are not part of this model. */
module Values {
  import opened Wrappers
  import opened Text

  datatype Value = Null | Bool(b: bool) | Int(i: int) | Str(s: string) | List(items: seq<Value>)

  /** `bool(v)`: None, False, 0, "" and [] are false. */
  predicate Truthy(v: Value)
  {
    match v
    case Null => false
    case Bool(b) => b
    case Int(i) => i != 0
    case Str(s) => s != []
    case List(xs) => xs != []
  }

  /** `isinstance(v, int)`: a bool is an int in Python. */
  predicate IsPyInt(v: Value)
  {
    v.Int? || v.Bool?
  }

  /** The integer a bool or an int stands for. */
  function IntOf(v: Value): int
    requires IsPyInt(v)
  {
    match v
    case Bool(b) => if b then 1 else 0
    case Int(i) => i
  }

  /** Python `a == b`: values of different kinds differ, except that True == 1 and False == 0. */
  predicate PyEq(a: Value, b: Value)
  {
    if IsPyInt(a) && IsPyInt(b) then IntOf(a) == IntOf(b) else a == b
  }

  /** `str(v)` when `quoted` is false, `repr(v)` when it is true (without escaping quotes inside strings). */
  function Render(v: Value, quoted: bool): string
    decreases v
  {
    match v
    case Null => "None"
    case Bool(b) => if b then "True" else "False"
    case Int(i) => IntToString(i)
    case Str(s) => if quoted then "'" + s + "'" else s
    case List(xs) => "[" + RenderItems(v, xs) + "]"
  }

  /** The elements of the list `whole` (whose items are `xs`) as `repr`s separated by ", ". */
  function RenderItems(ghost whole: Value, xs: seq<Value>): string
    requires forall k :: 0 <= k < |xs| ==> xs[k] < whole
    decreases whole, |xs|
  {
    if xs == [] then ""
    else if |xs| == 1 then Render(xs[0], true)
    else Render(xs[0], true) + ", " + RenderItems(whole, xs[1..])
  }

  /** `str(v)` */
  function PyStr(v: Value): string
  {
    Render(v, false)
  }

  /** `len(v)`, defined on strings and lists; `None` stands for the TypeError of `len` on the rest. */
  function Len(v: Value): Option<nat>
  {
    match v
    case Str(s) => Some(|s|)
    case List(xs) => Some(|xs|)
    case _ => None
  }

  /** A request body's attributes, as `getattr(values, name, None)` sees them. */
  type Attrs = map<string, Value>

  /** `getattr(values, name, None)` */
  function Get(values: Attrs, name: string): Value
  {
    if name in values then values[name] else Null
  }
}
