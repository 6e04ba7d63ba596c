/** The duck-typed records the services receive from the two remote APIs, as
    a tree of JavaScript values, and JavaScript truthiness on them. */
module Json {
  import opened Wrappers

  /** A JavaScript value as it arrives in a parsed response. Numbers are
      reals; `undefined` is not a value here but the absence of a key. */
  datatype Value =
    | Null
    | Bool(b: bool)
    | Num(n: real)
    | Str(s: string)
    | Arr(items: seq<Value>)
    | Obj(props: map<string, Value>)

  /** `if (v)`: false, 0, the empty string and null are falsy. */
  predicate Truthy(v: Value)
  {
    match v
    case Null => false
    case Bool(b) => b
    case Num(n) => n != 0.0
    case Str(s) => s != ""
    case Arr(_) => true
    case Obj(_) => true
  }

  /** `if (v)` on a lookup that may have produced `undefined`. */
  predicate Present(v: Option<Value>)
  {
    v.Some? && Truthy(v.value)
  }

  /** `o[k]` on an object's properties. */
  function Get(o: map<string, Value>, k: string): Option<Value>
  {
    if k in o then Some(o[k]) else None
  }

  /** `k` is a canonical array index: decimal digits, without a leading
      zero unless it is `"0"` itself. */
  predicate IsIndex(k: string)
  {
    && |k| > 0
    && (forall i :: 0 <= i < |k| ==> '0' <= k[i] <= '9')
    && (k[0] == '0' ==> |k| == 1)
  }

  /** The number a string of decimal digits denotes. */
  function DigitsValue(k: string): nat
    requires forall i :: 0 <= i < |k| ==> '0' <= k[i] <= '9'
  {
    if k == [] then 0
    else DigitsValue(k[..|k| - 1]) * 10 + (k[|k| - 1] as int - '0' as int)
  }

  /** `v[k]` when it is not `undefined`: an object's property, an array's
      element or a string's character at a canonical index, or the `length`
      of an array or a string. Properties inherited from a prototype
      (methods such as `toString`) are functions, not values, and are
      absent here. */
  function Member(v: Value, k: string): Option<Value>
  {
    match v
    case Obj(props) => Get(props, k)
    case Arr(items) =>
      if k == "length" then Some(Num(|items| as real))
      else if IsIndex(k) && DigitsValue(k) < |items| then Some(items[DigitsValue(k)])
      else None
    case Str(s) =>
      if k == "length" then Some(Num(|s| as real))
      else if IsIndex(k) && DigitsValue(k) < |s| then Some(Str([s[DigitsValue(k)]]))
      else None
    case _ => None
  }

  /** The property `k` holds a string. */
  predicate HasString(o: map<string, Value>, k: string)
  {
    k in o && o[k].Str?
  }

  /** The optional property `k` is a string, null or absent. */
  predicate MaybeString(o: map<string, Value>, k: string)
  {
    k in o ==> o[k].Str? || o[k].Null?
  }

  /** The text of a property `if (o[k])` accepts, when `MaybeString(o, k)`. */
  function TruthyString(o: map<string, Value>, k: string): Option<string>
  {
    if k in o && o[k].Str? && o[k].s != "" then Some(o[k].s) else None
  }
}
