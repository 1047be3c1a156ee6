/**
 * JSON values as the CMS stores them in `content`, `meta`, `value` and block
 * property bags, with the JavaScript operators the source applies to them:
 * truthiness, `||` defaulting, object spread and `Number(...)`.
 * Numbers are integers; NaN is represented by the absence of a number.
 */
module Json {
  import opened Wrappers
  import Strings

  datatype Value =
    | Null
    | Bool(b: bool)
    | Num(n: int)
    | Str(s: string)
    | Arr(items: seq<Value>)
    | Obj(fields: map<string, Value>)

  /** A JavaScript object with JSON-valued properties. */
  type Props = map<string, Value>

  /** JavaScript truthiness of a defined value. */
  predicate Truthy(v: Value)
  {
    match v
    case Null => false
    case Bool(b) => b
    case Num(n) => n != 0
    case Str(s) => s != ""
    case Arr(_) => true
    case Obj(_) => true
  }

  /** Truthiness of a property that may be undefined. */
  predicate Present(o: Option<Value>)
  {
    o.Some? && Truthy(o.value)
  }

  /** `p[k]`, with `None` for undefined. */
  function Get(p: Props, k: string): Option<Value>
  {
    if k in p then Some(p[k]) else None
  }

  /** `o || d` */
  function Or(o: Option<Value>, d: Value): Value
  {
    if Present(o) then o.value else d
  }

  /** Object spread `{ ...base, ...over }`: every key of either, `over` winning. */
  function Spread(base: Props, over: Props): (r: Props)
    ensures r.Keys == base.Keys + over.Keys
    ensures forall k :: k in over ==> r[k] == over[k]
    ensures forall k :: k in base && k !in over ==> r[k] == base[k]
  {
    base + over
  }

  /** The properties an object spread `...v` contributes: an object's fields, nothing otherwise. */
  function SpreadOf(v: Value): Props
  {
    if v.Obj? then v.fields else map[]
  }

  /**
   * `Number(v)` for a property that may be undefined; `None` stands for NaN.
   * Strings are read as unsigned decimal integers after trimming whitespace.
   */
  function ToNumber(o: Option<Value>): (r: Option<int>)
    ensures o == Some(Null) ==> r == Some(0)
    ensures o.None? ==> r.None?
    ensures o.Some? && o.value.Num? ==> r == Some(o.value.n)
  {
    match o
    case None => None
    case Some(Null) => Some(0)
    case Some(Bool(b)) => Some(if b then 1 else 0)
    case Some(Num(n)) => Some(n)
    case Some(Str(s)) =>
      var t := Strings.Trim(s);
      if Strings.AllDigits(t) then Some(Strings.DigitsValue(t)) else None
    case Some(Arr(_)) => None
    case Some(Obj(_)) => None
  }
}
