/** The structured-clone values that travel in worker messages, and the two
    JavaScript object operations the message router uses on them: destructuring
    `{type, data}` and object spread `{...data}`. */
module JsValues {

  import opened Wrappers

  datatype Value =
    | Undefined
    | Null
    | Bool(b: bool)
    | Num(n: real)
    | Str(s: string)
    | Arr(items: seq<Value>)
    | Obj(fields: map<string, Value>)

  /** Decimal text of a natural number: the property key of an array or string index. */
  function IndexKey(n: nat): (k: string)
    ensures |k| > 0
    ensures forall i :: 0 <= i < |k| ==> '0' <= k[i] <= '9'
    decreases n
  {
    var digit := ['0' + (n % 10) as char];
    if n < 10 then digit else IndexKey(n / 10) + digit
  }

  /** Own property `key` of a value that is not null or undefined. Only used with the
      keys "type" and "data", which no primitive, array or string carries. */
  function Property(v: Value, key: string): (r: Value)
    requires !v.Undefined? && !v.Null?
    ensures v.Obj? && key in v.fields ==> r == v.fields[key]
    ensures !(v.Obj? && key in v.fields) ==> r == Undefined
  {
    if v.Obj? && key in v.fields then v.fields[key] else Undefined
  }

  /** `const {type, data} = v`: throws a TypeError (None) when v is null or undefined. */
  function Destructure(v: Value): (r: Option<(Value, Value)>)
    ensures r.None? <==> v.Undefined? || v.Null?
    ensures r.Some? ==> r.value == (Property(v, "type"), Property(v, "data"))
  {
    if v.Undefined? || v.Null? then None else Some((Property(v, "type"), Property(v, "data")))
  }

  /** The index-keyed fields that spreading a sequence of elements contributes. */
  function IndexFields(xs: seq<Value>): (m: map<string, Value>)
    ensures |xs| > 0 ==> IndexKey(|xs| - 1) in m && m[IndexKey(|xs| - 1)] == xs[|xs| - 1]
    ensures forall k :: k in m ==> |k| > 0 && '0' <= k[0] <= '9'
  {
    if |xs| == 0 then map[]
    else IndexFields(xs[..|xs| - 1])[IndexKey(|xs| - 1) := xs[|xs| - 1]]
  }

  /** The own enumerable fields `{...v}` copies: an object's fields, the indices of an
      array or of a string (one character each), and nothing for any other value
      (spreading null or undefined does not throw). */
  function SpreadFields(v: Value): (m: map<string, Value>)
    ensures v.Obj? ==> m == v.fields
    ensures !v.Obj? && !v.Arr? && !v.Str? ==> m == map[]
  {
    match v
    case Obj(fields) => fields
    case Arr(items) => IndexFields(items)
    case Str(s) => IndexFields(seq(|s|, i requires 0 <= i < |s| => Str([s[i]])))
    case _ => map[]
  }

  /** `{ key: value, ...v }`: the spread comes second, so its fields win on a clash. */
  function WithSpread(key: string, value: Value, v: Value): (r: Value)
    ensures r.Obj?
    ensures r.fields.Keys == {key} + SpreadFields(v).Keys
    ensures forall k :: k in SpreadFields(v) ==> r.fields[k] == SpreadFields(v)[k]
    ensures key !in SpreadFields(v) ==> r.fields[key] == value
  {
    Obj(map[key := value] + SpreadFields(v))
  }
}
