/** The slice of the JavaScript runtime that the adapter relies on: its values,
    the `typeof` operator, truthiness, `Object.entries`, and the built-ins
    (JSON.parse, JSON.stringify, String) whose internals are not modelled. */
module JsRuntime {

  datatype Option<+T> = None | Some(value: T)

  /** A JavaScript runtime value. Numbers are kept as reals: NaN and the
      infinities are not represented. `Obj` lists its own enumerable
      properties in the order `Object.entries` reports them. */
  datatype Value =
    | Undefined
    | Null
    | Bool(b: bool)
    | Num(x: real)
    | BigInt(n: int)
    | Str(s: string)
    | Sym(description: string)
    | Func
    | Arr(items: seq<Value>)
    | Obj(entries: seq<(string, Value)>)

  /** The `typeof` operator: arrays and `null` are reported as "object". */
  function TypeOf(v: Value): (tag: string)
    ensures tag in {"undefined", "object", "boolean", "number", "bigint", "string", "symbol", "function"}
    ensures tag == "object" <==> v.Null? || v.Arr? || v.Obj?
  {
    match v
    case Undefined => "undefined"
    case Null => "object"
    case Bool(_) => "boolean"
    case Num(_) => "number"
    case BigInt(_) => "bigint"
    case Str(_) => "string"
    case Sym(_) => "symbol"
    case Func => "function"
    case Arr(_) => "object"
    case Obj(_) => "object"
  }

  /** JavaScript truthiness (the ToBoolean conversion). */
  function Truthy(v: Value): (b: bool)
    ensures !b <==> v == Undefined || v == Null || v == Bool(false) || v == Num(0.0) || v == BigInt(0) || v == Str("")
  {
    match v
    case Undefined => false
    case Null => false
    case Bool(b) => b
    case Num(x) => x != 0.0
    case BigInt(n) => n != 0
    case Str(s) => s != ""
    case _ => true
  }

  /** The decimal text of a natural number, as used for array indices. */
  function DecimalString(n: nat): (s: string)
    ensures |s| >= 1
    ensures forall i :: 0 <= i < |s| ==> '0' <= s[i] <= '9'
    ensures DecimalValue(s) == n
    ensures s[0] == '0' ==> s == "0"
  {
    var digit := (48 + n % 10) as char;
    if n < 10 then [digit] else DecimalString(n / 10) + [digit]
  }

  /** The number a string of decimal digits denotes. */
  function DecimalValue(s: string): nat
  {
    if s == [] then 0
    else
      var d := s[|s| - 1] as int - 48;
      DecimalValue(s[..|s| - 1]) * 10 + (if 0 <= d <= 9 then d else 0)
  }

  /** Different indices have different keys. */
  lemma DecimalStringInjective(n: nat, m: nat)
    requires DecimalString(n) == DecimalString(m)
    ensures n == m
  {
    assert DecimalValue(DecimalString(n)) == n;
  }

  /** `Object.entries(v)`; `None` stands for the TypeError thrown on
      `null` and `undefined`. Arrays and strings enumerate their indices;
      other primitives have no own enumerable properties. */
  function Entries(v: Value): (r: Option<seq<(string, Value)>>)
    ensures r.None? <==> v.Undefined? || v.Null?
    ensures v.Obj? ==> r == Some(v.entries)
    ensures v.Arr? ==> r.Some? && |r.value| == |v.items|
    ensures v.Arr? ==> forall i :: 0 <= i < |v.items| ==> r.value[i] == (DecimalString(i), v.items[i])
    ensures v.Str? ==> r.Some? && |r.value| == |v.s|
    ensures v.Str? ==> forall i :: 0 <= i < |v.s| ==> r.value[i] == (DecimalString(i), Str([v.s[i]]))
    ensures v.Bool? || v.Num? || v.BigInt? ==> r == Some([])
  {
    match v
    case Undefined => None
    case Null => None
    case Obj(es) => Some(es)
    case Arr(xs) => Some(seq(|xs|, i requires 0 <= i < |xs| => (DecimalString(i), xs[i])))
    case Str(s) => Some(seq(|s|, i requires 0 <= i < |s| => (DecimalString(i), Str([s[i]]))))
    case _ => Some([])
  }

  /** The built-ins whose internals belong to the JavaScript engine:
      `parse` is JSON.parse (`None` when it throws), `stringify` is
      JSON.stringify, `text` is String(value). */
  datatype Builtins = Builtins(
    parse: string -> Option<Value>,
    stringify: Value -> string,
    text: Value -> string)
}
