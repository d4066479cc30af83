/** JSON values as `JSON.parse` delivers them, and JavaScript's own reading of them. */
module Json {
  import opened Wrappers

  // A literal such as 1e999 parses to Infinity.
  datatype Number = Finite(magnitude: real) | NonFinite

  datatype Value =
    | Null
    | Bool(flag: bool)
    | Num(num: Number)
    | Str(text: string)
    | Arr(items: seq<Value>)
    | Obj(fields: map<string, Value>)

  const MAX_SAFE_INTEGER := 9007199254740991

  /** Property access on a non-null value; `None` is `undefined`. */
  function Get(v: Value, name: string): Option<Value> {
    if v.Obj? && name in v.fields then Some(v.fields[name]) else None
  }

  predicate IsText(v: Option<Value>) {
    v.Some? && v.value.Str?
  }

  predicate IsNonEmptyText(v: Option<Value>) {
    IsText(v) && v.value.text != ""
  }

  /** Strict equality with a string constant. */
  predicate IsExactly(v: Option<Value>, s: string) {
    v == Some(Str(s))
  }

  predicate IsBool(v: Option<Value>) {
    v.Some? && v.value.Bool?
  }

  /** `Number.isFinite` */
  predicate IsFinite(v: Option<Value>) {
    v.Some? && v.value.Num? && v.value.num.Finite?
  }

  /** `Number.isSafeInteger` */
  predicate IsSafeInteger(v: Option<Value>) {
    && IsFinite(v)
    && var r := v.value.num.magnitude;
    && r == r.Floor as real
    && -MAX_SAFE_INTEGER <= r.Floor <= MAX_SAFE_INTEGER
  }

  function AsInt(v: Option<Value>): int
    requires IsSafeInteger(v)
  {
    v.value.num.magnitude.Floor
  }

  function IntValue(i: int): Value {
    Num(Finite(i as real))
  }

  /** `value === null || value === undefined` */
  predicate IsNullish(v: Option<Value>) {
    v.None? || v.value.Null?
  }
}
