/**
 * Parsed JSON values as the route handlers see them after `response.json()`
 * or `JSON.parse`, with the two pieces of JavaScript semantics the handlers
 * rely on: truthiness and property lookup.
 */
module Json {
  import opened Wrappers

  datatype Value =
    | Null
    | Bool(b: bool)
    | Num(n: real)
    | Str(s: string)
    | Arr(elems: seq<Value>)
    | Obj(fields: map<string, Value>)

  /** JavaScript truthiness of a JSON value: `null`, `false`, `0` and `""` are falsy. */
  predicate Truthy(v: Value) {
    match v
    case Null => false
    case Bool(b) => b
    case Num(n) => n != 0.0
    case Str(s) => s != ""
    case Arr(_) => true
    case Obj(_) => true
  }

  /** The falsy JSON values are exactly `null`, `false`, `0` and `""`. */
  lemma FalsyValues(v: Value)
    ensures !Truthy(v) <==> v == Null || v == Bool(false) || v == Num(0.0) || v == Str("")
  {
  }

  /** Truthiness of a property read that may give `undefined` (None). */
  predicate TruthyProp(o: Option<Value>) {
    o.Some? && Truthy(o.value)
  }

  /**
   * `v[key]` for a JSON value: the own field of an object, and `undefined`
   * for every other value (none of the keys read here is inherited from a
   * prototype).
   */
  function Prop(v: Value, key: string): (r: Option<Value>)
    ensures r.Some? <==> v.Obj? && key in v.fields
    ensures r.Some? ==> r.value == v.fields[key]
  {
    if v.Obj? && key in v.fields then Some(v.fields[key]) else None
  }
}
