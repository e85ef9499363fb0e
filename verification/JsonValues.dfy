/** Decoded JSON, with the Python views of it that the routing service relies on. */
module JsonValues {
  datatype Json =
    | Null
    | Bool(b: bool)
    | Int(i: int)
    | Real(r: real)
    | Str(s: string)
    | Arr(items: seq<Json>)
    | Obj(fields: map<string, Json>)

  type Dict = map<string, Json>

  /** Python truth value. */
  predicate Truthy(v: Json) {
    match v
    case Null => false
    case Bool(b) => b
    case Int(i) => i != 0
    case Real(r) => r != 0.0
    case Str(s) => s != ""
    case Arr(items) => items != []
    case Obj(fields) => fields != map[]
  }

  /** Exactly the empty values and the zeros count as false. */
  lemma FalsyExactly(v: Json)
    ensures !Truthy(v) <==>
      || v == Null || v == Bool(false) || v == Int(0) || v == Real(0.0)
      || v == Str("") || v == Arr([]) || v == Obj(map[])
  {
  }

  /** `d.get(key, default)`. */
  function Get(d: Dict, key: string, default: Json): Json {
    if key in d then d[key] else default
  }

  predicate Says(d: Dict, key: string, v: Json) {
    key in d && d[key] == v
  }

  predicate Affirms(d: Dict, key: string) {
    key in d && Truthy(d[key])
  }

  /** `v == 1` as Python decides it: booleans and floats compare numerically. */
  predicate EqualsOne(v: Json) {
    v == Int(1) || v == Bool(true) || v == Real(1.0)
  }

  /** Whether `type(v) is int` and v is at least `low`. */
  predicate IntFrom(v: Json, low: int) {
    v.Int? && low <= v.i
  }
}
