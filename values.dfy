/** Shared value types: optional values, results with an error message, and
    the dynamically shaped records (JavaScript objects) kept by the stores. */
module Values {

  datatype Option<T> = None | Some(value: T)

  /** An operation that either yields a value or fails with the message the
      source throws (`new Error(msg)`). */
  datatype Result<T> = Ok(value: T) | Err(msg: string)

  /** A field value of a record. `Undefined` stands for a missing field. */
  datatype Value = Undefined | Null | Bool(b: bool) | Num(n: int) | Str(s: string)

  /** A record is a JavaScript object: field names mapped to values. */
  type Record = map<string, Value>

  /** Reads a field; an absent field reads as `undefined`. */
  function Get(r: Record, key: string): (v: Value)
    ensures key !in r ==> v == Undefined
    ensures key in r ==> v == r[key]
  {
    if key in r then r[key] else Undefined
  }

  /** Object spread `{ ...base, ...over }`: every field of `over` wins,
      the other fields of `base` are kept. */
  function Spread(base: Record, over: Record): (r: Record)
    ensures r.Keys == base.Keys + over.Keys
    ensures forall k :: k in over ==> Get(r, k) == over[k]
    ensures forall k :: k !in over ==> Get(r, k) == Get(base, k)
  {
    base + over
  }
}
