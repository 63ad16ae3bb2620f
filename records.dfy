/**
 * JavaScript values and plain objects as the gateway and the services pass them around.
 * An object is a map from key to value; object spread is map union in which the keys of the
 * right operand win (`{ ...a, ...b }` is `a + b`), and `{ ...a, k: v }` is `a[k := v]`.
 */
module Records {
  import opened Wrappers

  /** The primitive values the model distinguishes; nested objects are not modelled. */
  datatype Value = Undefined | Null | Bool(b: bool) | Num(n: int) | Str(s: string)

  type Record = map<string, Value>

  /** `const { key: _, ...rest } = r`: everything except `key`. */
  function Omit(r: Record, key: string): (rest: Record)
    ensures key !in rest
    ensures forall k :: k in rest <==> k in r && k != key
    ensures forall k :: k in rest ==> rest[k] == r[k]
  {
    r - {key}
  }

  /** The id a message carries under `key`, when it is a number. */
  function NumberAt(r: Record, key: string): (n: Option<int>)
    ensures n.Some? <==> key in r && r[key].Num?
    ensures n.Some? ==> r[key] == Num(n.value)
  {
    if key in r && r[key].Num? then Some(r[key].n) else None
  }

  /** `{ ...r, key: v }`: the literal key wins over whatever `r` carried. */
  function Overriding(r: Record, key: string, v: Value): (o: Record)
    ensures key in o && o[key] == v
    ensures forall k :: k != key ==> (k in o <==> k in r)
    ensures forall k :: k in r && k != key ==> o[k] == r[k]
  {
    r[key := v]
  }

  /** `{ ...a, ...b }`: every key of either, and where both have it, `b`'s value. */
  function Spread(a: Record, b: Record): (o: Record)
    ensures forall k :: k in o <==> k in a || k in b
    ensures forall k :: k in b ==> o[k] == b[k]
    ensures forall k :: k in a && k !in b ==> o[k] == a[k]
  {
    a + b
  }
}
