/**
 * Decoded message payloads.
 *
 * `json.loads` itself is not modelled: a payload arrives already decoded
 * (or not) as an `Option<Json>`. The two Python operations the storage-key
 * derivation applies to a decoded value are modelled here: subscripting
 * with a string (`v[name]`) and `.encode('utf8', 'ignore')`. Either may
 * raise in Python; here a raise is `None`.
 */
module JsonValue {

  datatype Option<T> = None | Some(value: T)

  /** A JSON value as `json.loads` returns it. Numbers are kept as integers:
      only the kind of a number matters to the code modelled here. */
  datatype Json =
    | Null
    | Bool(b: bool)
    | Number(n: int)
    | Str(s: string)
    | Array(items: seq<Json>)
    | Object(fields: map<string, Json>)

  /** `v[name]`: `None` where Python raises, that is KeyError for an object
      without that member and TypeError for every other kind of value. */
  function Member(v: Json, name: string): Option<Json>
  {
    if v.Object? && name in v.fields then Some(v.fields[name]) else None
  }

  /** `v.encode('utf8', 'ignore')`. A decoded string always encodes (errors
      are ignored); every other kind of value has no `encode` and raises
      AttributeError. The byte-level encoding is not modelled: the result
      is the string itself. */
  function Encoded(v: Json): Option<string>
  {
    if v.Str? then Some(v.s) else None
  }
}
