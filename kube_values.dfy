/**
 * The untyped configuration the Kubernetes driver of pkg/drivers/kubernetes receives: a
 * `map[string]interface{}` whose values are strings, nested maps or anything else.
 */
module KubeValues {
  import opened Wrappers

  /** An `interface{}` value, as far as the driver's type tests tell them apart. */
  datatype Value =
    | Str(s: string)                    // a `string`
    | Obj(fields: map<string, Value>)   // a `map[string]interface{}`
    | OtherValue                        // a number, a list, a map of another type, ...

  /** `v, ok := m[key].(string)`: the string under `key`, if there is one. */
  function StringField(m: map<string, Value>, key: string): (r: Option<string>)
    ensures r.Some? <==> key in m && m[key].Str?
    ensures r.Some? ==> m[key] == Str(r.value)
  {
    if key in m && m[key].Str? then Some(m[key].s) else None
  }

  /** The string under `key`, or `""` when there is none: the zero value a later check tests. */
  function StringOrEmpty(m: map<string, Value>, key: string): string
  {
    match StringField(m, key)
    case Some(s) => s
    case None => ""
  }
}
