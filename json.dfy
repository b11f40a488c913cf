/**
 * The JSON documents the translator exchanges (nlohmann::json in the source).
 * Parsing and dump() belong to the library and are not modelled: a parser is a
 * function parameter `string -> Option<Json>` whose None stands for a discarded
 * (unparsable) document.
 */
module JsonValues {
  import opened Wrappers

  datatype Json =
    | JNull
    | JBool(b: bool)
    | JInt(i: int)
    | JFloat(r: real)
    | JString(s: string)
    | JArray(items: seq<Json>)
    | JObject(fields: map<string, Json>)

  /** The non-throwing `json::parse(text, nullptr, false)`; None is `is_discarded()`. */
  type Parser = string -> Option<Json>

  /** nlohmann's `contains(key)`: false for anything that is not an object. */
  predicate Contains(j: Json, key: string) {
    j.JObject? && key in j.fields
  }

  /** `j[key]` on a key that is known to be present. */
  function Get(j: Json, key: string): Json
    requires Contains(j, key)
  {
    j.fields[key]
  }

  /** `j.value(key, default)` for a boolean: the stored boolean when present. */
  function BoolValue(m: map<string, Json>, key: string, default: bool): bool
    requires key in m ==> m[key].JBool?
  {
    if key in m then m[key].b else default
  }
}
