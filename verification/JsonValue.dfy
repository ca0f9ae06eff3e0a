/** Parsed JSON values, as the gateways read them. */
module JsonValue {
  import opened Basics

  datatype Json =
    | Null | Bool(b: bool) | Number(text: string) | Str(s: string) | Arr(items: seq<Json>)
    | Obj(fields: map<string, Json>)

  function Get(v: Json, name: string): Option<Json> {
    if v.Obj? && name in v.fields then Some(v.fields[name]) else None
  }

  /** Indexing yields null where there is nothing. */
  function At(v: Json, name: string): Json { if v.Obj? && name in v.fields then v.fields[name] else Null }

  function Text(v: Json): Option<string> { if v.Str? then Some(v.s) else None }
}
