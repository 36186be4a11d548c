/**
 * JSON values as encoding/json sees them. A number keeps its literal text, because
 * whether it decodes into a Go integer depends on that text. The byte syntax of JSON
 * is not modelled: where bytes are needed, a parse/serialize pair is a parameter.
 */
module Json {
  import opened Wrappers

  datatype Json =
    | JNull
    | JBool(b: bool)
    | JNumber(literal: string)
    | JStr(s: string)
    | JArr(items: seq<Json>)
    | JObj(fields: map<string, Json>)

  /** A parse/serialize pair in which parsing recovers every serialized value. */
  ghost predicate IsCodec(parse: string -> Option<Json>, serialize: Json -> string)
  {
    forall j :: parse(serialize(j)) == Some(j)
  }

  /** encoding/json's rule for a string field of a struct: a missing or null member
      leaves "", a string is itself, and any other value is a type error (None). */
  function StringField(fields: map<string, Json>, key: string): (r: Option<string>)
    ensures key !in fields ==> r == Some("")
    ensures key in fields && fields[key].JStr? ==> r == Some(fields[key].s)
    ensures r.None? <==> key in fields && !fields[key].JNull? && !fields[key].JStr?
  {
    if key !in fields || fields[key].JNull? then Some("")
    else if fields[key].JStr? then Some(fields[key].s)
    else None
  }

  /** The empty JSON object `{}`. */
  const EmptyObject := JObj(map[])
}
