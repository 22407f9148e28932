/** A decoded JSON document, as Go's `encoding/json` hands it to the
    wrapper when unmarshalling into `interface{}`: objects become
    `map[string]interface{}`, arrays `[]interface{}`. Numbers are kept as
    the opaque text of their token; their floating-point value plays no
    part in the wrapper. */
module JsonTree {

  datatype Json =
    | Null
    | Bool(b: bool)
    | Number(token: string)
    | String(s: string)
    | Array(items: seq<Json>)
    | Object(fields: map<string, Json>)
}
