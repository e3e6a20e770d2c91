/**
 * JSON values as the codec sees them once encoding/json has decoded a frame.
 * Byte-level encoding and decoding are not part of this model.
 */
module JsonValues {
  import opened Wrappers

  /**
   * A JSON value. Numbers written as integer literals are `Int`; every other
   * number literal (a fraction or an exponent) is kept as its text in `Float`,
   * because the codec never interprets such numbers.
   */
  datatype Json =
    | Null
    | Bool(b: bool)
    | Int(i: int)
    | Float(literal: string)
    | Str(s: string)
    | Arr(items: seq<Json>)
    | Obj(members: seq<(string, Json)>)

  /**
   * What encoding/json stores in a pointer (`*json.RawMessage`) or
   * `interface{}` field for a key of the frame: an absent key and an explicit
   * `null` both leave the field nil, any other value is kept as it is.
   */
  function Field(v: Option<Json>): (r: Option<Json>)
    ensures r == None <==> v == None || v == Some(Null)
    ensures r.Some? ==> r == v && r.value != Null
  {
    match v
    case Some(Null) => None
    case _ => v
  }
}
