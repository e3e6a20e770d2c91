/**
 * The Stratum JSON-RPC wire shapes and the pure case analyses of the codec:
 * decoding a response id, normalising the loosely typed `error` field,
 * building the outgoing request and response envelopes, and planning how a
 * body is decoded.
 */
module StratumWire {
  import opened Wrappers
  import opened JsonValues

  /** Largest value of the engine's `uint64` sequence numbers. */
  const MaxUint64: int := 0xFFFF_FFFF_FFFF_FFFF

  /** Text that replaces an empty error message on an incoming response. */
  const UnspecifiedError: string := "unspecified error"

  /**
   * One JSON object off (or onto) the stream, reduced to the five keys the
   * codec looks at. `None` is an absent key; `Some(Null)` an explicit null.
   * `method` is "" when the key is absent or null (a non-string method is a
   * decoding failure of the stream, see `ReadHeader`).
   */
  datatype Frame = Frame(
    methodName: string,
    params: Option<Json>,
    id: Option<Json>,
    result: Option<Json>,
    error: Option<Json>)

  /** The engine's request header: method name and sequence number (0 = notification). */
  datatype Request = Request(methodName: string, seqNum: nat)

  /** The engine's response header: sequence number and error text ("" = success). */
  datatype Response = Response(seqNum: nat, error: string)

  /** The three inputs the source does not handle and on which it panics. */
  datatype PanicReason =
    | NilResponseId          // a response frame without id: nil dereference
    | ErrorArrayTooShort     // an error array with fewer than two elements: index out of range
    | ErrorMessageNotString  // an error array whose element 1 is not a string: failed type assertion

  /** Why reading a header failed. */
  datatype ReadError =
    | Stream(message: string)   // the decoder's own error, passed on verbatim (for instance "EOF")
    | BadId(raw: Json)          // a response id that does not decode as a uint64
    | InvalidError(value: Json) // an error field that is neither a string nor an array
    | Panic(reason: PanicReason)

  /**
   * What `ReadHeader` reports to the engine: a request header, a response
   * header, a failure after the response id was decoded and written into the
   * engine's response (with its error text still ""), or a failure before.
   */
  datatype Header =
    | RequestHeader(methodName: string, reqSeq: Option<nat>) // seq None: notification, req.Seq is left untouched
    | ResponseHeader(respSeq: nat, text: string)
    | ResponseFailed(respSeq: nat, err: ReadError) // resp.Seq was already set when the error field failed
    | Failed(err: ReadError)

  /** Outcome of normalising an incoming error field. */
  datatype ErrorText = Text(text: string) | Invalid(value: Json) | Crash(reason: PanicReason)

  /** Why writing a response failed. */
  datatype WriteError = InvalidSequence

  /**
   * Decodes a raw response id into a `uint64`, as `json.Unmarshal` into a
   * `uint64` does: only an integer literal in range succeeds. (The codec
   * never passes a null here: `Field` has already turned null into nil.)
   */
  function DecodeSeq(raw: Json): (r: Option<nat>)
    ensures r.Some? <==> raw.Int? && 0 <= raw.i <= MaxUint64
    ensures r.Some? ==> r.value == raw.i
  {
    if raw.Int? && 0 <= raw.i <= MaxUint64 then Some(raw.i) else None
  }

  /** An empty message becomes the fixed placeholder. */
  function NonEmpty(x: string): (r: string)
    ensures r != ""
    ensures x != "" ==> r == x
  {
    if x == "" then UnspecifiedError else x
  }

  /**
   * Normalises the `error` field of an incoming response into the text the
   * engine sees: nothing for no error, a string as it is, the element at
   * index 1 of a Stratum error array `[code, message, data]`, and a failure
   * for any other shape.
   */
  function NormaliseError(e: Option<Json>): (r: ErrorText)
    // no error (absent or null) and only then: empty text
    ensures r == Text("") <==> Field(e) == None
    // a non-empty string is surfaced verbatim, the empty string as the placeholder
    ensures e.Some? && e.value.Str? && e.value.s != "" ==> r == Text(e.value.s)
    ensures e == Some(Str("")) ==> r == Text(UnspecifiedError)
    // an array surfaces its message, element 1
    ensures e.Some? && e.value.Arr? && |e.value.items| >= 2 && e.value.items[1].Str? ==>
              r == Text(NonEmpty(e.value.items[1].s))
    // an array that has no string at index 1 makes the source panic
    ensures r.Crash? <==> e.Some? && e.value.Arr? && (|e.value.items| < 2 || !e.value.items[1].Str?)
    // any other shape is rejected, naming the offending value
    ensures r.Invalid? <==> Field(e).Some? && !e.value.Str? && !e.value.Arr?
    ensures r.Invalid? ==> e == Some(r.value)
  {
    match Field(e)
    case None => Text("")
    case Some(Str(x)) => Text(NonEmpty(x))
    case Some(Arr(a)) =>
      if |a| < 2 then Crash(ErrorArrayTooShort)
      else if a[1].Str? then Text(NonEmpty(a[1].s))
      else Crash(ErrorMessageNotString)
    case Some(v) => Invalid(v)
  }

  /**
   * The parameter handed to `WriteRequest`: a Go `[]interface{}` (already a
   * positional list), a nil `[]interface{}`, or any other value, given by its
   * JSON encoding. A typed slice such as `[]int` is a `ValueParam` whose
   * encoding happens to be an array: the source wraps it all the same.
   */
  datatype Param = ListParam(items: seq<Json>) | NilListParam | ValueParam(v: Json)

  /** The frame `WriteRequest` encodes: `{"method", "params", "id"}`. */
  function WriteRequest(r: Request, param: Param): (f: Frame)
    ensures f.methodName == r.methodName
    // params are a positional list, except for a nil list, which is passed
    // through and encoded as null
    ensures f.params.Some?
    ensures f.params == Some(Null) <==> param.NilListParam?
    ensures !param.NilListParam? ==> f.params.value.Arr?
    // a list parameter passes through unchanged, any other value is wrapped
    ensures param.ListParam? ==> f.params.value.items == param.items
    ensures param.ValueParam? ==> f.params.value.items == [param.v]
    // the id is null exactly for a notification (sequence 0), otherwise the sequence number
    ensures f.id.Some?
    ensures f.id == Some(Null) <==> r.seqNum == 0
    ensures r.seqNum != 0 ==> f.id == Some(Int(r.seqNum))
    ensures f.result == None && f.error == None
  {
    var params := match param
      case ListParam(items) => Arr(items)
      case NilListParam => Null
      case ValueParam(v) => Arr([v]);
    Frame(r.methodName, Some(params), Some(if r.seqNum == 0 then Null else Int(r.seqNum)), None, None)
  }

  /**
   * What `json.Unmarshal` of a text into a `[]interface{}` yields: an error
   * (`NotAList`), a nil slice (the text `null`), or a list of values.
   */
  datatype ListParse = NotAList | NilList | ParsedList(elems: seq<Json>)

  /**
   * The `error` value of an outgoing response whose error text is `text`:
   * the parsed array when the text parses as one, the text itself when it
   * does not. A nil slice is encoded as JSON null.
   */
  function ErrorValue(text: string, decodeList: string -> ListParse): (v: Json)
    ensures decodeList(text).NotAList? ==> v == Str(text)
    ensures decodeList(text).ParsedList? ==> v == Arr(decodeList(text).elems)
    ensures decodeList(text).NilList? ==> v == Null
  {
    match decodeList(text)
    case NotAList => Str(text)
    case NilList => Null
    case ParsedList(a) => Arr(a)
  }

  /** The frame `WriteResponse` encodes: `{"id", "result", "error"}` for the recovered `id`. */
  function ResponseFrame(id: Json, r: Response, x: Json, decodeList: string -> ListParse): (f: Frame)
    // no method: the peer classifies it as a response
    ensures f.methodName == "" && f.params == None
    ensures f.id == Some(id)
    // success carries the result and a null error ...
    ensures r.error == "" ==> f.result == Some(x) && f.error == Some(Null)
    // ... failure a null result and the structured or plain error
    ensures r.error != "" ==> f.result == Some(Null) && f.error == Some(ErrorValue(r.error, decodeList))
  {
    if r.error == "" then Frame("", None, Some(id), Some(x), Some(Null))
    else Frame("", None, Some(id), Some(Null), Some(ErrorValue(r.error, decodeList)))
  }

  /**
   * The dynamic type of the container the engine passes to a body reader:
   * nil, a `*[]interface{}`, or anything else.
   */
  datatype Target = NilTarget | ListTarget | OtherTarget

  /** Where a body is decoded: into the target itself, or into a one-element list holding it. */
  datatype Dest = IntoTarget | IntoSingleton

  /** What a body reader does: nothing, fail for missing params, or decode `raw` into `dest`. */
  datatype BodyRead = Skip | MissingParams | Unmarshal(raw: Json, dest: Dest)
}
