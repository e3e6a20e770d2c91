/**
 * The Stratum codec's state and its operations: classifying incoming frames
 * (`ReadHeader`), translating wire ids into the engine's sequence numbers and
 * back (`pending`, `seqNum`), answering calls (`WriteResponse`) and the two
 * body readers. Each state-changing method is specified by a pure step
 * function on `CodecState`, which the lemmas in `StratumSessions` reason about.
 */
module StratumCodec {
  import opened Wrappers
  import opened JsonValues
  import opened StratumWire

  /**
   * Scratch space of the last request frame: its method and its params
   * (nil when absent or null). The source's `ID` field of this record is
   * always nil between calls, because `ReadHeader` moves it into `pending`.
   */
  datatype ServerRequest = ServerRequest(methodName: string, params: Option<Json>)

  /** Scratch space of the last response frame: decoded id, result and error. */
  datatype ClientResponse = ClientResponse(id: nat, result: Option<Json>, error: Option<Json>)

  /**
   * Everything the codec keeps between calls. `pending` maps a sequence
   * number handed to the engine to the original wire id of the request;
   * `seqNum` is the last sequence number handed out.
   */
  datatype CodecState = CodecState(
    pending: map<nat, Option<Json>>,
    seqNum: nat,
    serverRequest: ServerRequest,
    clientResponse: ClientResponse)

  /** The state of a freshly created codec. */
  const Initial: CodecState := CodecState(map[], 0, ServerRequest("", None), ClientResponse(0, None, None))

  /**
   * The codec's invariant: every pending sequence number was handed out
   * already (it lies in 1..seqNum), so the next one is never live, and every
   * recorded id is a present, non-null JSON value.
   */
  predicate WellFormed(s: CodecState)
  {
    forall k :: k in s.pending ==> 1 <= k <= s.seqNum && s.pending[k].Some? && s.pending[k].value != Null
  }

  /**
   * `ReadHeader` as a function of the state before and the decoder's outcome
   * for one frame: the state after and what the engine is told.
   */
  function ReadHeaderStep(s: CodecState, input: Result<Frame, string>): (r: (CodecState, Header))
    // the counter and pending change exactly when a sequence number is handed
    // out: it is the next one, and the original id is recorded under it
    ensures r.1.RequestHeader? && r.1.reqSeq.Some? ==>
              input.Success? && r.1.reqSeq.value == s.seqNum + 1 == r.0.seqNum &&
              r.0.pending == s.pending[r.0.seqNum := input.value.id]
    ensures !(r.1.RequestHeader? && r.1.reqSeq.Some?) ==> r.0.seqNum == s.seqNum && r.0.pending == s.pending
    // so the invariant is kept, and a live entry is never overwritten
    ensures WellFormed(s) ==> WellFormed(r.0) && s.seqNum + 1 !in s.pending
  {
    match input
    case Failure(e) => (s, Failed(Stream(e)))
    case Success(f) =>
      if f.methodName != "" then
        // a request for this side
        var sr := ServerRequest(f.methodName, Field(f.params));
        if Field(f.id).None? then
          (s.(serverRequest := sr), RequestHeader(f.methodName, None))
        else
          var k := s.seqNum + 1;
          (s.(pending := s.pending[k := Field(f.id)], seqNum := k, serverRequest := sr),
           RequestHeader(f.methodName, Some(k)))
      else
        // a response to a call this side made
        match Field(f.id)
        case None => (s, Failed(Panic(NilResponseId)))
        case Some(raw) =>
          match DecodeSeq(raw)
          case None => (s, Failed(BadId(raw)))
          case Some(n) =>
            var s' := s.(clientResponse := ClientResponse(n, Field(f.result), Field(f.error)));
            match NormaliseError(Field(f.error))
            case Text(x) => (s', ResponseHeader(n, x))
            case Invalid(v) => (s', ResponseFailed(n, InvalidError(v)))
            case Crash(why) => (s', ResponseFailed(n, Panic(why)))
  }

  /** The id a response carries for the recorded id `b`: JSON null when none was recorded. */
  function ResponseId(b: Option<Json>): (id: Json)
    ensures b.Some? ==> id == b.value
    ensures b.None? ==> id == Null
  {
    match b
    case Some(v) => v
    case None => Null
  }

  /** `WriteResponse` as a function of the state before: the state after and the frame written. */
  function WriteResponseStep(s: CodecState, r: Response, x: Json, decodeList: string -> ListParse)
    : (w: (CodecState, Result<Frame, WriteError>))
    // it succeeds exactly for a live sequence number ...
    ensures w.1.Success? <==> r.seqNum in s.pending
    // ... removing that entry and no other, and answering under its recorded id
    ensures w.1.Success? ==> w.0.pending == s.pending - {r.seqNum} && w.1.value.id == Some(ResponseId(s.pending[r.seqNum]))
    // otherwise it fails and changes nothing
    ensures w.1.Failure? ==> w == (s, Failure(InvalidSequence))
    ensures w.0.seqNum == s.seqNum && w.0.serverRequest == s.serverRequest && w.0.clientResponse == s.clientResponse
    ensures WellFormed(s) ==> WellFormed(w.0)
  {
    if r.seqNum !in s.pending then (s, Failure(InvalidSequence))
    else
      (s.(pending := s.pending - {r.seqNum}),
       Success(ResponseFrame(ResponseId(s.pending[r.seqNum]), r, x, decodeList)))
  }

  /** One codec per connection; the mutex and the stream are not modelled. */
  class Codec {
    var pending: map<nat, Option<Json>>
    var seqNum: nat
    var serverRequest: ServerRequest
    var clientResponse: ClientResponse

    /** The abstract value of this codec. */
    function State(): CodecState
      reads this
    {
      CodecState(pending, seqNum, serverRequest, clientResponse)
    }

    ghost predicate Valid()
      reads this
    {
      WellFormed(State())
    }

    /** `NewStratumCodec`: nothing pending, no sequence number handed out yet. */
    constructor ()
      ensures Valid()
      ensures State() == Initial
      ensures pending == map[] && seqNum == 0
    {
      pending := map[];
      seqNum := 0;
      serverRequest := ServerRequest("", None);
      clientResponse := ClientResponse(0, None, None);
    }

    /** Reads one frame, as the decoder delivered it, and classifies it. */
    method ReadHeader(input: Result<Frame, string>) returns (h: Header)
      requires Valid()
      modifies this
      ensures Valid()
      ensures (State(), h) == ReadHeaderStep(old(State()), input)
      // a decoding failure is passed on verbatim and changes nothing
      ensures input.Failure? ==> h == Failed(Stream(input.error)) && State() == old(State())
      // a request with an id: exactly one fresh sequence number, reported
      // instead of the raw id, with the original id recorded under it
      ensures input.Success? && input.value.methodName != "" && Field(input.value.id).Some? ==>
                seqNum == old(seqNum) + 1 && seqNum !in old(pending) &&
                pending == old(pending)[seqNum := Field(input.value.id)] &&
                h == RequestHeader(input.value.methodName, Some(seqNum))
      // a notification: neither the counter nor pending changes
      ensures input.Success? && input.value.methodName != "" && Field(input.value.id).None? ==>
                seqNum == old(seqNum) && pending == old(pending) &&
                h == RequestHeader(input.value.methodName, None)
      // a response: neither the counter nor pending changes, and a response
      // header carries the decoded numeric id and the normalised error text
      ensures input.Success? && input.value.methodName == "" ==>
                seqNum == old(seqNum) && pending == old(pending)
      ensures h.ResponseHeader? || h.ResponseFailed? ==>
                input.Success? && input.value.methodName == "" && Field(input.value.id).Some? &&
                DecodeSeq(Field(input.value.id).value) == Some(h.respSeq)
      ensures h.ResponseHeader? ==> NormaliseError(input.value.error) == Text(h.text)
    {
      if input.Failure? {
        return Failed(Stream(input.error));
      }
      var msg := input.value;
      if msg.methodName != "" {
        serverRequest := ServerRequest(msg.methodName, Field(msg.params));
        var id := Field(msg.id);
        if id.None? {
          // notification
          h := RequestHeader(msg.methodName, None);
        } else {
          seqNum := seqNum + 1;
          pending := pending[seqNum := id];
          h := RequestHeader(msg.methodName, Some(seqNum));
        }
      } else {
        var raw := Field(msg.id);
        if raw.None? {
          return Failed(Panic(NilResponseId));
        }
        var n := DecodeSeq(raw.value);
        if n.None? {
          return Failed(BadId(raw.value));
        }
        clientResponse := ClientResponse(n.value, Field(msg.result), Field(msg.error));
        match NormaliseError(clientResponse.error)
        case Text(x) => h := ResponseHeader(n.value, x);
        case Invalid(v) => h := ResponseFailed(n.value, InvalidError(v));
        case Crash(why) => h := ResponseFailed(n.value, Panic(why));
      }
    }

    /**
     * Decides how the params of the last request are decoded into `target`:
     * not at all for a nil target, a "missing params" failure when the
     * request had none, else into the target itself when it is a list and
     * into a one-element list holding it otherwise.
     */
    method ReadRequestBody(target: Target) returns (r: BodyRead)
      ensures target.NilTarget? ==> r == Skip
      ensures !target.NilTarget? && serverRequest.params.None? ==> r == MissingParams
      ensures !target.NilTarget? && serverRequest.params.Some? ==>
                r.Unmarshal? && r.raw == serverRequest.params.value &&
                (r.dest == IntoSingleton <==> target.OtherTarget?)
    {
      if target.NilTarget? {
        return Skip;
      }
      if serverRequest.params.None? {
        return MissingParams;
      }
      var dest := if target.ListTarget? then IntoTarget else IntoSingleton;
      r := Unmarshal(serverRequest.params.value, dest);
    }

    /**
     * Decides how the result of the last response is decoded: not at all
     * for a nil target or an absent result (a success either way), else
     * into the target itself.
     */
    method ReadResponseBody(target: Target) returns (r: BodyRead)
      ensures target.NilTarget? || clientResponse.result.None? ==> r == Skip
      ensures !target.NilTarget? && clientResponse.result.Some? ==>
                r == Unmarshal(clientResponse.result.value, IntoTarget)
    {
      if target.NilTarget? {
        return Skip;
      }
      if clientResponse.result.None? {
        return Skip;
      }
      r := Unmarshal(clientResponse.result.value, IntoTarget);
    }

    /**
     * Answers the call with sequence number `r.seqNum`: removes its pending
     * entry and writes the response under the id recorded for it.
     */
    method WriteResponse(r: Response, x: Json, decodeList: string -> ListParse)
      returns (out: Result<Frame, WriteError>)
      requires Valid()
      modifies this
      ensures Valid()
      ensures (State(), out) == WriteResponseStep(old(State()), r, x, decodeList)
      // an unknown or already answered sequence number fails and changes nothing
      ensures r.seqNum !in old(pending) ==> out == Failure(InvalidSequence) && pending == old(pending)
      // a live one is removed, and nothing else
      ensures r.seqNum in old(pending) ==>
                pending == old(pending) - {r.seqNum} &&
                out == Success(ResponseFrame(ResponseId(old(pending)[r.seqNum]), r, x, decodeList))
      // the response carries exactly the id the request arrived with
      ensures r.seqNum in old(pending) ==> Some(out.value.id.value) == old(pending)[r.seqNum]
      ensures seqNum == old(seqNum) && serverRequest == old(serverRequest) &&
              clientResponse == old(clientResponse)
    {
      if r.seqNum !in pending {
        return Failure(InvalidSequence);
      }
      var b := pending[r.seqNum];
      pending := pending - {r.seqNum};
      out := Success(ResponseFrame(ResponseId(b), r, x, decodeList));
    }
  }
}
