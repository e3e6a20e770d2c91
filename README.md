# Stratum JSON-RPC codec — a Dafny model

This project models the Stratum JSON-RPC codec of the `rpc2` package
(`stratumrpc/stratumrpc.go`) and the per-connection state store
(`state.go`).

The codec sits between a byte stream and the `rpc2` engine. The engine only
knows `uint64` sequence numbers; the wire carries arbitrary JSON ids. For
every incoming request with an id, `ReadHeader` hands the engine a fresh
sequence number and records the original id in the `pending` map;
`WriteResponse` looks that entry up, removes it and answers under the
original id. Notifications (no id, or a null id) get no sequence number.
Incoming responses carry the codec's own numeric id, and their `error`
field, a string or a Stratum array `[code, message, data]`, is normalised
into text. Outgoing calls wrap a non-list parameter into a one-element
positional list and encode sequence 0 as a notification.

Files:

- `wrappers.dfy` — `Option` and `Result`.
- `json.dfy` — module `JsonValues`: decoded JSON values, and `Field`, how
  a pointer or `interface{}` field is filled (absent and `null` both give nil).
- `wire.dfy` — module `StratumWire`: the frame, header and envelope shapes
  and the pure case analyses (response id decoding, error normalisation,
  request and response envelopes).
- `codec.dfy` — module `StratumCodec`: the codec state as a value
  (`CodecState`, its invariant `WellFormed`), the pure steps
  `ReadHeaderStep` and `WriteResponseStep`, and the class `Codec`, whose
  methods update `pending`, `seqNum` and the per-frame scratch records in
  place and are proved equal to those steps.
- `sessions.dfy` — module `StratumSessions`: whole sessions (sequences of
  frames read and responses written) and the properties that span calls,
  and a run of the `add` exchange through two codecs.
- `state.dfy` — module `ConnState`: the generic class `State<V>` over a
  `map<string, V>`.

The engine's `Seq` field and the codec's counter `seq` are called `seqNum`
here, and `Method` is `methodName` (`seq` and `method` are Dafny keywords).
An incoming frame is given as the decoder's outcome,
`Result<Frame, string>`; outgoing envelopes are returned as `Frame` values
instead of being written to the stream. The three inputs on which the
source panics end in a `Panic(...)` failure, with the state as the source
left it when it panicked: a response without id ends in
`Failed(Panic(NilResponseId))`; an error array shorter than two or whose
element 1 is not a string ends in `ResponseFailed(n, Panic(...))`. Every
failure after the response id was decoded is a `ResponseFailed`, which
keeps the `resp.Seq` the source had already written.

## Model

| member | source | states |
|---|---|---|
| `JsonValues.Field` | stratumrpc/stratumrpc.go:59-65 | a decoded pointer or interface field is nil exactly when the key is absent or null, and otherwise holds the value |
| `StratumWire.DecodeSeq` | stratumrpc/stratumrpc.go:120-123 | a response id decodes exactly when it is an integer whose value lies in the `uint64` range, and then to that integer |
| `StratumWire.NonEmpty` | stratumrpc/stratumrpc.go:139-141 | the surfaced error text is never empty; a non-empty message is kept |
| `StratumWire.NormaliseError` | stratumrpc/stratumrpc.go:127-143 | empty text exactly for an absent or null error; a non-empty string verbatim; "" becomes "unspecified error"; an array gives its element 1; a short array or a non-string element 1 is the source's panic; any other shape fails naming the value |
| `StratumWire.WriteRequest` | stratumrpc/stratumrpc.go:178-194 | params are a list: a list parameter unchanged, any other value wrapped as one element; a nil list parameter is passed through as null, and only then are params null; the id is null exactly when the sequence number is 0, else the sequence number |
| `StratumWire.ErrorValue` | stratumrpc/stratumrpc.go:217-224 | the outgoing error is the parsed array when the text parses as one, the text itself when it does not, null for a nil list |
| `StratumWire.ResponseFrame` | stratumrpc/stratumrpc.go:210-224 | the response has no method, the recovered id, and either the result with a null error (empty error text) or a null result with the error value |
| `StratumCodec.ReadHeaderStep` | stratumrpc/stratumrpc.go:91-146 | the counter and pending change exactly when a sequence number is handed out: the next one, with the original id recorded under it; the invariant is kept and no live entry is overwritten |
| `StratumCodec.ResponseId` | stratumrpc/stratumrpc.go:210-213 | the recorded id, or JSON null when none was recorded |
| `StratumCodec.WriteResponseStep` | stratumrpc/stratumrpc.go:198-214 | succeeds exactly for a live sequence number, removing that entry only and answering under its recorded id; otherwise fails and changes nothing; keeps the invariant |
| `StratumCodec.Codec.constructor` | stratumrpc/stratumrpc.go:48-56 | a new codec has an empty pending map and counter 0 |
| `StratumCodec.Codec.ReadHeader` | stratumrpc/stratumrpc.go:91-146 | equals `ReadHeaderStep`; a stream error is passed on and changes nothing; a request with an id increments the counter by one, records the id under the new number and reports that number; a notification or a response leaves counter and pending unchanged; a response header, and a failure on its error field, carry the decoded id, and the header the normalised error |
| `StratumCodec.Codec.ReadRequestBody` | stratumrpc/stratumrpc.go:150-165 | a nil target succeeds without decoding; missing params fail with "missing params"; otherwise the params are decoded into a list target directly and wrapped in a one-element list for any other target |
| `StratumCodec.Codec.ReadResponseBody` | stratumrpc/stratumrpc.go:167-176 | a nil target or an absent result succeeds without decoding; otherwise the result is decoded into the target |
| `StratumCodec.Codec.WriteResponse` | stratumrpc/stratumrpc.go:198-226 | equals `WriteResponseStep`; an unknown or answered sequence number fails with pending unchanged; a live one is removed, all others kept, and the response carries exactly the id the request arrived with |
| `StratumSessions.StepKeepsWellFormed` | stratumrpc/stratumrpc.go:108-117 | one frame or response keeps the invariant and hands out at most one number, the counter's next value |
| `StratumSessions.RunKeepsWellFormed` | stratumrpc/stratumrpc.go:43-45 | every pending key lies in 1..counter and holds a non-null id throughout any session |
| `StratumSessions.IssuedFreshAndIncreasing` | stratumrpc/stratumrpc.go:111-115 | the sequence numbers a session hands out are strictly increasing, above every earlier one and at most the final counter |
| `StratumSessions.NeverPendingAgain` | stratumrpc/stratumrpc.go:201-207 | a handed-out number that is no longer pending never becomes pending again |
| `StratumSessions.PendingSurvives` | stratumrpc/stratumrpc.go:111-115 | a pending entry keeps its id through every session that does not answer it |
| `StratumSessions.RoundTrip` | stratumrpc/stratumrpc.go:202-214 | a request read with an id and answered after any unrelated session is answered under exactly that id, and its entry is gone |
| `StratumSessions.AnsweredAtMostOnce` | stratumrpc/stratumrpc.go:201-207 | after a successful answer, answering the same number again fails, whatever happens in between |
| `StratumSessions.UnissuedAnswerFails` | stratumrpc/stratumrpc.go:202-206 | answering 0 or a number above the counter fails and changes nothing |
| `StratumSessions.CallRoundTrip` | stratumrpc/stratumrpc.go:178-226 | a call written by one codec is read by another as a request with a fresh number, with its list params (a list parameter as it is, a value wrapped) or, for a nil list parameter, no params; its successful answer restores the server's pending map and is read by the caller under the caller's own sequence number with no error and the result |
| `StratumSessions.NotificationRoundTrip` | stratumrpc/stratumrpc.go:186-192 | a call with sequence 0 reaches the peer as a notification and leaves the peer's counter and pending map unchanged |
| `StratumSessions.ErrorRoundTrip` | stratumrpc/stratumrpc.go:215-224 | an error text that is not a JSON list reaches the peer verbatim; a Stratum error array reaches it as its message |
| `StratumSessions.NullErrorTextIsLost` | stratumrpc/stratumrpc.go:218-220 | the error text `null` parses as a nil list, goes out as a null error, and the peer reads a success |
| `StratumSessions.NilParamsScenario` | stratumrpc/stratumrpc.go:150-156 | a call with a nil list parameter reaches the peer with null params, and the peer's body reader reports missing params for any non-nil target |
| `StratumSessions.AddCallScenario` | stratumrpc/stratumrpc.go:108-128 | the `add` call with id 7 gets sequence 1, its params go straight into a list target, the answer carries id 7 and result 3, a second answer fails, and the caller reads it under 7 |
| `ConnState.State.constructor` | state.go:16-18 | a new store is empty, so every lookup misses |
| `ConnState.State.Get` | state.go:23-28 | `ok` exactly when the key is bound, and then the bound value; nil otherwise; the store is not modified |
| `ConnState.State.Set` | state.go:33-37 | the key is bound to the value, overwriting any earlier binding, and every other key keeps its binding |
| `ConnState.SetThenGet` | state.go:23-37 | after two `Set`s of one key, `Get` returns the second value with `ok` |

## Left out

- Byte-level JSON: `json.Decoder.Decode`, `json.Encoder.Encode` and `json.Unmarshal` belong to `encoding/json`, which is not part of this model. Frames are given already decoded and envelopes are returned as values; a write error of the encoder is not modelled.
- Parsing an error text as a JSON list (`WriteResponse`) is a function parameter `decodeList` standing for `json.Unmarshal` into `[]interface{}`.
- The body readers decide what is decoded into what (`BodyRead`); the decoding itself and how values reach the engine through `interface{}` pointers are not modelled.
- The mutexes of the codec and of `State`: the model is single-threaded and each locked section is one atomic step.
- `Close`, which only delegates to the connection, the `io.ReadWriteCloser` stream and the `rpc2` engine.
- The `msg` scratch field: it is reset and filled within `ReadHeader` and never read across calls.
- `StratumCodec.Codec.ReadHeader`: the counter is an unbounded `nat`; the source's `uint64` wrap-around after 2^64 - 1 requests is not modelled.
- `StratumWire.DecodeSeq`: integer literals are kept by value, not by text, so the literal `-0`, which Go's `uint64` decoding rejects, is indistinguishable from `0` and decodes to 0; for the same reason a request id written `-0` is answered as `0`, so `RoundTrip`'s "exactly that id" holds up to the spelling of integer literals.
- `StratumWire.DecodeSeq`: decoding a JSON `null` into a `uint64` leaves the previous value in place in Go; the codec never reaches that case (a null id is nil and panics first), and the model maps `null` to a failure.
