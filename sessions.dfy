/**
 * Properties of the codec over a whole connection: a session is a sequence
 * of frames read and responses written. The lemmas show that the invariant
 * holds throughout, that the sequence numbers handed to the engine are fresh
 * and strictly increasing, that each call is answered at most once, that
 * the answer carries the original wire id, and how a call and its answer
 * travel between two codecs.
 */
module StratumSessions {
  import opened Wrappers
  import opened JsonValues
  import opened StratumWire
  import opened StratumCodec

  /** One thing that happens on a connection: a frame is read, or a response is written. */
  datatype Event = Receive(input: Result<Frame, string>) | Reply(r: Response, x: Json)

  /** The state after one event. */
  function Step(s: CodecState, e: Event, decodeList: string -> ListParse): (t: CodecState)
  {
    match e
    case Receive(input) => ReadHeaderStep(s, input).0
    case Reply(r, x) => WriteResponseStep(s, r, x, decodeList).0
  }

  /** The sequence numbers one event hands to the engine (at most one). */
  function Handed(s: CodecState, e: Event): (ks: seq<nat>)
  {
    if e.Receive? && ReadHeaderStep(s, e.input).1.RequestHeader? && ReadHeaderStep(s, e.input).1.reqSeq.Some?
    then [ReadHeaderStep(s, e.input).1.reqSeq.value]
    else []
  }

  /** The state after a session. */
  function Run(s: CodecState, evs: seq<Event>, decodeList: string -> ListParse): (t: CodecState)
    decreases |evs|
  {
    if evs == [] then s else Run(Step(s, evs[0], decodeList), evs[1..], decodeList)
  }

  /** The sequence numbers a session hands to the engine, in order. */
  function Issued(s: CodecState, evs: seq<Event>, decodeList: string -> ListParse): (ks: seq<nat>)
    decreases |evs|
  {
    if evs == [] then []
    else Handed(s, evs[0]) + Issued(Step(s, evs[0], decodeList), evs[1..], decodeList)
  }

  /** Whether an event writes the response for sequence number `k`. */
  predicate Answers(e: Event, k: nat)
  {
    e.Reply? && e.r.seqNum == k
  }

  /** One event keeps the invariant, never lowers the counter, and hands out only the next number. */
  lemma StepKeepsWellFormed(s: CodecState, e: Event, decodeList: string -> ListParse)
    requires WellFormed(s)
    ensures WellFormed(Step(s, e, decodeList))
    ensures s.seqNum <= Step(s, e, decodeList).seqNum
    ensures Handed(s, e) == [] ==> Step(s, e, decodeList).seqNum == s.seqNum
    ensures Handed(s, e) != [] ==> Handed(s, e) == [s.seqNum + 1] && Step(s, e, decodeList).seqNum == s.seqNum + 1
  {
  }

  /** The invariant holds after every session that starts from a state satisfying it. */
  lemma {:induction false} RunKeepsWellFormed(s: CodecState, evs: seq<Event>, decodeList: string -> ListParse)
    requires WellFormed(s)
    ensures WellFormed(Run(s, evs, decodeList))
    ensures s.seqNum <= Run(s, evs, decodeList).seqNum
    decreases |evs|
  {
    if evs != [] {
      StepKeepsWellFormed(s, evs[0], decodeList);
      RunKeepsWellFormed(Step(s, evs[0], decodeList), evs[1..], decodeList);
    }
  }

  /**
   * The sequence numbers handed out during a session are strictly
   * increasing, hence distinct, all larger than any number handed out
   * before it, and at most the final counter.
   */
  lemma {:induction false} IssuedFreshAndIncreasing(s: CodecState, evs: seq<Event>, decodeList: string -> ListParse)
    requires WellFormed(s)
    ensures forall i :: 0 <= i < |Issued(s, evs, decodeList)| ==>
              s.seqNum < Issued(s, evs, decodeList)[i] <= Run(s, evs, decodeList).seqNum
    ensures forall i, j :: 0 <= i < j < |Issued(s, evs, decodeList)| ==>
              Issued(s, evs, decodeList)[i] < Issued(s, evs, decodeList)[j]
    decreases |evs|
  {
    if evs != [] {
      var s1 := Step(s, evs[0], decodeList);
      StepKeepsWellFormed(s, evs[0], decodeList);
      IssuedFreshAndIncreasing(s1, evs[1..], decodeList);
      RunKeepsWellFormed(s1, evs[1..], decodeList);
      assert Issued(s, evs, decodeList) == Handed(s, evs[0]) + Issued(s1, evs[1..], decodeList);
    }
  }

  /**
   * A sequence number that was handed out and is no longer pending never
   * becomes pending again, whatever happens later.
   */
  lemma {:induction false} NeverPendingAgain(s: CodecState, evs: seq<Event>, k: nat, decodeList: string -> ListParse)
    requires k <= s.seqNum && k !in s.pending
    ensures k !in Run(s, evs, decodeList).pending
    decreases |evs|
  {
    if evs != [] {
      var s1 := Step(s, evs[0], decodeList);
      assert k <= s1.seqNum && k !in s1.pending;
      NeverPendingAgain(s1, evs[1..], k, decodeList);
    }
  }

  /**
   * A pending entry survives, with the same id, every session that does not
   * answer it: a new request never overwrites a live entry.
   */
  lemma {:induction false} PendingSurvives(s: CodecState, evs: seq<Event>, k: nat, decodeList: string -> ListParse)
    requires WellFormed(s) && k in s.pending
    requires forall i :: 0 <= i < |evs| ==> !Answers(evs[i], k)
    ensures k in Run(s, evs, decodeList).pending
    ensures Run(s, evs, decodeList).pending[k] == s.pending[k]
    decreases |evs|
  {
    if evs != [] {
      var s1 := Step(s, evs[0], decodeList);
      assert !Answers(evs[0], k);
      StepKeepsWellFormed(s, evs[0], decodeList);
      assert k in s1.pending && s1.pending[k] == s.pending[k];
      PendingSurvives(s1, evs[1..], k, decodeList);
    }
  }

  /**
   * Read a request with an id, let any session that does not answer it go
   * by, then answer it: the response carries exactly the id the request
   * arrived with, and the entry is gone afterwards.
   */
  lemma RoundTrip(s: CodecState, f: Frame, evs: seq<Event>, r: Response, x: Json, decodeList: string -> ListParse)
    requires WellFormed(s)
    requires f.methodName != "" && Field(f.id).Some?
    requires r.seqNum == s.seqNum + 1
    requires forall i :: 0 <= i < |evs| ==> !Answers(evs[i], r.seqNum)
    ensures ReadHeaderStep(s, Success(f)).1 == RequestHeader(f.methodName, Some(r.seqNum))
    ensures WriteResponseStep(Run(ReadHeaderStep(s, Success(f)).0, evs, decodeList), r, x, decodeList).1
              == Success(ResponseFrame(f.id.value, r, x, decodeList))
    ensures r.seqNum !in WriteResponseStep(Run(ReadHeaderStep(s, Success(f)).0, evs, decodeList), r, x, decodeList).0.pending
  {
    var s1 := ReadHeaderStep(s, Success(f)).0;
    StepKeepsWellFormed(s, Receive(Success(f)), decodeList);
    PendingSurvives(s1, evs, r.seqNum, decodeList);
  }

  /**
   * Once a call has been answered, answering it again fails, however many
   * frames and responses come in between.
   */
  lemma AnsweredAtMostOnce(s: CodecState, r: Response, x: Json, later: seq<Event>, r': Response, x': Json,
                           decodeList: string -> ListParse)
    requires WellFormed(s)
    requires WriteResponseStep(s, r, x, decodeList).1.Success?
    requires r'.seqNum == r.seqNum
    ensures WriteResponseStep(Run(WriteResponseStep(s, r, x, decodeList).0, later, decodeList), r', x', decodeList).1
              == Failure(InvalidSequence)
  {
    NeverPendingAgain(WriteResponseStep(s, r, x, decodeList).0, later, r.seqNum, decodeList);
  }

  /** A response for a sequence number this codec never handed out fails. */
  lemma UnissuedAnswerFails(s: CodecState, r: Response, x: Json, decodeList: string -> ListParse)
    requires WellFormed(s)
    requires r.seqNum == 0 || r.seqNum > s.seqNum
    ensures WriteResponseStep(s, r, x, decodeList) == (s, Failure(InvalidSequence))
  {
  }

  /**
   * A call and its successful answer between two codecs: the server sees the
   * method and a fresh sequence number, keeps the params as a positional list
   * (or as nil for a nil list parameter, so that its body reader reports
   * missing params), and once it answers its pending map is as before; the
   * client reads a response with its own sequence number, no error, and the
   * result.
   */
  lemma CallRoundTrip(client: CodecState, server: CodecState, r: Request, param: Param, result: Json,
                      decodeList: string -> ListParse)
    requires WellFormed(server)
    requires r.methodName != "" && 0 < r.seqNum <= MaxUint64
    ensures var (server1, h) := ReadHeaderStep(server, Success(WriteRequest(r, param)));
            h == RequestHeader(r.methodName, Some(server.seqNum + 1)) &&
            (param.ListParam? ==> server1.serverRequest.params == Some(Arr(param.items))) &&
            (param.ValueParam? ==> server1.serverRequest.params == Some(Arr([param.v]))) &&
            (param.NilListParam? ==> server1.serverRequest.params == None)
    ensures var server1 := ReadHeaderStep(server, Success(WriteRequest(r, param))).0;
            var (server2, out) := WriteResponseStep(server1, Response(server.seqNum + 1, ""), result, decodeList);
            out.Success? && server2.pending == server.pending &&
            ReadHeaderStep(client, Success(out.value)).1 == ResponseHeader(r.seqNum, "") &&
            ReadHeaderStep(client, Success(out.value)).0.clientResponse.result == Field(Some(result))
  {
  }

  /**
   * A notification (sequence 0) reaches the peer as a request without a
   * sequence number and leaves the peer's counter and pending map alone.
   */
  lemma NotificationRoundTrip(server: CodecState, r: Request, param: Param)
    requires r.methodName != "" && r.seqNum == 0
    ensures ReadHeaderStep(server, Success(WriteRequest(r, param))).1 == RequestHeader(r.methodName, None)
    ensures ReadHeaderStep(server, Success(WriteRequest(r, param))).0.pending == server.pending
    ensures ReadHeaderStep(server, Success(WriteRequest(r, param))).0.seqNum == server.seqNum
  {
  }

  /**
   * An error response read back by a peer codec: a text that is not a JSON
   * list arrives verbatim, a Stratum error array arrives as its message.
   */
  lemma ErrorRoundTrip(client: CodecState, id: Json, r: Response, x: Json, decodeList: string -> ListParse)
    requires r.error != "" && DecodeSeq(id).Some?
    ensures decodeList(r.error).NotAList? ==>
              ReadHeaderStep(client, Success(ResponseFrame(id, r, x, decodeList))).1
                == ResponseHeader(DecodeSeq(id).value, r.error)
    ensures decodeList(r.error).ParsedList? && |decodeList(r.error).elems| >= 2 && decodeList(r.error).elems[1].Str? ==>
              ReadHeaderStep(client, Success(ResponseFrame(id, r, x, decodeList))).1
                == ResponseHeader(DecodeSeq(id).value, NonEmpty(decodeList(r.error).elems[1].s))
  {
  }

  /**
   * The error text `null` parses as a nil list and goes out as a null error
   * with a null result, so the peer sees a success: this error is lost.
   */
  lemma NullErrorTextIsLost(client: CodecState, id: Json, x: Json, decodeList: string -> ListParse)
    requires decodeList("null") == NilList && DecodeSeq(id).Some?
    ensures ResponseFrame(id, Response(DecodeSeq(id).value, "null"), x, decodeList).error == Some(Null)
    ensures ReadHeaderStep(client, Success(ResponseFrame(id, Response(DecodeSeq(id).value, "null"), x, decodeList))).1
              == ResponseHeader(DecodeSeq(id).value, "")
  {
  }

  /**
   * The exchange `{"method":"add","params":[1,2],"id":7}` answered with the
   * result 3, run through two codecs: the server hands out sequence number 1,
   * decodes the params directly into a list target, answers under id 7 and
   * refuses a second answer; the client reads the answer back under 7.
   */
  method AddCallScenario() returns (reply: Frame, header: Header)
    ensures reply == Frame("", None, Some(Int(7)), Some(Int(3)), Some(Null))
    ensures header == ResponseHeader(7, "")
  {
    var server := new Codec();
    var h := server.ReadHeader(Success(Frame("add", Some(Arr([Int(1), Int(2)])), Some(Int(7)), None, None)));
    assert h == RequestHeader("add", Some(1));
    var body := server.ReadRequestBody(ListTarget);
    assert body == Unmarshal(Arr([Int(1), Int(2)]), IntoTarget);
    var out := server.WriteResponse(Response(1, ""), Int(3), _ => NotAList);
    reply := out.value;
    var again := server.WriteResponse(Response(1, ""), Int(3), _ => NotAList);
    assert again == Failure(InvalidSequence);
    var client := new Codec();
    header := client.ReadHeader(Success(reply));
  }

  /**
   * A call whose parameter is a nil list reaches the peer with null params,
   * and the peer's body reader then reports missing params for any non-nil
   * target.
   */
  method NilParamsScenario(target: Target) returns (body: BodyRead)
    requires !target.NilTarget?
    ensures body == MissingParams
  {
    var server := new Codec();
    var h := server.ReadHeader(Success(WriteRequest(Request("mining.subscribe", 1), NilListParam)));
    body := server.ReadRequestBody(target);
  }
}
