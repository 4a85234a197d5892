/** Every request is answered, and how: the responses to a complete request, told from its bytes. */
module ExtProcAnswers {
  import opened Chunker
  import opened ExtProc
  import opened ExtProcBytes
  import opened ExtProcBuffer
  import opened ExtProcLength
  import opened Options

  // ---- One message

  /** The answer to an error: an immediate response with the status of its kind, or none. */
  function ErrorAnswer(code: ErrorCode): seq<Resp> {
    match code
    case ResourceExhausted => [Immediate(429)]
    case Internal => [Immediate(500)]
    case BadRequest => [Immediate(400)]
    case BadConfiguration => [Immediate(404)]
    case Unknown => []
  }

  /** A message is refused: the stream ends, and if a send succeeds the sender hears why. */
  ghost predicate Refuses(k: Codec, c: Ctx, m: Msg, ok: nat, code: ErrorCode) {
    var o := Step(k, c, m, ok);
    o.Closed? && o.sent == if ok >= 1 then ErrorAnswer(code) else []
  }

  lemma MalformedIsRefused(k: Codec, c: Ctx, bytes: Bytes, answer: Answer, ok: nat)
    requires k.decode(c.requestJson, c.body + bytes) == None
    ensures Refuses(k, c, RequestBody(bytes, true, answer), ok, BadRequest)
  {}

  lemma RefusalIsAnswered(k: Codec, c: Ctx, bytes: Bytes, model: string, code: ErrorCode, ok: nat)
    requires k.decode(c.requestJson, c.body + bytes).Some?
    ensures Refuses(k, c, RequestBody(bytes, true, Refused(model, code)), ok, code)
  {}

  /** A request without body needs a pod and a pool. */
  lemma BodilessIsAnswered(k: Codec, c: Ctx, length: Option<nat>, pick: Pick, ok: nat)
    requires Fresh(c) && ok >= 1
    ensures pick.NoPod? ==> Refuses(k, c, RequestHeaders(true, pick, length), ok, Internal)
    ensures pick.NoPool? ==> Refuses(k, c, RequestHeaders(true, pick, length), ok, Unknown)
    ensures pick.Endpoint? ==>
              var o := Step(k, c, RequestHeaders(true, pick, length), ok);
              o.Open? && o.sent == [ReqHeader(pick.endpoint, None, c.received)]
  {
    if pick.Endpoint? {
      var c1 := Handle(k, c, RequestHeaders(true, pick, length)).ctx;
      assert Flush(c1) == [ReqHeader(pick.endpoint, None, c.received)];
    }
  }

  /** Chunks in numbers: 62000 bytes each but the last, as many as needed. */
  lemma ChunksInNumbers(bs: Bytes, eos: bool, i: nat)
    requires i < |Split(bs, eos)|
    ensures |Split(bs, eos)| == if bs == [] then 1 else (|bs| + 61999) / 62000
    ensures if i < |Split(bs, eos)| - 1 then |Split(bs, eos)[i].body| == 62000 else |Split(bs, eos)[i].body| <= 62000
  {
    ChunksCounted(bs, BODY_BYTE_LIMIT, eos);
    ChunksSplit(bs, BODY_BYTE_LIMIT, eos);
  }

  // ---- The first request of a stream

  /** A message that may come before the request is complete. */
  predicate Preliminary(m: Msg) {
    match m
    case RequestHeaders(eos, _, _) => !eos
    case RequestBody(_, eos, _) => !eos
    case ResponseHeaders(_) => false
    case _ => true
  }

  /** Nothing of the request side has happened but that bytes and headers came in. */
  ghost predicate Waiting(c: Ctx) {
    Fresh(c) && !c.streaming && c.requestJson == EMPTY_JSON
  }

  ghost predicate Waits(f: (Ctx, Msg) -> Outcome, c: Ctx, m: Msg) {
    var o := f(c, m);
    o.Open? && o.sent == [] && Waiting(o.ctx) && o.ctx.received == NextReceived(c.received, Got(m))
  }

  lemma PreliminaryWaits(k: Codec, c: Ctx, m: Msg)
    requires Waiting(c) && Preliminary(m)
    ensures Waits(Delivery(k), c, m)
  {
    var h := Handle(k, c, m);
    assert h.Ok? && Waiting(h.ctx) && Flush(h.ctx) == [] && After(h.ctx) == h.ctx;
    HandleReceived(k, c, m);
  }

  /** The length received with some messages, after `had`. */
  function ReceivedWith(had: Option<nat>, ms: seq<Msg>): Option<nat>
    decreases |ms|
  {
    if ms == [] then had else ReceivedWith(NextReceived(had, Got(ms[0])), ms[1..])
  }

  lemma {:induction false} FoldWaits(f: (Ctx, Msg) -> Outcome, c: Ctx, ms: seq<Msg>)
    requires Waiting(c) && forall m :: m in ms ==> Preliminary(m)
    requires forall x, m :: Waiting(x) && Preliminary(m) ==> Waits(f, x, m)
    ensures var o := Fold(f, c, ms);
            o.Open? && o.sent == [] && Waiting(o.ctx) && o.ctx.received == ReceivedWith(c.received, ms)
    decreases |ms|
  {
    if ms != [] {
      assert Preliminary(ms[0]) && Waits(f, c, ms[0]);
      FoldWaits(f, f(c, ms[0]).ctx, ms[1..]);
    }
  }

  lemma PreliminariesWait(k: Codec, ms: seq<Msg>)
    requires forall m :: m in ms ==> Preliminary(m)
    ensures var o := Exchange(k, INITIAL, ms);
            && o.Open? && o.sent == [] && Waiting(o.ctx)
            && o.ctx.received == ReceivedWith(None, ms) && o.ctx.body == Held([], false, ms)
  {
    forall x, m | Waiting(x) && Preliminary(m) ensures Waits(Delivery(k), x, m) {
      PreliminaryWaits(k, x, m);
    }
    FoldWaits(Delivery(k), INITIAL, ms);
    BufferOfRun(k, ms);
  }

  /** The answer to a request: 400 if it is not JSON, the status of a refusal, and otherwise the header
      response and the re-encoded body. */
  function AnswerTo(k: Codec, received: Option<nat>, bytes: Bytes, answer: Answer): seq<Resp> {
    match k.decode(EMPTY_JSON, bytes)
    case None => [Immediate(400)]
    case Some(_) =>
      match answer
      case Refused(_, code) => ErrorAnswer(code)
      case Routed(_, e, j) =>
        match k.encode(j)
        case None => []
        case Some(bs) => [ReqHeader(e, if |bs| > 0 then Some(|bs|) else None, received)] + ReqBodies(Split(bs, true))
  }

  lemma CompleteIsAnswered(k: Codec, c: Ctx, bytes: Bytes, answer: Answer)
    requires Waiting(c)
    ensures var o := Deliver(k, c, RequestBody(bytes, true, answer));
            && o.sent == AnswerTo(k, c.received, c.body + bytes, answer)
            && (o.Open? <==> k.decode(EMPTY_JSON, c.body + bytes).Some? && answer.Routed?)
  {
    var m := RequestBody(bytes, true, answer);
    var h := Handle(k, c, m);
    if h.Ok? {
      assert answer.Routed? && ResponseFlush(h.ctx) == [];
      assert RequestFlush(h.ctx) + [] == RequestFlush(h.ctx);
      if k.encode(answer.body).Some? {
        assert RequestFlush(h.ctx) == AnswerTo(k, c.received, c.body + bytes, answer);
      }
    }
  }

  lemma SilentThenLast(k: Codec, ms: seq<Msg>, c: Ctx, last: Msg)
    requires Exchange(k, INITIAL, ms) == Open(c, [])
    ensures Exchange(k, INITIAL, ms + [last]) == Deliver(k, c, last)
  {
    var o := Deliver(k, c, last);
    ExchangeAppend(k, INITIAL, ms, [last]);
    assert [] + Exchange(k, c, [last]).sent == Exchange(k, c, [last]).sent;
    LastAlone(Delivery(k), c, last);
  }

  lemma {:induction false} LastAlone(f: (Ctx, Msg) -> Outcome, c: Ctx, last: Msg)
    ensures Fold(f, c, [last]) == f(c, last)
  {
    var o := f(c, last);
    assert [last][1..] == [] && Fold(f, o.ctx, []) == Open(o.ctx, []);
    assert o.sent + [] == o.sent;
  }

  /** Over runs: whatever comes before it, the first complete request of a stream is answered by the answer to
      all the bytes received, and by nothing else; the stream stays open exactly if it is routed. */
  lemma FirstRequestAnswered(k: Codec, ms: seq<Msg>, bytes: Bytes, answer: Answer)
    requires forall m :: m in ms ==> Preliminary(m)
    ensures var o := Exchange(k, INITIAL, ms + [RequestBody(bytes, true, answer)]);
            var all := Held([], false, ms) + bytes;
            && o.sent == AnswerTo(k, ReceivedWith(None, ms), all, answer)
            && (o.Open? <==> k.decode(EMPTY_JSON, all).Some? && answer.Routed?)
  {
    PreliminariesWait(k, ms);
    var c := Exchange(k, INITIAL, ms).ctx;
    SilentThenLast(k, ms, c, RequestBody(bytes, true, answer));
    CompleteIsAnswered(k, c, bytes, answer);
  }

  /** The first request goes unanswered exactly when it is routed and cannot be encoded again, or refused for
      an unknown reason. */
  lemma UnansweredIff(k: Codec, received: Option<nat>, bytes: Bytes, answer: Answer)
    ensures AnswerTo(k, received, bytes, answer) == [] <==>
              (k.decode(EMPTY_JSON, bytes).Some? &&
               (if answer.Routed? then k.encode(answer.body) == None else answer.code == Unknown))
  {}

  /** The error of encoding a routed request is lost: nothing is sent, and the stream waits on. */
  lemma LostEncodingError(k: Codec, bytes: Bytes, body: Json)
    requires k.decode(EMPTY_JSON, bytes).Some? && k.encode(body) == None
    ensures var o := Exchange(k, INITIAL, [RequestBody(bytes, true, Routed("a", "e", body))]);
            o.Open? && o.sent == []
  {
    assert [] + [RequestBody(bytes, true, Routed("a", "e", body))] == [RequestBody(bytes, true, Routed("a", "e", body))];
    assert Held([], false, []) + bytes == bytes;
    FirstRequestAnswered(k, [], bytes, Routed("a", "e", body));
  }
}
