/** The external-processing stream handler as a state machine.

A stream receives messages one at a time. Handling a message updates the request context and may
leave responses in it; `Flush` says which of them the following send pass sends, in order, and
`After` what the context is when all of them went out. JSON coding is a parameter, and what the
director answers to a request comes with the message.
*/
module ExtProc {
  import opened Chunker
  import opened Options

  /** A decoded JSON object, of which nothing is known but how it is coded. */
  datatype Json = Json(text: string)

  const EMPTY_JSON: Json := Json("")

  /** `decode(into, bytes)` merges the bytes into an object already there, or rejects them. */
  datatype Codec = Codec(decode: (Json, Bytes) -> Option<Json>, encode: Json -> Option<Bytes>)

  datatype ErrorCode = Internal | BadRequest | BadConfiguration | ResourceExhausted | Unknown

  /** The choice of a pod for a request without a body. */
  datatype Pick = Endpoint(endpoint: string) | NoPod | NoPool

  /** What the director makes of a decoded request. */
  datatype Answer = Routed(model: string, endpoint: string, body: Json) | Refused(model: string, code: ErrorCode)

  datatype Msg =
    | RequestHeaders(eos: bool, pick: Pick, length: Option<nat>)  // the content length received, if any
    | RequestBody(bytes: Bytes, eos: bool, answer: Answer)
    | RequestTrailers
    | ResponseHeaders(eventStream: bool)
    | ResponseBody(bytes: Bytes, eos: bool)
    | ResponseTrailers

  /** A header response carries the length generated and the one received, if any. */
  datatype Resp =
    | ReqHeader(endpoint: string, contentLength: Option<nat>, copied: Option<nat>)
    | ReqBody(chunk: Chunk)
    | RespHeader
    | RespBody(chunk: Chunk)
    | Immediate(status: nat)

  datatype Phase =
    | RequestReceived
    | HeaderRequestResponseComplete
    | BodyRequestResponsesComplete
    | ResponseReceived
    | HeaderResponseResponseComplete
    | BodyResponseResponsesComplete

  datatype Ctx = Ctx(phase: Phase, streaming: bool, model: string, endpoint: string, received: Option<nat>,
                     requestSize: nat, running: bool, body: Bytes, requestJson: Json, responseJson: Json,
                     reqHeader: Option<Resp>, reqChunks: seq<Chunk>, respHeader: bool, respChunks: seq<Chunk>)

  const INITIAL: Ctx :=
    Ctx(RequestReceived, false, "", "", None, 0, false, [], EMPTY_JSON, EMPTY_JSON, None, [], false, [])

  function Split(body: Bytes, eos: bool): seq<Chunk> {
    Chunks(body, BODY_BYTE_LIMIT, eos)
  }

  // ---- Handling one message

  datatype Handled = Ok(ctx: Ctx) | Err(ctx: Ctx, code: ErrorCode)

  /** Headers are generated for the endpoint and a length that is not 0; those received are copied. */
  function HeaderFor(endpoint: string, size: nat, received: Option<nat>): Resp {
    ReqHeader(endpoint, if size > 0 then Some(size) else None, received)
  }

  /** Headers are kept, one received later for one received before, but not those of a request without body. */
  function HandleRequestHeaders(c: Ctx, eos: bool, pick: Pick, length: Option<nat>): Handled {
    if !eos then Ok(if length.Some? then c.(received := length) else c)
    else match pick
      case NoPod => Err(c, Internal)
      case NoPool => Err(c, Unknown)
      case Endpoint(e) => Ok(c.(endpoint := e, requestSize := 0, reqHeader := Some(HeaderFor(e, 0, c.received))))
  }

  /** The decoded request went to the director and came back with an answer. */
  function Dispatch(k: Codec, c: Ctx, answer: Answer): Handled {
    match answer
    case Refused(m, code) => Err(c.(model := m), code)
    case Routed(m, e, j) =>
      var c1 := c.(model := m, endpoint := e, requestJson := j);
      match k.encode(j)
      case None => Ok(c1)
      case Some(bs) => Ok(c1.(requestSize := |bs|, reqHeader := Some(HeaderFor(e, |bs|, c.received)),
          reqChunks := Split(bs, true)))
  }

  function HandleRequestBody(k: Codec, c: Ctx, bytes: Bytes, eos: bool, answer: Answer): Handled {
    var c1 := c.(body := c.body + bytes);
    if !eos then Ok(c1)
    else match k.decode(c1.requestJson, c1.body)
      case None => Err(c1, BadRequest)
      case Some(j) => Dispatch(k, c1.(requestJson := j, body := []), answer)
  }

  function HandleResponseHeaders(c: Ctx, eventStream: bool): Handled {
    Ok(c.(phase := ResponseReceived, streaming := c.streaming || eventStream, respHeader := true))
  }

  function HandleResponseBody(k: Codec, c: Ctx, bytes: Bytes, eos: bool): Handled {
    if c.streaming then Ok(c.(respChunks := Split(bytes, eos)))
    else
      var c1 := c.(body := c.body + bytes);
      if !eos then Ok(c1)
      else match k.decode(c1.responseJson, c1.body)
        case None => Ok(c1.(respChunks := Split(c1.body, true)))
        case Some(j) =>
          match k.encode(j)
          case None => Ok(c1.(responseJson := j))
          case Some(bs) => Ok(c1.(responseJson := j, respChunks := Split(bs, true)))
  }

  function Handle(k: Codec, c: Ctx, m: Msg): Handled {
    match m
    case RequestHeaders(eos, pick, length) => HandleRequestHeaders(c, eos, pick, length)
    case RequestBody(bytes, eos, answer) => HandleRequestBody(k, c, bytes, eos, answer)
    case ResponseHeaders(eventStream) => HandleResponseHeaders(c, eventStream)
    case ResponseBody(bytes, eos) => HandleResponseBody(k, c, bytes, eos)
    case RequestTrailers => Ok(c)
    case ResponseTrailers => Ok(c)
  }

  /** The status of the immediate response to an error, if the error has one. */
  function Status(code: ErrorCode): Option<nat> {
    match code
    case ResourceExhausted => Some(429)
    case Internal => Some(500)
    case BadRequest => Some(400)
    case BadConfiguration => Some(404)
    case Unknown => None
  }

  // ---- The send pass

  function ReqBodies(cs: seq<Chunk>): seq<Resp> {
    seq(|cs|, i requires 0 <= i < |cs| => ReqBody(cs[i]))
  }

  function RespBodies(cs: seq<Chunk>): seq<Resp> {
    seq(|cs|, i requires 0 <= i < |cs| => RespBody(cs[i]))
  }

  predicate SendsReqHeader(c: Ctx) {
    c.phase == RequestReceived && c.reqHeader.Some?
  }

  predicate SendsReqBody(c: Ctx) {
    (SendsReqHeader(c) || c.phase == HeaderRequestResponseComplete) && c.reqChunks != []
  }

  predicate SendsRespHeader(c: Ctx) {
    c.phase == ResponseReceived && c.respHeader
  }

  predicate SendsRespBody(c: Ctx) {
    (SendsRespHeader(c) || c.phase == HeaderResponseResponseComplete) && c.respChunks != []
  }

  function RequestFlush(c: Ctx): seq<Resp> {
    (if SendsReqHeader(c) then [c.reqHeader.value] else [])
    + (if SendsReqBody(c) then ReqBodies(c.reqChunks) else [])
  }

  function ResponseFlush(c: Ctx): seq<Resp> {
    (if SendsRespHeader(c) then [RespHeader] else [])
    + (if SendsRespBody(c) then RespBodies(c.respChunks) else [])
  }

  function Flush(c: Ctx): seq<Resp> {
    RequestFlush(c) + ResponseFlush(c)
  }

  predicate HasEos(cs: seq<Chunk>) {
    exists c :: c in cs && c.eos
  }

  function AfterRequest(c: Ctx): Ctx {
    if SendsReqBody(c) then c.(phase := BodyRequestResponsesComplete, running := true, reqChunks := [])
    else if SendsReqHeader(c) then c.(phase := HeaderRequestResponseComplete)
    else c
  }

  function AfterResponse(c: Ctx): Ctx {
    if SendsRespBody(c) then
      c.(phase := if HasEos(c.respChunks) then BodyResponseResponsesComplete else HeaderResponseResponseComplete,
         respChunks := [])
    else if SendsRespHeader(c) then c.(phase := HeaderResponseResponseComplete)
    else c
  }

  function After(c: Ctx): Ctx {
    AfterResponse(AfterRequest(c))
  }

  // ---- One step and whole runs

  datatype Outcome = Open(ctx: Ctx, sent: seq<Resp>) | Closed(ctx: Ctx, sent: seq<Resp>)

  /** One message, of whose responses the first `ok` can be sent before the transport fails. */
  function Step(k: Codec, c: Ctx, m: Msg, ok: nat): Outcome {
    match Handle(k, c, m)
    case Err(c1, code) => Closed(c1, if Status(code).Some? && ok >= 1 then [Immediate(Status(code).value)] else [])
    case Ok(c1) => if |Flush(c1)| <= ok then Open(After(c1), Flush(c1)) else Closed(c1, Flush(c1)[..ok])
  }

  /** What a stream does as seen from outside: messages received and responses sent. */
  datatype Event = Got(msg: Msg) | Sent(resp: Resp)

  function SentAll(rs: seq<Resp>): seq<Event> {
    seq(|rs|, i requires 0 <= i < |rs| => Sent(rs[i]))
  }

  /** The trace of a stream that receives `ms`, the i-th with a budget of `oks[i]` sends. */
  function Trace(k: Codec, c: Ctx, ms: seq<Msg>, oks: seq<nat>): seq<Event>
    requires |ms| == |oks|
    decreases |ms|
  {
    if ms == [] then []
    else
      var o := Step(k, c, ms[0], oks[0]);
      [Got(ms[0])] + SentAll(o.sent) + if o.Open? then Trace(k, o.ctx, ms[1..], oks[1..]) else []
  }
}

/** The order that the protocol demands of a trace, and that every trace has it. */
module ExtProcOrder {
  import opened Chunker
  import opened ExtProc
  import opened Options

  datatype Batch = NotYet | Partial | Complete

  /** What an observer of the stream remembers. */
  datatype Observer = Observer(header: bool, body: Batch, response: bool, respOpen: bool, ended: bool)

  const START: Observer := Observer(false, NotYet, false, false, false)

  /** The observer accepts an event or rejects the stream. The request header response comes once
      and before the request body chunks, which form one uninterrupted batch closed by its
      end-of-stream chunk; nothing request-side follows a received response header; response chunks
      need a response header response, and after an end-of-stream chunk a new one; nothing follows
      an immediate response. */
  function Observe(o: Observer, e: Event): Option<Observer> {
    if o.ended then None
    else match e
      case Got(m) =>
        if o.body == Partial then None else Some(if m.ResponseHeaders? then o.(response := true) else o)
      case Sent(ReqHeader(_, _, _)) =>
        if o.header || o.response || o.body == Partial then None else Some(o.(header := true))
      case Sent(ReqBody(c)) =>
        if !o.header || o.response || o.body == Complete then None
        else Some(o.(body := if c.eos then Complete else Partial))
      case Sent(RespHeader) =>
        if !o.response || o.body == Partial then None else Some(o.(respOpen := true))
      case Sent(RespBody(c)) =>
        if !o.respOpen || o.body == Partial then None else Some(o.(respOpen := !c.eos))
      case Sent(Immediate(_)) =>
        if o.body == Partial then None else Some(o.(ended := true))
  }

  function ObserveAll(o: Observer, t: seq<Event>): Option<Observer>
    decreases |t|
  {
    if t == [] then Some(o)
    else
      var r := Observe(o, t[0]);
      if r.None? then None else ObserveAll(r.value, t[1..])
  }

  /** How the context and what was observed so far fit together. */
  ghost predicate Fits(c: Ctx, o: Observer) {
    && !o.ended && o.body != Partial
    && (c.phase == RequestReceived ==> !o.header && o.body == NotYet && !o.response)
    && (c.phase == HeaderRequestResponseComplete ==> o.header && o.body == NotYet && !o.response)
    && (c.phase == BodyRequestResponsesComplete ==> !o.response)
    && (c.phase == HeaderResponseResponseComplete ==> o.response && o.respOpen)
    && (c.phase == BodyResponseResponsesComplete ==> o.response)
    && (c.phase == ResponseReceived ==> o.response && c.respHeader)
  }

  /** Pending responses are of the right kind, and end of stream is only on the last chunk. */
  ghost predicate Pending(c: Ctx) {
    && (c.reqHeader.Some? ==> c.reqHeader.value.ReqHeader?)
    && EosOnlyLast(c.reqChunks) && (c.reqChunks != [] ==> c.reqChunks[|c.reqChunks| - 1].eos)
    && EosOnlyLast(c.respChunks)
  }

  lemma {:induction false} ObserveAppend(o: Observer, a: seq<Event>, b: seq<Event>)
    ensures ObserveAll(o, a + b) == var r := ObserveAll(o, a); if r.None? then None else ObserveAll(r.value, b)
    decreases |a|
  {
    if a == [] {
      assert a + b == b;
    } else {
      assert (a + b)[1..] == a[1..] + b;
      var r := Observe(o, a[0]);
      if r.Some? {
        ObserveAppend(r.value, a[1..], b);
      }
    }
  }

  lemma {:induction false} ObservePrefix(o: Observer, t: seq<Event>, n: nat)
    requires n <= |t| && ObserveAll(o, t).Some?
    ensures ObserveAll(o, t[..n]).Some?
  {
    assert t == t[..n] + t[n..];
    ObserveAppend(o, t[..n], t[n..]);
  }

  lemma {:induction false} ObserveReqBatch(o: Observer, cs: seq<Chunk>)
    requires !o.ended && o.header && !o.response && o.body != Complete
    requires cs != [] && EosOnlyLast(cs) && cs[|cs| - 1].eos
    ensures ObserveAll(o, SentAll(ReqBodies(cs))) == Some(o.(body := Complete))
    decreases |cs|
  {
    var t := SentAll(ReqBodies(cs));
    assert t[1..] == SentAll(ReqBodies(cs[1..]));
    if |cs| > 1 {
      ObserveReqBatch(o.(body := Partial), cs[1..]);
    }
  }

  lemma {:induction false} ObserveRespBatch(o: Observer, cs: seq<Chunk>)
    requires !o.ended && o.respOpen && o.body != Partial
    requires cs != [] && EosOnlyLast(cs)
    ensures ObserveAll(o, SentAll(RespBodies(cs))) == Some(o.(respOpen := !cs[|cs| - 1].eos))
    ensures HasEos(cs) == cs[|cs| - 1].eos
    decreases |cs|
  {
    var t := SentAll(RespBodies(cs));
    assert t[1..] == SentAll(RespBodies(cs[1..]));
    assert HasEos(cs) ==> cs[|cs| - 1].eos;
    assert cs[|cs| - 1] in cs;
    if |cs| > 1 {
      ObserveRespBatch(o, cs[1..]);
    }
  }

  lemma SplitPending(bs: Bytes, eos: bool)
    ensures EosOnlyLast(Split(bs, eos)) && Split(bs, eos)[|Split(bs, eos)| - 1].eos == eos
  {
    ChunksSplit(bs, BODY_BYTE_LIMIT, eos);
  }

  lemma DispatchPending(k: Codec, c: Ctx, answer: Answer)
    requires Pending(c)
    ensures Pending(Dispatch(k, c, answer).ctx)
  {
    if answer.Routed? && k.encode(answer.body).Some? {
      SplitPending(k.encode(answer.body).value, true);
    }
  }

  lemma ResponsePending(k: Codec, c: Ctx, bytes: Bytes, eos: bool)
    requires Pending(c)
    ensures Pending(HandleResponseBody(k, c, bytes, eos).ctx)
  {
    if c.streaming {
      SplitPending(bytes, eos);
    } else if eos {
      var j := k.decode(c.responseJson, c.body + bytes);
      SplitPending(c.body + bytes, true);
      if j.Some? && k.encode(j.value).Some? {
        SplitPending(k.encode(j.value).value, true);
      }
    }
  }

  lemma PendingKept(k: Codec, c: Ctx, m: Msg)
    requires Pending(c)
    ensures Pending(Handle(k, c, m).ctx)
  {
    match m
    case RequestBody(bytes, eos, answer) =>
      var j := k.decode(c.requestJson, c.body + bytes);
      if j.Some? {
        DispatchPending(k, c.(body := [], requestJson := j.value), answer);
      }
    case ResponseBody(bytes, eos) => ResponsePending(k, c, bytes, eos);
    case _ =>
  }

  lemma HandleFits(k: Codec, c: Ctx, m: Msg, o: Observer)
    requires Fits(c, o) && c.phase != ResponseReceived
    ensures Observe(o, Got(m)).Some? && Fits(Handle(k, c, m).ctx, Observe(o, Got(m)).value)
  {}

  /** A header response followed by a batch is observed in this order. */
  lemma {:induction false} ObserveHeaderAnd(o: Observer, h: Resp, rest: seq<Resp>)
    requires Observe(o, Sent(h)).Some?
    ensures ObserveAll(o, SentAll([h] + rest)) == ObserveAll(Observe(o, Sent(h)).value, SentAll(rest))
  {
    assert SentAll([h] + rest)[1..] == SentAll(rest);
  }

  lemma {:induction false} RequestFlushFits(c: Ctx, o: Observer)
    requires Fits(c, o) && Pending(c) && (SendsReqHeader(c) || SendsReqBody(c))
    ensures var r := ObserveAll(o, SentAll(Flush(c))); r.Some? && Fits(After(c), r.value)
  {
    var reqs := ReqBodies(c.reqChunks);
    if SendsReqHeader(c) {
      var h := c.reqHeader.value;
      ObserveHeaderAnd(o, h, if SendsReqBody(c) then reqs else []);
      assert Flush(c) == [h] + if SendsReqBody(c) then reqs else [];
    } else {
      assert Flush(c) == reqs;
    }
    if SendsReqBody(c) {
      ObserveReqBatch(o.(header := true), c.reqChunks);
    }
  }

  lemma {:induction false} ResponseFlushFits(c: Ctx, o: Observer)
    requires Fits(c, o) && Pending(c) && (SendsRespHeader(c) || SendsRespBody(c))
    ensures var r := ObserveAll(o, SentAll(Flush(c))); r.Some? && Fits(After(c), r.value)
  {
    var resps := RespBodies(c.respChunks);
    if SendsRespHeader(c) {
      ObserveHeaderAnd(o, RespHeader, if SendsRespBody(c) then resps else []);
      assert Flush(c) == [RespHeader] + if SendsRespBody(c) then resps else [];
    } else {
      assert Flush(c) == resps;
    }
    if SendsRespBody(c) {
      ObserveRespBatch(o.(respOpen := true), c.respChunks);
    }
  }

  /** Everything a send pass sends is acceptable, and the context keeps up with the observer. */
  lemma {:induction false} FlushFits(c: Ctx, o: Observer)
    requires Fits(c, o) && Pending(c)
    ensures var r := ObserveAll(o, SentAll(Flush(c)));
            r.Some? && Fits(After(c), r.value) && Pending(After(c)) && After(c).phase != ResponseReceived
  {
    if SendsReqHeader(c) || SendsReqBody(c) {
      RequestFlushFits(c, o);
    } else if SendsRespHeader(c) || SendsRespBody(c) {
      ResponseFlushFits(c, o);
    } else {
      assert Flush(c) == [];
    }
  }

  /** One step: its trace is acceptable, and if the stream stays open context and observer fit. */
  lemma {:induction false} StepFits(k: Codec, c: Ctx, m: Msg, ok: nat, o: Observer)
    requires Fits(c, o) && Pending(c) && c.phase != ResponseReceived
    ensures var out := Step(k, c, m, ok);
            var r := ObserveAll(o, [Got(m)] + SentAll(out.sent));
            && r.Some?
            && (out.Open? ==> Fits(out.ctx, r.value) && Pending(out.ctx) && out.ctx.phase != ResponseReceived)
  {
    HandleFits(k, c, m, o);
    PendingKept(k, c, m);
    var h, out := Handle(k, c, m), Step(k, c, m, ok);
    var o1 := Observe(o, Got(m)).value;
    assert ([Got(m)] + SentAll(out.sent))[1..] == SentAll(out.sent);
    if h.Ok? {
      FlushFits(h.ctx, o1);
      if |Flush(h.ctx)| > ok {
        ObservePrefix(o1, SentAll(Flush(h.ctx)), ok);
        assert SentAll(Flush(h.ctx))[..ok] == SentAll(out.sent);
      }
    } else if out.sent != [] {
      assert out.sent == [out.sent[0]] + [];
      ObserveHeaderAnd(o1, out.sent[0], []);
    }
  }

  /** For every sequence of messages, and wherever the transport fails, the observer accepts. */
  lemma {:induction false} EveryTraceOrdered(k: Codec, c: Ctx, ms: seq<Msg>, oks: seq<nat>, o: Observer)
    requires |ms| == |oks|
    requires Fits(c, o) && Pending(c) && c.phase != ResponseReceived
    ensures ObserveAll(o, Trace(k, c, ms, oks)).Some?
    decreases |ms|
  {
    if ms != [] {
      var out := Step(k, c, ms[0], oks[0]);
      var now := [Got(ms[0])] + SentAll(out.sent);
      StepFits(k, c, ms[0], oks[0], o);
      var o1 := ObserveAll(o, now).value;
      if out.Open? {
        EveryTraceOrdered(k, out.ctx, ms[1..], oks[1..], o1);
        ObserveAppend(o, now, Trace(k, out.ctx, ms[1..], oks[1..]));
      } else {
        assert Trace(k, c, ms, oks) == now;
      }
    }
  }

  lemma FromTheStart(k: Codec, ms: seq<Msg>, oks: seq<nat>)
    requires |ms| == |oks|
    ensures ObserveAll(START, Trace(k, INITIAL, ms, oks)).Some?
  {
    EveryTraceOrdered(k, INITIAL, ms, oks, START);
  }

  // ---- What acceptance means, event by event

  predicate IsReqHeader(e: Event) {
    e.Sent? && e.resp.ReqHeader?
  }

  predicate IsReqBody(e: Event) {
    e.Sent? && e.resp.ReqBody?
  }

  predicate IsRespHeader(e: Event) {
    e.Sent? && e.resp.RespHeader?
  }

  predicate IsRespBody(e: Event) {
    e.Sent? && e.resp.RespBody?
  }

  predicate IsImmediate(e: Event) {
    e.Sent? && e.resp.Immediate?
  }

  predicate IsResponse(e: Event) {
    e.Got? && e.msg.ResponseHeaders?
  }

  predicate IsRespEnd(e: Event) {
    IsRespBody(e) && e.resp.chunk.eos
  }

  ghost predicate Occurs(p: Event -> bool, t: seq<Event>) {
    exists i :: 0 <= i < |t| && p(t[i])
  }

  /** A response header response was sent and no end-of-stream chunk since. */
  ghost predicate OpenForChunks(t: seq<Event>) {
    exists i :: 0 <= i < |t| && IsRespHeader(t[i]) && forall j :: i < j < |t| ==> !IsRespEnd(t[j])
  }

  /** The request chunks sent so far are the tail of the trace, and none of them is the last one. */
  ghost predicate InRequestBatch(t: seq<Event>) {
    && t != [] && IsReqBody(t[|t| - 1])
    && forall i :: 0 <= i < |t| && IsReqBody(t[i]) ==> !t[i].resp.chunk.eos
  }

  /** `e` may follow the trace `t`. */
  ghost predicate MayFollow(t: seq<Event>, e: Event) {
    && !Occurs(IsImmediate, t)
    && (IsReqHeader(e) ==> !Occurs(IsReqHeader, t) && !Occurs(IsResponse, t))
    && (IsReqBody(e) ==>
          && Occurs(IsReqHeader, t) && !Occurs(IsResponse, t)
          && (Occurs(IsReqBody, t) ==> InRequestBatch(t)))
    && (!IsReqBody(e) ==> !InRequestBatch(t))
    && (IsRespHeader(e) ==> Occurs(IsResponse, t))
    && (IsRespBody(e) ==> OpenForChunks(t))
  }

  /** The observer's memory is about the trace. */
  ghost predicate Remembers(o: Observer, t: seq<Event>) {
    && (o.header <==> Occurs(IsReqHeader, t))
    && (o.response <==> Occurs(IsResponse, t))
    && (o.ended <==> Occurs(IsImmediate, t))
    && (o.body == NotYet <==> !Occurs(IsReqBody, t))
    && (o.body == Partial <==> InRequestBatch(t))
    && (o.respOpen <==> OpenForChunks(t))
  }

  ghost predicate Ordered(t: seq<Event>) {
    forall n :: 0 <= n < |t| ==> MayFollow(t[..n], t[n])
  }

  lemma OccursOneMore(p: Event -> bool, t: seq<Event>, e: Event)
    ensures Occurs(p, t + [e]) <==> Occurs(p, t) || p(e)
  {
    var t' := t + [e];
    assert t'[|t|] == e;
    if Occurs(p, t) {
      var i :| 0 <= i < |t| && p(t[i]);
      assert p(t'[i]);
    }
  }

  lemma OpenForChunksOneMore(t: seq<Event>, e: Event)
    ensures OpenForChunks(t + [e]) <==> IsRespHeader(e) || (OpenForChunks(t) && !IsRespEnd(e))
  {
    var t' := t + [e];
    assert t'[|t|] == e;
    if OpenForChunks(t) && !IsRespEnd(e) {
      var i :| 0 <= i < |t| && IsRespHeader(t[i]) && forall j :: i < j < |t| ==> !IsRespEnd(t[j]);
      assert IsRespHeader(t'[i]);
    }
    if OpenForChunks(t') {
      var i :| 0 <= i < |t'| && IsRespHeader(t'[i]) && forall j :: i < j < |t'| ==> !IsRespEnd(t'[j]);
      assert i < |t| ==> IsRespHeader(t[i]) && !IsRespEnd(t'[|t|]) && forall j :: i < j < |t| ==> t[j] == t'[j];
    }
  }

  lemma InRequestBatchOneMore(t: seq<Event>, e: Event)
    ensures InRequestBatch(t + [e]) <==>
              IsReqBody(e) && !e.resp.chunk.eos && forall i :: 0 <= i < |t| && IsReqBody(t[i]) ==> !t[i].resp.chunk.eos
  {
    var t' := t + [e];
    assert t'[|t|] == e && forall i :: 0 <= i < |t| ==> t'[i] == t[i];
  }

  /** The observer accepts an event exactly when it may follow, and goes on remembering. */
  lemma ObserveExact(o: Observer, t: seq<Event>, e: Event)
    requires Remembers(o, t)
    ensures Observe(o, e).Some? <==> MayFollow(t, e)
    ensures Observe(o, e).Some? ==> Remembers(Observe(o, e).value, t + [e])
  {
    OccursOneMore(IsReqHeader, t, e);
    OccursOneMore(IsResponse, t, e);
    OccursOneMore(IsImmediate, t, e);
    OccursOneMore(IsReqBody, t, e);
    OpenForChunksOneMore(t, e);
    InRequestBatchOneMore(t, e);
  }

  /** Acceptance is the order stated event by event. */
  lemma {:induction false} AcceptedIffOrdered(t: seq<Event>)
    ensures ObserveAll(START, t).Some? <==> Ordered(t)
    ensures ObserveAll(START, t).Some? ==> Remembers(ObserveAll(START, t).value, t)
    decreases |t|
  {
    if t != [] {
      var n := |t| - 1;
      var front, e := t[..n], t[n];
      assert t == front + [e];
      AcceptedIffOrdered(front);
      ObserveAppend(START, front, [e]);
      if ObserveAll(START, front).Some? {
        ObserveExact(ObserveAll(START, front).value, front, e);
      }
      assert Ordered(t) <==> Ordered(front) && MayFollow(front, e) by {
        assert forall i :: 0 <= i < n ==> front[..i] == t[..i] && front[i] == t[i];
        assert Ordered(t) ==> MayFollow(t[..n], t[n]);
      }
    }
  }

  /** Every trace of every stream is in order, whatever arrives and wherever sending fails. */
  lemma EveryTraceInOrder(k: Codec, ms: seq<Msg>, oks: seq<nat>)
    requires |ms| == |oks|
    ensures Ordered(Trace(k, INITIAL, ms, oks))
  {
    FromTheStart(k, ms, oks);
    AcceptedIffOrdered(Trace(k, INITIAL, ms, oks));
  }
}
