/** The stream handler as the object it is: a request context updated in place, message by message. */
module StreamingServer {
  import opened Chunker
  import opened ExtProc
  import opened ExtProcOrder
  import opened Options

  /** The gRPC stream. It logs what passes, and fails for good after `budget` more sends. */
  class Stream {
    var log: seq<Event>
    var budget: nat

    constructor (budget: nat)
      ensures log == [] && this.budget == budget
    {
      log := [];
      this.budget := budget;
    }

    method Recv(m: Msg)
      modifies this`log
      ensures log == old(log) + [Got(m)]
    {
      log := log + [Got(m)];
    }

    method Send(r: Resp) returns (ok: bool)
      modifies this
      ensures SendsPrefix(old(log), old(budget), log, budget, [r], ok)
      ensures ok ==> log == old(log) + [Sent(r)]
    {
      ok := budget > 0;
      if ok {
        log := log + [Sent(r)];
        budget := budget - 1;
      }
    }
  }

  class RequestContext {
    var requestState: Phase
    var modelServerStreaming: bool
    var model: string
    var targetEndpoint: string
    var receivedLength: Option<nat>
    var requestSize: nat
    var requestRunning: bool
    var body: Bytes
    var requestBody: Json
    var responseBody: Json
    var reqHeaderResp: Option<Resp>
    var reqBodyResp: seq<Chunk>
    var respHeaderResp: bool
    var respBodyResp: seq<Chunk>

    ghost function Model(): Ctx
      reads this
    {
      Ctx(requestState, modelServerStreaming, model, targetEndpoint, receivedLength, requestSize, requestRunning,
          body, requestBody, responseBody, reqHeaderResp, reqBodyResp, respHeaderResp, respBodyResp)
    }

    constructor ()
      ensures Model() == INITIAL
    {
      requestState, modelServerStreaming, model, targetEndpoint := RequestReceived, false, "", "";
      receivedLength, requestSize, requestRunning, body := None, 0, false, [];
      requestBody, responseBody := EMPTY_JSON, EMPTY_JSON;
      reqHeaderResp, reqBodyResp, respHeaderResp, respBodyResp := None, [], false, [];
    }

    /** One received message. The result is the error to answer with, if any. */
    method HandleMessage(k: Codec, m: Msg) returns (err: Option<ErrorCode>)
      modifies this
      ensures var h := Handle(k, old(Model()), m);
              Model() == h.ctx && err == if h.Err? then Some(h.code) else None
    {
      err := None;
      match m
      case RequestHeaders(eos, pick, length) =>
        if eos {
          match pick {
            case NoPod => err := Some(Internal);
            case NoPool => err := Some(Unknown);
            case Endpoint(e) =>
              targetEndpoint := e;
              requestSize := 0;
              reqHeaderResp := Some(HeaderFor(targetEndpoint, requestSize, receivedLength));
          }
        } else if length.Some? {
          receivedLength := length;
        }
      case RequestBody(bytes, eos, answer) =>
        err := ReceiveRequestBody(k, bytes, eos, answer);
      case ResponseHeaders(eventStream) =>
        if eventStream {
          modelServerStreaming := true;
        }
        requestState := ResponseReceived;
        respHeaderResp := true;
      case ResponseBody(bytes, eos) =>
        ReceiveResponseBody(k, bytes, eos);
      case RequestTrailers =>
      case ResponseTrailers =>
    }

    method ReceiveRequestBody(k: Codec, bytes: Bytes, eos: bool, answer: Answer) returns (err: Option<ErrorCode>)
      modifies this
      ensures var h := HandleRequestBody(k, old(Model()), bytes, eos, answer);
              Model() == h.ctx && err == if h.Err? then Some(h.code) else None
    {
      body := body + bytes;
      if !eos {
        return None;
      }
      var decoded := k.decode(requestBody, body);
      if decoded.None? {
        return Some(BadRequest);
      }
      requestBody := decoded.value;
      body := [];
      err := DispatchRequest(k, answer);
    }

    method DispatchRequest(k: Codec, answer: Answer) returns (err: Option<ErrorCode>)
      modifies this
      ensures var h := Dispatch(k, old(Model()), answer);
              Model() == h.ctx && err == if h.Err? then Some(h.code) else None
    {
      model := answer.model;
      if answer.Refused? {
        return Some(answer.code);
      }
      targetEndpoint := answer.endpoint;
      requestBody := answer.body;
      var encoded := k.encode(requestBody);
      if encoded.Some? {
        requestSize := |encoded.value|;
        reqHeaderResp := Some(HeaderFor(targetEndpoint, requestSize, receivedLength));
        reqBodyResp := BuildCommonResponses(encoded.value, BODY_BYTE_LIMIT, true);
      }
      return None;
    }

    method ReceiveResponseBody(k: Codec, bytes: Bytes, eos: bool)
      modifies this
      ensures Model() == HandleResponseBody(k, old(Model()), bytes, eos).ctx
    {
      if modelServerStreaming {
        respBodyResp := BuildCommonResponses(bytes, BODY_BYTE_LIMIT, eos);
        return;
      }
      body := body + bytes;
      if !eos {
        return;
      }
      var decoded := k.decode(responseBody, body);
      if decoded.None? {
        respBodyResp := BuildCommonResponses(body, BODY_BYTE_LIMIT, true);
        return;
      }
      responseBody := decoded.value;
      var encoded := k.encode(responseBody);
      if encoded.Some? {
        respBodyResp := BuildCommonResponses(encoded.value, BODY_BYTE_LIMIT, true);
      }
    }

    method SendRequestBodies(srv: Stream) returns (ok: bool)
      modifies srv
      ensures SendsPrefix(old(srv.log), old(srv.budget), srv.log, srv.budget, ReqBodies(reqBodyResp), ok)
    {
      ghost var all := ReqBodies(reqBodyResp);
      for i := 0 to |reqBodyResp|
        invariant i <= old(srv.budget) && srv.budget == old(srv.budget) - i
        invariant srv.log == old(srv.log) + SentAll(all[..i])
      {
        assert SentAll(all[..i + 1]) == SentAll(all[..i]) + [Sent(ReqBody(reqBodyResp[i]))];
        ok := srv.Send(ReqBody(reqBodyResp[i]));
        if !ok {
          return;
        }
      }
      ok := true;
      assert all[..|all|] == all;
    }

    /** Sends the response chunks; the state moves on with the end-of-stream chunk. */
    method SendResponseBodies(srv: Stream) returns (ok: bool)
      modifies srv, this`requestState
      ensures SendsPrefix(old(srv.log), old(srv.budget), srv.log, srv.budget, RespBodies(respBodyResp), ok)
      ensures ok ==> requestState == if HasEos(respBodyResp) then BodyResponseResponsesComplete else old(requestState)
    {
      ghost var all := RespBodies(respBodyResp);
      for i := 0 to |respBodyResp|
        invariant i <= old(srv.budget) && srv.budget == old(srv.budget) - i
        invariant srv.log == old(srv.log) + SentAll(all[..i])
        invariant requestState == if HasEos(respBodyResp[..i]) then BodyResponseResponsesComplete else old(requestState)
      {
        assert SentAll(all[..i + 1]) == SentAll(all[..i]) + [Sent(RespBody(respBodyResp[i]))];
        assert respBodyResp[..i + 1] == respBodyResp[..i] + [respBodyResp[i]];
        ok := srv.Send(RespBody(respBodyResp[i]));
        if !ok {
          return;
        }
        if respBodyResp[i].eos {
          requestState := BodyResponseResponsesComplete;
        }
      }
      ok := true;
      assert all[..|all|] == all && respBodyResp[..|respBodyResp|] == respBodyResp;
    }

    method SendRequestSide(srv: Stream) returns (ok: bool)
      modifies this, srv
      ensures SendsPrefix(old(srv.log), old(srv.budget), srv.log, srv.budget, RequestFlush(old(Model())), ok)
      ensures ok ==> Model() == AfterRequest(old(Model()))
      ensures !ok ==> requestRunning == old(requestRunning) && model == old(model)
    {
      ghost var done: seq<Resp> := [];
      if requestState == RequestReceived && reqHeaderResp.Some? {
        ok := srv.Send(reqHeaderResp.value);
        done := [reqHeaderResp.value];
        if !ok {
          SendsMore(old(srv.log), old(srv.budget), srv.log, srv.budget, done,
              if reqBodyResp != [] then ReqBodies(reqBodyResp) else []);
          return;
        }
        requestState := HeaderRequestResponseComplete;
      }
      if requestState == HeaderRequestResponseComplete && |reqBodyResp| > 0 {
        ghost var log1, budget1 := srv.log, srv.budget;
        ok := SendRequestBodies(srv);
        SendsThen(old(srv.log), old(srv.budget), log1, budget1, srv.log, srv.budget, done, ReqBodies(reqBodyResp), ok);
        if !ok {
          return;
        }
        requestState := BodyRequestResponsesComplete;
        requestRunning := true;
        reqBodyResp := [];
      }
      ok := true;
    }

    method SendResponseSide(srv: Stream) returns (ok: bool)
      modifies this, srv
      ensures SendsPrefix(old(srv.log), old(srv.budget), srv.log, srv.budget, ResponseFlush(old(Model())), ok)
      ensures ok ==> Model() == AfterResponse(old(Model()))
      ensures !ok ==> requestRunning == old(requestRunning) && model == old(model)
    {
      ghost var done: seq<Resp> := [];
      if requestState == ResponseReceived && respHeaderResp {
        ok := srv.Send(RespHeader);
        done := [RespHeader];
        if !ok {
          SendsMore(old(srv.log), old(srv.budget), srv.log, srv.budget, done,
              if respBodyResp != [] then RespBodies(respBodyResp) else []);
          return;
        }
        requestState := HeaderResponseResponseComplete;
      }
      if requestState == HeaderResponseResponseComplete && |respBodyResp| > 0 {
        ghost var log1, budget1 := srv.log, srv.budget;
        ok := SendResponseBodies(srv);
        SendsThen(old(srv.log), old(srv.budget), log1, budget1, srv.log, srv.budget, done, RespBodies(respBodyResp), ok);
        if !ok {
          return;
        }
        respBodyResp := [];
      }
      ok := true;
    }

    /** The send pass: everything that is ready and in order is sent, or as much as can be. */
    method UpdateStateAndSendIfNeeded(srv: Stream) returns (ok: bool)
      modifies this, srv
      ensures SendsPrefix(old(srv.log), old(srv.budget), srv.log, srv.budget, Flush(old(Model())), ok)
      ensures ok ==> Model() == After(old(Model()))
      ensures !ok ==> requestRunning == old(requestRunning) && model == old(model)
    {
      ghost var c := Model();
      ok := SendRequestSide(srv);
      if !ok {
        SendsMore(old(srv.log), old(srv.budget), srv.log, srv.budget, RequestFlush(c), ResponseFlush(c));
        return;
      }
      ghost var log1, budget1 := srv.log, srv.budget;
      ok := SendResponseSide(srv);
      assert ResponseFlush(AfterRequest(c)) == ResponseFlush(c);
      SendsThen(old(srv.log), old(srv.budget), log1, budget1, srv.log, srv.budget, RequestFlush(c), ResponseFlush(c), ok);
    }
  }

  /** Either all of `rs` was sent and the budget reduced accordingly, or as many as the budget allowed. */
  ghost predicate SendsPrefix(log: seq<Event>, budget: nat, log': seq<Event>, budget': nat, rs: seq<Resp>, ok: bool) {
    && ok == (|rs| <= budget)
    && (ok ==> log' == log + SentAll(rs) && budget' == budget - |rs|)
    && (!ok ==> log' == log + SentAll(rs[..budget]) && budget' == 0)
  }

  lemma SendsMore(log: seq<Event>, budget: nat, log': seq<Event>, budget': nat, xs: seq<Resp>, ys: seq<Resp>)
    requires SendsPrefix(log, budget, log', budget', xs, false)
    ensures SendsPrefix(log, budget, log', budget', xs + ys, false)
  {
    assert (xs + ys)[..budget] == xs[..budget];
  }

  lemma SendsThen(log: seq<Event>, budget: nat, log1: seq<Event>, budget1: nat, log2: seq<Event>, budget2: nat,
                  xs: seq<Resp>, ys: seq<Resp>, ok: bool)
    requires SendsPrefix(log, budget, log1, budget1, xs, true)
    requires SendsPrefix(log1, budget1, log2, budget2, ys, ok)
    ensures SendsPrefix(log, budget, log2, budget2, xs + ys, ok)
  {
    if ok {
      assert SentAll(xs + ys) == SentAll(xs) + SentAll(ys);
    } else {
      assert (xs + ys)[..budget] == xs + ys[..budget1];
      assert SentAll(xs + ys[..budget1]) == SentAll(xs) + SentAll(ys[..budget1]);
    }
  }

  // ---- The receive loop

  /** The trace of a stream whose transport has `budget` sends left in all. */
  function BudgetTrace(k: Codec, c: Ctx, ms: seq<Msg>, budget: nat): seq<Event>
    decreases |ms|
  {
    if ms == [] then []
    else
      var o := Step(k, c, ms[0], budget);
      [Got(ms[0])] + SentAll(o.sent) + if o.Open? then BudgetTrace(k, o.ctx, ms[1..], budget - |o.sent|) else []
  }

  /** The budget left at each message. */
  ghost function Budgets(k: Codec, c: Ctx, ms: seq<Msg>, budget: nat): (oks: seq<nat>)
    ensures |oks| == |ms|
    decreases |ms|
  {
    if ms == [] then []
    else
      var o := Step(k, c, ms[0], budget);
      [budget] + if o.Open? then Budgets(k, o.ctx, ms[1..], budget - |o.sent|) else seq(|ms| - 1, _ => 0)
  }

  lemma {:induction false} BudgetTraceIsTrace(k: Codec, c: Ctx, ms: seq<Msg>, budget: nat)
    ensures BudgetTrace(k, c, ms, budget) == Trace(k, c, ms, Budgets(k, c, ms, budget))
    decreases |ms|
  {
    if ms != [] {
      var o, oks := Step(k, c, ms[0], budget), Budgets(k, c, ms, budget);
      assert oks[0] == budget;
      if o.Open? {
        assert oks[1..] == Budgets(k, o.ctx, ms[1..], budget - |o.sent|);
        BudgetTraceIsTrace(k, o.ctx, ms[1..], budget - |o.sent|);
      }
    }
  }

  /** What is still to come when a stream with trace `log` receives its next message. */
  ghost function Rest(k: Codec, o: Outcome, ms: seq<Msg>, budget: nat): seq<Event> {
    if o.Open? && |o.sent| <= budget then BudgetTrace(k, o.ctx, ms, budget - |o.sent|) else []
  }

  lemma {:induction false} BudgetTraceStep(k: Codec, c: Ctx, ms: seq<Msg>, budget: nat, log: seq<Event>)
    requires ms != []
    ensures var o := Step(k, c, ms[0], budget);
            log + BudgetTrace(k, c, ms, budget) == log + [Got(ms[0])] + SentAll(o.sent) + Rest(k, o, ms[1..], budget)
  {
    var o := Step(k, c, ms[0], budget);
    var rest := Rest(k, o, ms[1..], budget);
    assert BudgetTrace(k, c, ms, budget) == [Got(ms[0])] + SentAll(o.sent) + rest;
    Regroup(log, [Got(ms[0])], SentAll(o.sent), rest);
  }

  lemma Regroup<T>(a: seq<T>, b: seq<T>, c: seq<T>, d: seq<T>)
    ensures a + (b + c + d) == a + b + c + d
  {}

  /** The life of one stream: messages are handled in turn until the input ends, an error is
      answered, or sending fails. The log is in protocol order throughout. */
  method Process(k: Codec, srv: Stream, ms: seq<Msg>)
    requires srv.log == []
    modifies srv
    ensures srv.log == BudgetTrace(k, INITIAL, ms, old(srv.budget))
    ensures Ordered(srv.log)
  {
    BudgetTraceIsTrace(k, INITIAL, ms, srv.budget);
    EveryTraceInOrder(k, ms, Budgets(k, INITIAL, ms, srv.budget));
    ghost var whole := BudgetTrace(k, INITIAL, ms, srv.budget);
    var reqCtx := new RequestContext();
    ghost var rest := ms;
    for i := 0 to |ms|
      invariant fresh(reqCtx) && rest == ms[i..]
      invariant srv.log + BudgetTrace(k, reqCtx.Model(), rest, srv.budget) == whole
    {
      var open := ProcessNext(k, srv, reqCtx, ms[i], rest);
      rest := rest[1..];
      if !open {
        return;
      }
    }
  }

  /** Handling one message leaves what has been sent and what is to come together unchanged. */
  method ProcessNext(k: Codec, srv: Stream, reqCtx: RequestContext, m: Msg, ghost ms: seq<Msg>) returns (open: bool)
    requires ms != [] && ms[0] == m
    modifies srv, reqCtx
    ensures srv.log + (if open then BudgetTrace(k, reqCtx.Model(), ms[1..], srv.budget) else [])
            == old(srv.log) + BudgetTrace(k, old(reqCtx.Model()), ms, old(srv.budget))
  {
    BudgetTraceStep(k, reqCtx.Model(), ms, srv.budget, srv.log);
    open := ProcessOne(k, srv, reqCtx, m);
  }

  method ProcessOne(k: Codec, srv: Stream, reqCtx: RequestContext, m: Msg) returns (open: bool)
    modifies srv, reqCtx
    ensures var o := Step(k, old(reqCtx.Model()), m, old(srv.budget));
            && srv.log == old(srv.log) + [Got(m)] + SentAll(o.sent)
            && open == o.Open?
            && (open ==> reqCtx.Model() == o.ctx && srv.budget == old(srv.budget) - |o.sent|)
            && (!open ==> reqCtx.requestRunning == o.ctx.running && reqCtx.model == o.ctx.model)
  {
    srv.Recv(m);
    var err := reqCtx.HandleMessage(k, m);
    if err.Some? {
      var status := Status(err.value);
      if status.Some? {
        var _ := srv.Send(Immediate(status.value));
      }
      return false;
    }
    open := reqCtx.UpdateStateAndSendIfNeeded(srv);
  }
}
