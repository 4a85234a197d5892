/** What the shared body buffer holds, told from the messages received. */
module ExtProcBuffer {
  import opened Chunker
  import opened ExtProc
  import opened ExtProcBytes
  import opened Options

  /** A complete request body empties the buffer. Nothing else does, not even a complete response. */
  function NextBuffer(held: Bytes, streaming: bool, m: Msg): Bytes {
    match m
    case RequestBody(bytes, eos, _) => if eos then [] else held + bytes
    case ResponseBody(bytes, _) => if streaming then held else held + bytes
    case _ => held
  }

  function NextStreaming(streaming: bool, m: Msg): bool {
    streaming || (m.ResponseHeaders? && m.eventStream)
  }

  function Held(held: Bytes, streaming: bool, ms: seq<Msg>): Bytes
    decreases |ms|
  {
    if ms == [] then held else Held(NextBuffer(held, streaming, ms[0]), NextStreaming(streaming, ms[0]), ms[1..])
  }

  ghost predicate Tracks(f: (Ctx, Msg) -> Outcome, c: Ctx, m: Msg) {
    var o := f(c, m);
    o.Open? ==> o.ctx.body == NextBuffer(c.body, c.streaming, m) && o.ctx.streaming == NextStreaming(c.streaming, m)
  }

  lemma HandleTracks(k: Codec, c: Ctx, m: Msg)
    ensures var h := Handle(k, c, m);
            h.Ok? ==> h.ctx.body == NextBuffer(c.body, c.streaming, m) && h.ctx.streaming == NextStreaming(c.streaming, m)
  {}

  lemma AfterKeepsBuffer(c: Ctx)
    ensures After(c).body == c.body && After(c).streaming == c.streaming
  {}

  lemma DeliveryTracks(k: Codec, c: Ctx, m: Msg)
    ensures Tracks(Delivery(k), c, m)
  {
    HandleTracks(k, c, m);
    AfterKeepsBuffer(Handle(k, c, m).ctx);
  }

  lemma {:induction false} FoldTracks(f: (Ctx, Msg) -> Outcome, c: Ctx, ms: seq<Msg>)
    requires (forall x, m :: Tracks(f, x, m)) && Fold(f, c, ms).Open?
    ensures Fold(f, c, ms).ctx.body == Held(c.body, c.streaming, ms)
    decreases |ms|
  {
    if ms != [] {
      assert Tracks(f, c, ms[0]);
      FoldTracks(f, f(c, ms[0]).ctx, ms[1..]);
    }
  }

  /** In every exchange that is still open the buffer holds what the messages say. */
  lemma BufferOfRun(k: Codec, ms: seq<Msg>)
    requires Exchange(k, INITIAL, ms).Open?
    ensures Exchange(k, INITIAL, ms).ctx.body == Held([], false, ms)
  {
    forall x, m ensures Tracks(Delivery(k), x, m) {
      DeliveryTracks(k, x, m);
    }
    FoldTracks(Delivery(k), INITIAL, ms);
  }

  /** A response that is not JSON, after any messages: what was held comes before it, so it arrives byte
      for byte exactly when nothing was. */
  lemma RawResponseOfRun(k: Codec, ms: seq<Msg>, parts: seq<Bytes>)
    requires Exchange(k, INITIAL, ms).Open? && Buffering(Exchange(k, INITIAL, ms).ctx) && parts != []
    requires k.decode(Exchange(k, INITIAL, ms).ctx.responseJson, Held([], false, ms) + Join(parts)) == None
    ensures var out := RespBodies(Split(Held([], false, ms) + Join(parts), true));
            && Exchange(k, INITIAL, ms + ResponseBodies(parts)).sent == Exchange(k, INITIAL, ms).sent + out
            && (ResponseBytes(out) == Join(parts) <==> Held([], false, ms) == [])
  {
    var c := Exchange(k, INITIAL, ms).ctx;
    BufferOfRun(k, ms);
    BufferedThenSent(k, c, parts);
    RawResponseIff(k, c, parts);
    ExchangeAppend(k, INITIAL, ms, ResponseBodies(parts));
  }

  /** A decoded response is remembered, and the next one on the stream is decoded into it. */
  lemma ResponseRemembered(k: Codec, c: Ctx, bytes: Bytes)
    requires Buffering(c)
    ensures var o, j := Deliver(k, c, ResponseBody(bytes, true)), k.decode(c.responseJson, c.body + bytes);
            o.Open? && o.ctx.responseJson == if j.Some? then j.value else c.responseJson
  {}

  // ---- Exchanges on which it differs

  lemma OneChunk(bytes: Bytes)
    requires |bytes| <= BODY_BYTE_LIMIT
    ensures RespBodies(Split(bytes, true)) == [RespBody(Chunk(bytes, true))]
  {}

  lemma TwoSteps(k: Codec, c: Ctx, m1: Msg, c1: Ctx, r1: seq<Resp>, m2: Msg, c2: Ctx, r2: seq<Resp>)
    requires Deliver(k, c, m1) == Open(c1, r1) && Deliver(k, c1, m2) == Open(c2, r2)
    ensures Exchange(k, c, [m1, m2]) == Open(c2, r1 + r2)
  {
    ExchangeOne(k, c, m1);
    ExchangeOne(k, c1, m2);
    ExchangeAppend(k, c, [m1], [m2]);
    assert [m1] + [m2] == [m1, m2];
  }

  lemma HeaderStep(k: Codec, c: Ctx)
    requires c.respChunks == [] && c.reqChunks == [] && !c.streaming
    ensures Deliver(k, c, ResponseHeaders(false)) == Open(c.(phase := HeaderResponseResponseComplete,
        respHeader := true), [RespHeader])
  {}

  /** One more byte in answer to a context that holds one. */
  lemma OneMoreByte(k: Codec, ms: seq<Msg>, c: Ctx, sent: seq<Resp>)
    requires Exchange(k, INITIAL, ms) == Open(c, sent) && Buffering(c) && c.body == [1] && c.responseJson == EMPTY_JSON
    requires k.decode(EMPTY_JSON, [1, 2]) == None
    ensures Exchange(k, INITIAL, ms + ResponseBodies([[2]])).sent == sent + [RespBody(Chunk([1, 2], true))]
  {
    var parts: seq<Bytes> := [[2]];
    BufferOfRun(k, ms);
    assert Held([], false, ms) + Join(parts) == [1, 2];
    RawResponseOfRun(k, ms, parts);
    OneChunk([1, 2]);
  }

  /** A request cut short by the response. */
  lemma LeftoverRequest(k: Codec, a: Answer)
    requires k.decode(EMPTY_JSON, [1, 2]) == None
    ensures Exchange(k, INITIAL, [RequestBody([1], false, a), ResponseHeaders(false)] + ResponseBodies([[2]])).sent
            == [RespHeader, RespBody(Chunk([1, 2], true))]
  {
    var m1, m2 := RequestBody([1], false, a), ResponseHeaders(false);
    var c1 := INITIAL.(body := [1]);
    var c2 := c1.(phase := HeaderResponseResponseComplete, respHeader := true);
    assert INITIAL.body + [1] == [1];
    HeaderStep(k, c1);
    TwoSteps(k, INITIAL, m1, c1, [], m2, c2, [RespHeader]);
    OneMoreByte(k, [m1, m2], c2, [] + [RespHeader]);
    assert [] + [RespHeader] + [RespBody(Chunk([1, 2], true))] == [RespHeader, RespBody(Chunk([1, 2], true))];
  }

  lemma FirstResponse(k: Codec, c: Ctx)
    requires Buffering(c) && c.body == [] && k.decode(c.responseJson, [1]) == None && c.reqChunks == []
    requires c.phase == HeaderResponseResponseComplete
    ensures Deliver(k, c, ResponseBody([1], true)) ==
              Open(c.(phase := BodyResponseResponsesComplete, body := [1]), [RespBody(Chunk([1], true))])
  {
    OneChunk([1]);
    SplitMark([1], true);
    assert c.body + [1] == [1];
  }

  /** A second response on the same stream begins with the first. */
  lemma LeftoverResponse(k: Codec)
    requires k.decode(EMPTY_JSON, [1]) == None && k.decode(EMPTY_JSON, [1, 2]) == None
    ensures Exchange(k, INITIAL, [ResponseHeaders(false), ResponseBody([1], true), ResponseHeaders(false)] +
        ResponseBodies([[2]])).sent
            == [RespHeader, RespBody(Chunk([1], true)), RespHeader, RespBody(Chunk([1, 2], true))]
  {
    var h, b := ResponseHeaders(false), ResponseBody([1], true);
    var c1 := INITIAL.(phase := HeaderResponseResponseComplete, respHeader := true);
    var c2 := c1.(phase := BodyResponseResponsesComplete, body := [1]);
    var c3 := c2.(phase := HeaderResponseResponseComplete);
    var sent := [RespHeader] + [RespBody(Chunk([1], true))];
    HeaderStep(k, INITIAL);
    FirstResponse(k, c1);
    HeaderStep(k, c2);
    TwoSteps(k, INITIAL, h, c1, [RespHeader], b, c2, [RespBody(Chunk([1], true))]);
    ExchangeOne(k, c2, h);
    ExchangeAppend(k, INITIAL, [h, b], [h]);
    assert [h, b] + [h] == [h, b, h];
    OneMoreByte(k, [h, b, h], c3, sent + [RespHeader]);
  }
}
