/** What a complete exchange sends, byte for byte, when the transport does not fail. */
module ExtProcBytes {
  import opened Chunker
  import opened ExtProc
  import opened Options

  /** One message with all its responses sent. */
  function Deliver(k: Codec, c: Ctx, m: Msg): Outcome {
    Step(k, c, m, |Flush(Handle(k, c, m).ctx)| + 1)
  }

  /** A sequence of messages; the responses are collected. A closed stream receives nothing more. */
  function Fold(f: (Ctx, Msg) -> Outcome, c: Ctx, ms: seq<Msg>): Outcome
    decreases |ms|
  {
    if ms == [] then Open(c, [])
    else
      var o := f(c, ms[0]);
      if o.Closed? then o
      else
        var rest := Fold(f, o.ctx, ms[1..]);
        rest.(sent := o.sent + rest.sent)
  }

  function Delivery(k: Codec): (Ctx, Msg) -> Outcome {
    (c, m) => Deliver(k, c, m)
  }

  function Exchange(k: Codec, c: Ctx, ms: seq<Msg>): Outcome {
    Fold(Delivery(k), c, ms)
  }

  lemma {:induction false} FoldAppend(f: (Ctx, Msg) -> Outcome, c: Ctx, a: seq<Msg>, b: seq<Msg>)
    requires Fold(f, c, a).Open?
    ensures var first := Fold(f, c, a);
            var rest := Fold(f, first.ctx, b);
            Fold(f, c, a + b) == rest.(sent := first.sent + rest.sent)
    decreases |a|
  {
    if a == [] {
      assert a + b == b;
      assert [] + Fold(f, c, b).sent == Fold(f, c, b).sent;
    } else {
      var o := f(c, a[0]);
      assert (a + b)[0] == a[0] && (a + b)[1..] == a[1..] + b;
      FoldAppend(f, o.ctx, a[1..], b);
      var first := Fold(f, o.ctx, a[1..]);
      var rest := Fold(f, first.ctx, b);
      assert o.sent + (first.sent + rest.sent) == o.sent + first.sent + rest.sent;
    }
  }

  lemma ExchangeAppend(k: Codec, c: Ctx, a: seq<Msg>, b: seq<Msg>)
    requires Exchange(k, c, a).Open?
    ensures var first := Exchange(k, c, a);
            var rest := Exchange(k, first.ctx, b);
            Exchange(k, c, a + b) == rest.(sent := first.sent + rest.sent)
  {
    FoldAppend(Delivery(k), c, a, b);
  }

  lemma ExchangeStep(k: Codec, c: Ctx, ms: seq<Msg>)
    requires ms != [] && Deliver(k, c, ms[0]).Open?
    ensures var o := Deliver(k, c, ms[0]);
            var rest := Exchange(k, o.ctx, ms[1..]);
            Exchange(k, c, ms) == rest.(sent := o.sent + rest.sent)
  {}

  lemma ExchangeOne(k: Codec, c: Ctx, m: Msg)
    requires Deliver(k, c, m).Open?
    ensures Exchange(k, c, [m]) == Deliver(k, c, m)
  {
    var o := Deliver(k, c, m);
    assert [m][1..] == [];
    ExchangeStep(k, c, [m]);
    assert Exchange(k, o.ctx, []) == Open(o.ctx, []);
    assert o.sent + [] == o.sent;
  }

  function Join(parts: seq<Bytes>): Bytes {
    if parts == [] then [] else parts[0] + Join(parts[1..])
  }

  /** A body that arrives in parts, the last one marked. */
  function RequestBodies(parts: seq<Bytes>, answer: Answer): seq<Msg> {
    seq(|parts|, i requires 0 <= i < |parts| => RequestBody(parts[i], i == |parts| - 1, answer))
  }

  function ResponseBodies(parts: seq<Bytes>): seq<Msg> {
    seq(|parts|, i requires 0 <= i < |parts| => ResponseBody(parts[i], i == |parts| - 1))
  }

  /** The bytes of the response chunks among some responses. */
  function ResponseBytes(rs: seq<Resp>): Bytes {
    if rs == [] then []
    else (if rs[0].RespBody? then rs[0].chunk.body else []) + ResponseBytes(rs[1..])
  }

  function RequestBytes(rs: seq<Resp>): Bytes {
    if rs == [] then []
    else (if rs[0].ReqBody? then rs[0].chunk.body else []) + RequestBytes(rs[1..])
  }

  lemma {:induction false} BatchBytes(cs: seq<Chunk>)
    ensures ResponseBytes(RespBodies(cs)) == Concat(cs)
    ensures RequestBytes(ReqBodies(cs)) == Concat(cs)
  {
    if cs != [] {
      BatchBytes(cs[1..]);
      assert RespBodies(cs)[1..] == RespBodies(cs[1..]);
      assert ReqBodies(cs)[1..] == ReqBodies(cs[1..]);
    }
  }

  lemma SplitMark(bs: Bytes, eos: bool)
    ensures HasEos(Split(bs, eos)) == eos
  {
    var cs := Split(bs, eos);
    ChunksSplit(bs, BODY_BYTE_LIMIT, eos);
    if eos {
      assert cs[|cs| - 1] in cs;
    }
  }

  lemma SplitFacts(bs: Bytes, eos: bool)
    ensures HasEos(Split(bs, eos)) == eos
    ensures ResponseBytes(RespBodies(Split(bs, eos))) == bs
    ensures RequestBytes(ReqBodies(Split(bs, eos))) == bs
  {
    SplitMark(bs, eos);
    ChunksSplit(bs, BODY_BYTE_LIMIT, eos);
    BatchBytes(Split(bs, eos));
  }

  // ---- The request side

  /** While a request body arrives in parts nothing is sent and the bytes pile up. */
  lemma {:induction false} RequestArrives(k: Codec, c: Ctx, parts: seq<Bytes>, answer: Answer, j: Json, bs: Bytes)
    requires c.phase == RequestReceived && c.reqHeader == None && c.reqChunks == [] && c.respChunks == []
    requires parts != []
    requires answer.Routed? && k.decode(c.requestJson, c.body + Join(parts)) == Some(j) &&
        k.encode(answer.body) == Some(bs)
    ensures Exchange(k, c, RequestBodies(parts, answer)) ==
              Open(c.(phase := BodyRequestResponsesComplete, running := true, body := [], model := answer.model,
                      endpoint := answer.endpoint, requestJson := answer.body, requestSize := |bs|,
                      reqHeader := Some(HeaderFor(answer.endpoint, |bs|, c.received))),
                   [HeaderFor(answer.endpoint, |bs|, c.received)] + ReqBodies(Split(bs, true)))
    decreases |parts|
  {
    var ms := RequestBodies(parts, answer);
    if |parts| == 1 {
      assert Join(parts) == parts[0];
      assert ms == [RequestBody(parts[0], true, answer)];
      ExchangeOne(k, c, ms[0]);
    } else {
      var c1 := c.(body := c.body + parts[0]);
      assert Deliver(k, c, ms[0]) == Open(c1, []);
      assert ms[1..] == RequestBodies(parts[1..], answer);
      assert c1.body + Join(parts[1..]) == c.body + Join(parts);
      RequestArrives(k, c1, parts[1..], answer, j, bs);
    }
  }

  // ---- The response side

  ghost predicate RespOpen(c: Ctx) {
    c.phase == HeaderResponseResponseComplete && c.respChunks == []
  }

  ghost predicate Buffering(c: Ctx) {
    RespOpen(c) && !c.streaming
  }

  /** In event-stream mode every part goes out as it comes, up to and including the last. */
  lemma {:induction false} StreamedThrough(k: Codec, c: Ctx, bytes: Bytes, eos: bool)
    requires RespOpen(c) && c.streaming
    ensures var o := Deliver(k, c, ResponseBody(bytes, eos));
            && o == Open(c.(phase := if eos then BodyResponseResponsesComplete else c.phase),
                RespBodies(Split(bytes, eos)))
            && ResponseBytes(o.sent) == bytes
  {
    SplitFacts(bytes, eos);
  }

  /** The chunks of the first `n` parts of an event stream, each part split on its own. */
  function StreamChunks(parts: seq<Bytes>, n: nat): seq<Chunk>
    requires n <= |parts|
    decreases n
  {
    if n == 0 then [] else Split(parts[0], |parts| == 1) + StreamChunks(parts[1..], n - 1)
  }

  lemma {:induction false} StreamBytes(parts: seq<Bytes>, n: nat)
    requires n <= |parts|
    ensures Concat(StreamChunks(parts, n)) == Join(parts[..n])
    decreases n
  {
    if n > 0 {
      ChunksSplit(parts[0], BODY_BYTE_LIMIT, |parts| == 1);
      StreamBytes(parts[1..], n - 1);
      ConcatAppend(Split(parts[0], |parts| == 1), StreamChunks(parts[1..], n - 1));
      assert parts[..n][1..] == parts[1..][..n - 1];
    }
  }

  lemma EosAppend(a: seq<Chunk>, b: seq<Chunk>)
    requires a != [] && EosOnlyLast(a) && EosOnlyLast(b) && (b != [] ==> !a[|a| - 1].eos)
    ensures EosOnlyLast(a + b)
    ensures (a + b)[|a + b| - 1].eos == if b == [] then a[|a| - 1].eos else b[|b| - 1].eos
  {
    forall i | 0 <= i < |a + b| - 1 ensures !(a + b)[i].eos {
      assert i < |a| ==> (a + b)[i] == a[i];
    }
  }

  /** End of stream is set on the very last chunk and on no other. */
  lemma {:induction false} StreamMarks(parts: seq<Bytes>, n: nat)
    requires n <= |parts|
    ensures var cs := StreamChunks(parts, n);
            EosOnlyLast(cs) && (n > 0 ==> cs != [] && (cs[|cs| - 1].eos <==> n == |parts|))
    decreases n
  {
    if n > 0 {
      ChunksSplit(parts[0], BODY_BYTE_LIMIT, |parts| == 1);
      StreamMarks(parts[1..], n - 1);
      EosAppend(Split(parts[0], |parts| == 1), StreamChunks(parts[1..], n - 1));
    }
  }

  /** A part is passed on whole and leaves the context `after`. */
  ghost predicate Relays(f: (Ctx, Msg) -> Outcome, c: Ctx, bytes: Bytes, eos: bool, after: Ctx) {
    f(c, ResponseBody(bytes, eos)) == Open(after, RespBodies(Split(bytes, eos)))
  }

  lemma {:induction false} FoldRelays(f: (Ctx, Msg) -> Outcome, c: Ctx, after: Ctx, parts: seq<Bytes>, n: nat)
    requires n <= |parts|
    requires forall b :: Relays(f, c, b, false, c) && Relays(f, c, b, true, after)
    ensures Fold(f, c, ResponseBodies(parts)[..n]) ==
              Open(if 0 < n == |parts| then after else c, RespBodies(StreamChunks(parts, n)))
    decreases n
  {
    if n > 0 {
      var ms := ResponseBodies(parts)[..n];
      var o := f(c, ms[0]);
      assert Relays(f, c, parts[0], false, c) && Relays(f, c, parts[0], true, after);
      assert ms[1..] == ResponseBodies(parts[1..])[..n - 1];
      FoldRelays(f, c, after, parts[1..], n - 1);
      RespBodiesAppend(Split(parts[0], |parts| == 1), StreamChunks(parts[1..], n - 1));
      if |parts| == 1 {
        assert ms[1..] == [];
        assert o.sent + [] == o.sent;
      }
    }
  }

  lemma RespBodiesAppend(a: seq<Chunk>, b: seq<Chunk>)
    ensures RespBodies(a + b) == RespBodies(a) + RespBodies(b)
  {}

  /** After any number of parts of an event stream: the chunks sent are those of the parts, hence the bytes
      sent are the bytes received; end of stream is marked once, at the end, when the last part has come. */
  lemma StreamedSoFar(k: Codec, c: Ctx, parts: seq<Bytes>, n: nat)
    requires RespOpen(c) && c.streaming && n <= |parts|
    ensures var o, cs := Exchange(k, c, ResponseBodies(parts)[..n]), StreamChunks(parts, n);
            && o.Open? && o.sent == RespBodies(cs) && ResponseBytes(o.sent) == Join(parts[..n])
            && EosOnlyLast(cs) && (HasEos(cs) <==> 0 < n == |parts|)
            && (o.ctx.phase == BodyResponseResponsesComplete <==> 0 < n == |parts|)
  {
    var after, cs := c.(phase := BodyResponseResponsesComplete), StreamChunks(parts, n);
    forall b ensures Relays(Delivery(k), c, b, false, c) && Relays(Delivery(k), c, b, true, after) {
      StreamedThrough(k, c, b, false);
      StreamedThrough(k, c, b, true);
    }
    FoldRelays(Delivery(k), c, after, parts, n);
    StreamMarks(parts, n);
    StreamBytes(parts, n);
    BatchBytes(cs);
    assert 0 < n ==> cs[|cs| - 1] in cs;
  }

  /** The responses to a buffered body: the body itself if it is not JSON, its re-encoding if it is. */
  function Buffered(k: Codec, into: Json, body: Bytes): seq<Resp> {
    match k.decode(into, body)
    case None => RespBodies(Split(body, true))
    case Some(j) =>
      match k.encode(j)
      case None => []
      case Some(bs) => RespBodies(Split(bs, true))
  }

  /** A part that is not the last is put aside. */
  ghost predicate Holds(f: (Ctx, Msg) -> Outcome, c: Ctx, bytes: Bytes) {
    f(c, ResponseBody(bytes, false)) == Open(c.(body := c.body + bytes), [])
  }

  lemma BufferedPart(k: Codec, c: Ctx, bytes: Bytes)
    requires Buffering(c)
    ensures Holds(Delivery(k), c, bytes)
  {}

  lemma {:induction false} FoldHolds(f: (Ctx, Msg) -> Outcome, c: Ctx, parts: seq<Bytes>, n: nat)
    requires Buffering(c) && n < |parts|
    requires forall x, b :: Buffering(x) ==> Holds(f, x, b)
    ensures Fold(f, c, ResponseBodies(parts)[..n]) == Open(c.(body := c.body + Join(parts[..n])), [])
    decreases n
  {
    if n == 0 {
      assert c.body + [] == c.body;
    } else {
      var ms, c1 := ResponseBodies(parts)[..n], c.(body := c.body + parts[0]);
      assert Holds(f, c, parts[0]);
      assert ms[1..] == ResponseBodies(parts[1..])[..n - 1];
      FoldHolds(f, c1, parts[1..], n - 1);
      assert parts[..n][1..] == parts[1..][..n - 1];
      assert c1.body + Join(parts[1..][..n - 1]) == c.body + Join(parts[..n]);
    }
  }

  /** The last part sends `out`. */
  ghost predicate Releases(f: (Ctx, Msg) -> Outcome, c: Ctx, bytes: Bytes, out: seq<Resp>) {
    var o := f(c, ResponseBody(bytes, true));
    o.Open? && o.sent == out
  }

  lemma {:induction false} FoldReleases(f: (Ctx, Msg) -> Outcome, c: Ctx, parts: seq<Bytes>, n: nat, out: seq<Resp>)
    requires Buffering(c) && n == |parts| - 1
    requires forall x, b :: Buffering(x) ==> Holds(f, x, b)
    requires Releases(f, c.(body := c.body + Join(parts[..n])), parts[n], out)
    ensures var o := Fold(f, c, ResponseBodies(parts));
            o.Open? && o.sent == out
  {
    var ms, c1 := ResponseBodies(parts), c.(body := c.body + Join(parts[..n]));
    var o := f(c1, ms[n]);
    FoldHolds(f, c, parts, n);
    FoldAppend(f, c, ms[..n], [ms[n]]);
    assert ms == ms[..n] + [ms[n]];
    assert [ms[n]][1..] == [] && Fold(f, o.ctx, []) == Open(o.ctx, []);
    assert o.sent + [] == o.sent && [] + o.sent == o.sent;
  }

  lemma {:induction false} JoinLast(parts: seq<Bytes>, n: nat)
    requires n == |parts| - 1
    ensures Join(parts) == Join(parts[..n]) + parts[n]
    decreases n
  {
    if n == 0 {
      assert Join(parts) == parts[0];
    } else {
      JoinLast(parts[1..], n - 1);
      assert parts[1..][..n - 1] == parts[..n][1..];
    }
  }

  lemma BufferingHolds(k: Codec)
    ensures forall c, b :: Buffering(c) ==> Holds(Delivery(k), c, b)
  {
    forall c, b | Buffering(c) ensures Holds(Delivery(k), c, b) {
      BufferedPart(k, c, b);
    }
  }

  /** Nothing is sent before the last part. */
  lemma HeldBack(k: Codec, c: Ctx, parts: seq<Bytes>, n: nat)
    requires Buffering(c) && n < |parts|
    ensures Exchange(k, c, ResponseBodies(parts)[..n]) == Open(c.(body := c.body + Join(parts[..n])), [])
  {
    BufferingHolds(k);
    FoldHolds(Delivery(k), c, parts, n);
  }

  lemma BufferedLast(k: Codec, c: Ctx, bytes: Bytes)
    requires Buffering(c)
    ensures Releases(Delivery(k), c, bytes, Buffered(k, c.responseJson, c.body + bytes))
  {}

  /** Parts are put aside until the last, which sends everything. */
  ghost predicate Buffers(f: (Ctx, Msg) -> Outcome, k: Codec) {
    && (forall c, b :: Buffering(c) ==> Holds(f, c, b))
    && (forall c, b :: Buffering(c) ==> Releases(f, c, b, Buffered(k, c.responseJson, c.body + b)))
  }

  lemma DeliveryBuffers(k: Codec)
    ensures Buffers(Delivery(k), k)
  {
    BufferingHolds(k);
    forall c, b | Buffering(c) ensures Releases(Delivery(k), c, b, Buffered(k, c.responseJson, c.body + b)) {
      BufferedLast(k, c, b);
    }
  }

  lemma FoldBuffers(f: (Ctx, Msg) -> Outcome, k: Codec, c: Ctx, parts: seq<Bytes>)
    requires Buffers(f, k) && Buffering(c) && parts != []
    ensures var o := Fold(f, c, ResponseBodies(parts));
            o.Open? && o.sent == Buffered(k, c.responseJson, c.body + Join(parts))
  {
    var n, out := |parts| - 1, Buffered(k, c.responseJson, c.body + Join(parts));
    var c1 := c.(body := c.body + Join(parts[..n]));
    HeldAndLast(c.body, parts, n);
    assert Releases(f, c1, parts[n], Buffered(k, c1.responseJson, c1.body + parts[n]));
    FoldReleases(f, c, parts, n, out);
  }

  lemma {:induction false} HeldAndLast(held: Bytes, parts: seq<Bytes>, n: nat)
    requires n == |parts| - 1
    ensures held + Join(parts[..n]) + parts[n] == held + Join(parts)
  {
    JoinLast(parts, n);
  }

  /** In buffered mode all of the response is sent with its last part. */
  lemma BufferedThenSent(k: Codec, c: Ctx, parts: seq<Bytes>)
    requires Buffering(c) && parts != []
    ensures Exchange(k, c, ResponseBodies(parts)).Open?
    ensures Exchange(k, c, ResponseBodies(parts)).sent == Buffered(k, c.responseJson, c.body + Join(parts))
  {
    DeliveryBuffers(k);
    FoldBuffers(Delivery(k), k, c, parts);
  }

  /** A response that is not JSON comes out byte for byte exactly when the buffer was empty before it. */
  lemma RawResponseIff(k: Codec, c: Ctx, parts: seq<Bytes>)
    requires Buffering(c) && parts != []
    requires k.decode(c.responseJson, c.body + Join(parts)) == None
    ensures ResponseBytes(Exchange(k, c, ResponseBodies(parts)).sent) == c.body + Join(parts)
    ensures ResponseBytes(Exchange(k, c, ResponseBodies(parts)).sent) == Join(parts) <==> c.body == []
  {
    BufferedThenSent(k, c, parts);
    SplitFacts(c.body + Join(parts), true);
    assert |c.body + Join(parts)| == |c.body| + |Join(parts)|;
    assert c.body == [] ==> c.body + Join(parts) == Join(parts);
  }

  // ---- The whole exchange

  /** Everything before the response body: the request header response announcing the length of the
      re-encoded request, that request in chunks, and the response header response. */
  lemma UpToResponse(k: Codec, pick: Pick, length: Option<nat>, req: seq<Bytes>, answer: Answer, j: Json,
                     bs: Bytes, eventStream: bool)
    requires req != []
    requires answer.Routed? && k.decode(EMPTY_JSON, Join(req)) == Some(j) && k.encode(answer.body) == Some(bs)
    ensures var o := Exchange(k, INITIAL, [RequestHeaders(false, pick, length)] + RequestBodies(req, answer) +
        [ResponseHeaders(eventStream)]);
            && o.Open? && RespOpen(o.ctx) && o.ctx.streaming == eventStream && o.ctx.body == [] &&
                o.ctx.responseJson == EMPTY_JSON
            && o.sent == [HeaderFor(answer.endpoint, |bs|, length)] + ReqBodies(Split(bs, true)) + [RespHeader]
  {
    var m1, m2, m3 := [RequestHeaders(false, pick, length)], RequestBodies(req, answer), [ResponseHeaders(eventStream)];
    UpToRequest(k, pick, length, req, answer, j, bs);
    var o2 := Exchange(k, INITIAL, m1 + m2);
    ResponseHeaderSent(k, o2.ctx, eventStream);
    ExchangeOne(k, o2.ctx, m3[0]);
    ExchangeAppend(k, INITIAL, m1 + m2, m3);
  }

  lemma ResponseHeaderSent(k: Codec, c: Ctx, eventStream: bool)
    requires c.phase == BodyRequestResponsesComplete && c.respChunks == [] && !c.streaming
    ensures Deliver(k, c, ResponseHeaders(eventStream)) ==
              Open(c.(phase := HeaderResponseResponseComplete, streaming := eventStream, respHeader := true), [RespHeader])
  {}

  lemma UpToRequest(k: Codec, pick: Pick, length: Option<nat>, req: seq<Bytes>, answer: Answer, j: Json, bs: Bytes)
    requires req != []
    requires answer.Routed? && k.decode(EMPTY_JSON, Join(req)) == Some(j) && k.encode(answer.body) == Some(bs)
    ensures var o := Exchange(k, INITIAL, [RequestHeaders(false, pick, length)] + RequestBodies(req, answer));
            && o.Open? && o.ctx.phase == BodyRequestResponsesComplete && o.ctx.respChunks == [] && !o.ctx.streaming
            && o.ctx.body == [] && o.ctx.responseJson == EMPTY_JSON
            && o.sent == [HeaderFor(answer.endpoint, |bs|, length)] + ReqBodies(Split(bs, true))
  {
    var m1, m2, c1 := [RequestHeaders(false, pick, length)], RequestBodies(req, answer), INITIAL.(received := length);
    ExchangeOne(k, INITIAL, m1[0]);
    assert Exchange(k, INITIAL, m1) == Open(c1, []);
    assert c1.body + Join(req) == Join(req);
    RequestArrives(k, c1, req, answer, j, bs);
    ExchangeAppend(k, INITIAL, m1, m2);
    assert [] + Exchange(k, c1, m2).sent == Exchange(k, c1, m2).sent;
  }

  /** A well-formed exchange in buffered mode sends exactly that and the response. */
  lemma WholeExchange(k: Codec, pick: Pick, length: Option<nat>, req: seq<Bytes>, answer: Answer, j: Json,
                      bs: Bytes, resp: seq<Bytes>)
    requires req != [] && resp != []
    requires answer.Routed? && k.decode(EMPTY_JSON, Join(req)) == Some(j) && k.encode(answer.body) == Some(bs)
    ensures Exchange(k, INITIAL, [RequestHeaders(false, pick, length)] + RequestBodies(req, answer) +
        [ResponseHeaders(false)] + ResponseBodies(resp)).sent
            == [HeaderFor(answer.endpoint, |bs|, length)] + ReqBodies(Split(bs, true)) + [RespHeader] +
                Buffered(k, EMPTY_JSON, Join(resp))
  {
    var ms := [RequestHeaders(false, pick, length)] + RequestBodies(req, answer) + [ResponseHeaders(false)];
    UpToResponse(k, pick, length, req, answer, j, bs, false);
    var o := Exchange(k, INITIAL, ms);
    assert o.ctx.body + Join(resp) == Join(resp);
    BufferedThenSent(k, o.ctx, resp);
    ExchangeAppend(k, INITIAL, ms, ResponseBodies(resp));
  }

  /** A well-formed exchange in event-stream mode, after any number of parts: the chunks of those parts. */
  lemma WholeStream(k: Codec, pick: Pick, length: Option<nat>, req: seq<Bytes>, answer: Answer, j: Json,
                    bs: Bytes, resp: seq<Bytes>, n: nat)
    requires req != [] && n <= |resp|
    requires answer.Routed? && k.decode(EMPTY_JSON, Join(req)) == Some(j) && k.encode(answer.body) == Some(bs)
    ensures Exchange(k, INITIAL, [RequestHeaders(false, pick, length)] + RequestBodies(req, answer) +
        [ResponseHeaders(true)] + ResponseBodies(resp)[..n]).sent
            == [HeaderFor(answer.endpoint, |bs|, length)] + ReqBodies(Split(bs, true)) + [RespHeader] +
                RespBodies(StreamChunks(resp, n))
    ensures Concat(StreamChunks(resp, n)) == Join(resp[..n]) && EosOnlyLast(StreamChunks(resp, n))
    ensures HasEos(StreamChunks(resp, n)) <==> 0 < n == |resp|
  {
    var ms := [RequestHeaders(false, pick, length)] + RequestBodies(req, answer) + [ResponseHeaders(true)];
    UpToResponse(k, pick, length, req, answer, j, bs, true);
    var o := Exchange(k, INITIAL, ms);
    StreamedSoFar(k, o.ctx, resp, n);
    StreamBytes(resp, n);
    ExchangeAppend(k, INITIAL, ms, ResponseBodies(resp)[..n]);
  }
}
