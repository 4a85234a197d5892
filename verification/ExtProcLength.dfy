/** Everything a stream ever sends on the request side, and the length it announces for it. */
module ExtProcLength {
  import opened Chunker
  import opened ExtProc
  import opened ExtProcBytes
  import opened ExtProcOrder
  import opened Options

  predicate RequestSide(r: Resp) {
    r.ReqHeader? || r.ReqBody?
  }

  /** The request-side responses of a trace, in order. */
  function Requests(t: seq<Event>): seq<Resp> {
    if t == [] then []
    else (if t[0].Sent? && RequestSide(t[0].resp) then [t[0].resp] else []) + Requests(t[1..])
  }

  lemma {:induction false} RequestsAppend(a: seq<Event>, b: seq<Event>)
    ensures Requests(a + b) == Requests(a) + Requests(b)
  {
    if a == [] {
      assert a + b == b;
    } else {
      assert (a + b)[1..] == a[1..] + b;
      RequestsAppend(a[1..], b);
    }
  }

  lemma {:induction false} AllRequests(rs: seq<Resp>)
    requires forall r :: r in rs ==> RequestSide(r)
    ensures Requests(SentAll(rs)) == rs
  {
    if rs != [] {
      assert SentAll(rs)[1..] == SentAll(rs[1..]);
      AllRequests(rs[1..]);
    }
  }

  lemma {:induction false} NoRequests(rs: seq<Resp>)
    requires forall r :: r in rs ==> !RequestSide(r)
    ensures Requests(SentAll(rs)) == []
  {
    if rs != [] {
      assert SentAll(rs)[1..] == SentAll(rs[1..]);
      NoRequests(rs[1..]);
    }
  }

  // ---- Where a stream is on its request side

  ghost predicate Fresh(c: Ctx) {
    c.phase == RequestReceived && c.reqHeader == None && c.reqChunks == []
  }

  ghost predicate HeaderOut(c: Ctx) {
    c.phase == HeaderRequestResponseComplete && c.reqChunks == []
  }

  predicate Past(c: Ctx) {
    c.phase != RequestReceived && c.phase != HeaderRequestResponseComplete
  }

  /** The bytes are the encoding of some request. */
  ghost predicate Encoded(k: Codec, bs: Bytes) {
    exists j :: k.encode(j) == Some(bs)
  }

  ghost predicate HoldsBody(k: Codec, c: Ctx, bs: Bytes) {
    Encoded(k, bs) && c.reqChunks == Split(bs, true)
  }

  /** The header response and the body that goes with it. */
  function Whole(head: Resp, bs: Bytes): seq<Resp> {
    [head] + ReqBodies(Split(bs, true))
  }

  /** A generated length is that of the body. */
  ghost predicate Honest(k: Codec, head: Resp, bs: Bytes) {
    head.ReqHeader? && (head.contentLength.Some? ==> Encoded(k, bs) && head.contentLength.value == |bs|)
  }

  lemma HandleFresh(k: Codec, c: Ctx, m: Msg) returns (bs: Bytes)
    requires Fresh(c)
    ensures var h := Handle(k, c, m);
            h.Ok? ==>
              || Past(h.ctx) || Fresh(h.ctx)
              || (h.ctx.phase == RequestReceived && h.ctx.reqChunks == [] &&
                  h.ctx.reqHeader == Some(ReqHeader(h.ctx.endpoint, None, h.ctx.received)))
              || (h.ctx.phase == RequestReceived && HoldsBody(k, h.ctx, bs) &&
                  h.ctx.reqHeader == Some(HeaderFor(h.ctx.endpoint, |bs|, h.ctx.received)))
  {
    bs := [];
    if m.RequestBody? && m.answer.Routed? {
      var coded := k.encode(m.answer.body);
      bs := if coded.Some? then coded.value else [];
    }
  }

  lemma HandleHeaderOut(k: Codec, c: Ctx, m: Msg) returns (bs: Bytes)
    requires HeaderOut(c)
    ensures var h := Handle(k, c, m);
            h.Ok? ==> || Past(h.ctx) || HeaderOut(h.ctx)
                      || (h.ctx.phase == HeaderRequestResponseComplete && HoldsBody(k, h.ctx, bs))
  {
    bs := [];
    if m.RequestBody? && m.answer.Routed? {
      var coded := k.encode(m.answer.body);
      bs := if coded.Some? then coded.value else [];
    }
  }

  lemma HandlePast(k: Codec, c: Ctx, m: Msg)
    requires Past(c)
    ensures Past(Handle(k, c, m).ctx)
  {}

  // ---- One step

  /** The request-side responses of one step. */
  function StepRequests(k: Codec, c: Ctx, m: Msg, ok: nat): seq<Resp> {
    Requests(SentAll(Step(k, c, m, ok).sent))
  }

  lemma FlushPast(c: Ctx, n: nat)
    requires Past(c) && n <= |Flush(c)|
    ensures Requests(SentAll(Flush(c)[..n])) == [] && Past(After(c))
  {
    NoRequests(Flush(c)[..n]);
  }

  lemma FlushRequest(c: Ctx, n: nat)
    requires !Past(c) && (SendsReqHeader(c) ==> c.reqHeader.value.ReqHeader?) && n <= |Flush(c)|
    ensures Flush(c) == RequestFlush(c) && Requests(SentAll(Flush(c)[..n])) == Flush(c)[..n]
    ensures After(c) == AfterRequest(c)
  {
    assert ResponseFlush(c) == [] && RequestFlush(c) + [] == RequestFlush(c);
    AllRequests(Flush(c)[..n]);
  }

  lemma StepPast(k: Codec, c: Ctx, m: Msg, ok: nat)
    requires Handle(k, c, m).Err? || Past(Handle(k, c, m).ctx)
    ensures StepRequests(k, c, m, ok) == []
    ensures Step(k, c, m, ok).Open? ==> Past(Step(k, c, m, ok).ctx)
  {
    var h := Handle(k, c, m);
    if h.Err? {
      NoRequests(Step(k, c, m, ok).sent);
    } else {
      var n := if |Flush(h.ctx)| <= ok then |Flush(h.ctx)| else ok;
      FlushPast(h.ctx, n);
      assert Flush(h.ctx)[..n] == Step(k, c, m, ok).sent;
    }
  }

  /** What a handled context sends, in full or up to a failure. */
  lemma SendsUpTo(k: Codec, c: Ctx, m: Msg, ok: nat, whole: seq<Resp>)
    requires var h := Handle(k, c, m);
             && h.Ok? && !Past(h.ctx) && (SendsReqHeader(h.ctx) ==> h.ctx.reqHeader.value.ReqHeader?)
             && RequestFlush(h.ctx) == whole
    ensures StepRequests(k, c, m, ok) <= whole
    ensures var o := Step(k, c, m, ok);
            o.Open? ==> StepRequests(k, c, m, ok) == whole && o.ctx == AfterRequest(Handle(k, c, m).ctx)
  {
    var c1 := Handle(k, c, m).ctx;
    FlushRequest(c1, |Flush(c1)|);
    var n := if |whole| <= ok then |whole| else ok;
    FlushRequest(c1, n);
    assert whole[..n] == Step(k, c, m, ok).sent;
    assert whole[..|whole|] == whole;
  }

  // ---- Whole runs

  lemma {:induction false} RequestsOfParts(m: Msg, sent: seq<Resp>, rest: seq<Event>)
    ensures Requests([Got(m)] + SentAll(sent) + rest) == Requests(SentAll(sent)) + Requests(rest)
  {
    RequestsAppend([Got(m)] + SentAll(sent), rest);
    assert ([Got(m)] + SentAll(sent))[1..] == SentAll(sent);
  }

  lemma {:induction false} TraceRequests(k: Codec, c: Ctx, ms: seq<Msg>, oks: seq<nat>)
    requires |ms| == |oks| && ms != []
    ensures var o := Step(k, c, ms[0], oks[0]);
            Requests(Trace(k, c, ms, oks)) ==
              StepRequests(k, c, ms[0], oks[0]) + if o.Open? then Requests(Trace(k, o.ctx, ms[1..], oks[1..])) else []
  {
    var o := Step(k, c, ms[0], oks[0]);
    RequestsOfParts(ms[0], o.sent, if o.Open? then Trace(k, o.ctx, ms[1..], oks[1..]) else []);
  }

  /** After the request body, or a response header, the request side is silent for good. */
  lemma {:induction false} PastForGood(k: Codec, c: Ctx, ms: seq<Msg>, oks: seq<nat>)
    requires |ms| == |oks| && Past(c)
    ensures Requests(Trace(k, c, ms, oks)) == []
    decreases |ms|
  {
    if ms != [] {
      var o := Step(k, c, ms[0], oks[0]);
      TraceRequests(k, c, ms, oks);
      HandlePast(k, c, ms[0]);
      StepPast(k, c, ms[0], oks[0]);
      if o.Open? {
        PastForGood(k, o.ctx, ms[1..], oks[1..]);
      }
    }
  }

  /** The same once a message is refused or ends the request side. */
  lemma {:induction false} SilentFromHere(k: Codec, c: Ctx, ms: seq<Msg>, oks: seq<nat>)
    requires |ms| == |oks| && ms != []
    requires Handle(k, c, ms[0]).Err? || Past(Handle(k, c, ms[0]).ctx)
    ensures Requests(Trace(k, c, ms, oks)) == []
  {
    var o := Step(k, c, ms[0], oks[0]);
    TraceRequests(k, c, ms, oks);
    StepPast(k, c, ms[0], oks[0]);
    if o.Open? {
      PastForGood(k, o.ctx, ms[1..], oks[1..]);
    }
  }

  /** After the header response at most one body follows. */
  lemma {:induction false} BodyOnce(k: Codec, c: Ctx, ms: seq<Msg>, oks: seq<nat>) returns (bs: Bytes)
    requires |ms| == |oks| && HeaderOut(c)
    ensures Requests(Trace(k, c, ms, oks)) <= ReqBodies(Split(bs, true))
    decreases |ms|
  {
    bs := [];
    if ms != [] {
      var h, o := Handle(k, c, ms[0]), Step(k, c, ms[0], oks[0]);
      bs := HandleHeaderOut(k, c, ms[0]);
      if h.Err? || Past(h.ctx) {
        SilentFromHere(k, c, ms, oks);
      } else {
        TraceRequests(k, c, ms, oks);
        SendsUpTo(k, c, ms[0], oks[0], ReqBodies(h.ctx.reqChunks));
        if o.Open? {
          if HeaderOut(h.ctx) {
            bs := BodyOnce(k, o.ctx, ms[1..], oks[1..]);
          } else {
            PastForGood(k, o.ctx, ms[1..], oks[1..]);
          }
        }
      }
    }
  }

  /** The request side of a stream from its start. */
  lemma {:induction false} HeaderThenBody(k: Codec, c: Ctx, ms: seq<Msg>, oks: seq<nat>) returns (head: Resp, bs: Bytes)
    requires |ms| == |oks| && Fresh(c)
    ensures Honest(k, head, bs)
    ensures Requests(Trace(k, c, ms, oks)) <= Whole(head, bs)
    decreases |ms|
  {
    head, bs := ReqHeader("", None, None), [];
    if ms != [] {
      var h, o := Handle(k, c, ms[0]), Step(k, c, ms[0], oks[0]);
      var body := HandleFresh(k, c, ms[0]);
      if h.Err? || Past(h.ctx) {
        SilentFromHere(k, c, ms, oks);
      } else if Fresh(h.ctx) {
        TraceRequests(k, c, ms, oks);
        SendsUpTo(k, c, ms[0], oks[0], []);
        if o.Open? {
          head, bs := HeaderThenBody(k, o.ctx, ms[1..], oks[1..]);
        }
      } else if h.ctx.reqChunks == [] {
        head := h.ctx.reqHeader.value;
        bs := HeaderAlone(k, c, ms, oks);
      } else {
        head, bs := h.ctx.reqHeader.value, body;
        TraceRequests(k, c, ms, oks);
        SendsUpTo(k, c, ms[0], oks[0], Whole(head, bs));
        if o.Open? {
          PastForGood(k, o.ctx, ms[1..], oks[1..]);
        }
      }
    }
  }

  /** A header response without a body. */
  lemma {:induction false} HeaderAlone(k: Codec, c: Ctx, ms: seq<Msg>, oks: seq<nat>) returns (bs: Bytes)
    requires |ms| == |oks| && ms != [] && Handle(k, c, ms[0]).Ok?
    requires var h := Handle(k, c, ms[0]);
             h.ctx.phase == RequestReceived && h.ctx.reqChunks == [] && h.ctx.reqHeader.Some? &&
                 h.ctx.reqHeader.value.ReqHeader?
    ensures Requests(Trace(k, c, ms, oks)) <= Whole(Handle(k, c, ms[0]).ctx.reqHeader.value, bs)
  {
    var c1, o := Handle(k, c, ms[0]).ctx, Step(k, c, ms[0], oks[0]);
    bs := [];
    TraceRequests(k, c, ms, oks);
    SendsUpTo(k, c, ms[0], oks[0], [c1.reqHeader.value]);
    if o.Open? {
      bs := BodyOnce(k, o.ctx, ms[1..], oks[1..]);
    }
  }

  /** For every input and every failure of the transport: what is ever sent on the request side is one
      header response and the chunks of one body, possibly cut short, and a length generated for the
      header is the length of that body. */
  lemma RequestSideOfEveryRun(k: Codec, ms: seq<Msg>, oks: seq<nat>)
    requires |ms| == |oks|
    ensures exists head, bs :: Honest(k, head, bs) && Requests(Trace(k, INITIAL, ms, oks)) <= Whole(head, bs)
  {
    var head, bs := HeaderThenBody(k, INITIAL, ms, oks);
  }

  // ---- The generated length

  lemma {:induction false} PrefixBytes(cs: seq<Chunk>, n: nat)
    requires n <= |cs|
    ensures |RequestBytes(ReqBodies(cs[..n]))| <= |Concat(cs)|
  {
    if n > 0 {
      PrefixBytes(cs[1..], n - 1);
      assert ReqBodies(cs[..n])[1..] == ReqBodies(cs[1..][..n - 1]);
    }
  }

  /** The end of the request stream was sent. */
  ghost predicate Ended(rs: seq<Resp>) {
    exists r :: r in rs && r.ReqBody? && r.chunk.eos
  }

  lemma WholeLength(rs: seq<Resp>, head: Resp, bs: Bytes)
    requires rs != [] && rs <= Whole(head, bs) && head.ReqHeader?
    ensures |RequestBytes(rs)| <= |bs|
    ensures Ended(rs) ==> |RequestBytes(rs)| == |bs|
  {
    var cs, n := Split(bs, true), |rs| - 1;
    ChunksSplit(bs, BODY_BYTE_LIMIT, true);
    assert rs[1..] == ReqBodies(cs[..n]);
    PrefixBytes(cs, n);
    if r :| r in rs && r.ReqBody? && r.chunk.eos {
      var i :| 0 <= i < n && ReqBodies(cs[..n])[i] == r;
      assert i == |cs| - 1 && cs[..n] == cs;
      BatchBytes(cs);
    }
  }

  /** Never more bytes than the length generated, and exactly as many once the end of the stream is sent. */
  lemma GeneratedLength(k: Codec, ms: seq<Msg>, oks: seq<nat>, head: Resp)
    requires |ms| == |oks|
    requires head in Requests(Trace(k, INITIAL, ms, oks)) && head.ReqHeader? && head.contentLength.Some?
    ensures var rs := Requests(Trace(k, INITIAL, ms, oks));
            && |RequestBytes(rs)| <= head.contentLength.value
            && (Ended(rs) ==> |RequestBytes(rs)| == head.contentLength.value)
  {
    var rs := Requests(Trace(k, INITIAL, ms, oks));
    var first, bs := HeaderThenBody(k, INITIAL, ms, oks);
    WholeLength(rs, first, bs);
    OnlyHeader(rs, first, bs, head);
  }

  lemma OnlyHeader(rs: seq<Resp>, first: Resp, bs: Bytes, head: Resp)
    requires rs <= Whole(first, bs) && head in rs && head.ReqHeader?
    ensures first == head
  {
    var i :| 0 <= i < |rs| && rs[i] == head;
    assert rs[i] == Whole(first, bs)[i];
  }

  // ---- The received length

  /** The length among the headers received so far; those of a request without body are not kept. */
  function Received(t: seq<Event>): Option<nat> {
    if t == [] then None else NextReceived(Received(t[..|t| - 1]), t[|t| - 1])
  }

  function NextReceived(had: Option<nat>, e: Event): Option<nat> {
    if e.Got? && e.msg.RequestHeaders? && !e.msg.eos && e.msg.length.Some? then e.msg.length else had
  }

  lemma ReceivedOneMore(t: seq<Event>, e: Event)
    ensures Received(t + [e]) == NextReceived(Received(t), e)
  {
    assert (t + [e])[..|t|] == t;
  }

  lemma HandleReceived(k: Codec, c: Ctx, m: Msg)
    ensures Handle(k, c, m).Ok? ==> Handle(k, c, m).ctx.received == NextReceived(c.received, Got(m))
  {}

  /** A message that leaves the request side untouched is followed by the trace of the same state. */
  lemma {:induction false} FreshAgain(k: Codec, c: Ctx, ms: seq<Msg>, oks: seq<nat>)
    requires |ms| == |oks| && ms != [] && Handle(k, c, ms[0]).Ok? && Fresh(Handle(k, c, ms[0]).ctx)
    ensures var o, c1 := Step(k, c, ms[0], oks[0]), Handle(k, c, ms[0]).ctx;
            && o.Open? && Fresh(o.ctx) && o.ctx.received == c1.received
            && Trace(k, c, ms, oks) == [Got(ms[0])] + Trace(k, o.ctx, ms[1..], oks[1..])
            && Requests(Trace(k, c, ms, oks)) == Requests(Trace(k, o.ctx, ms[1..], oks[1..]))
  {
    var c1, o := Handle(k, c, ms[0]).ctx, Step(k, c, ms[0], oks[0]);
    assert Flush(c1) == [] && o == Open(c1, []);
    TraceRequests(k, c, ms, oks);
    assert SentAll([]) == [] && [Got(ms[0])] + [] == [Got(ms[0])];
  }

  /** The header response of a stream copies the length received before it. */
  lemma {:induction false} CopiesReceived(k: Codec, c: Ctx, ms: seq<Msg>, oks: seq<nat>, before: seq<Event>)
    returns (i: nat)
    requires |ms| == |oks| && Fresh(c) && c.received == Received(before)
    ensures Requests(Trace(k, c, ms, oks)) != [] ==> Copies(before, Trace(k, c, ms, oks), i)
    decreases |ms|
  {
    i := 0;
    if ms != [] {
      var t, h := Trace(k, c, ms, oks), Handle(k, c, ms[0]);
      var bs := HandleFresh(k, c, ms[0]);
      HandleReceived(k, c, ms[0]);
      ReceivedOneMore(before, Got(ms[0]));
      if h.Err? || Past(h.ctx) {
        SilentFromHere(k, c, ms, oks);
      } else if Fresh(h.ctx) {
        var c1 := Step(k, c, ms[0], oks[0]).ctx;
        FreshAgain(k, c, ms, oks);
        var n := CopiesReceived(k, c1, ms[1..], oks[1..], before + [Got(ms[0])]);
        i := n + 1;
        CopiesLater(before, Got(ms[0]), Trace(k, c1, ms[1..], oks[1..]), n);
      } else {
        i := 1;
        SentHeaderFirst(k, c, ms, oks);
        assert |t| > 1 ==> t[..1] == [Got(ms[0])];
      }
    }
  }

  /** At place `i` stands a header response with the length received before it. */
  ghost predicate Copies(before: seq<Event>, t: seq<Event>, i: nat) {
    i < |t| && t[i].Sent? && t[i].resp.ReqHeader? && t[i].resp.copied == Received(before + t[..i])
  }

  lemma CopiesLater(before: seq<Event>, e: Event, t: seq<Event>, n: nat)
    ensures Copies(before + [e], t, n) ==> Copies(before, [e] + t, n + 1)
  {
    if n < |t| {
      assert before + ([e] + t)[..n + 1] == before + [e] + t[..n];
    }
  }

  lemma {:induction false} SentHeaderFirst(k: Codec, c: Ctx, ms: seq<Msg>, oks: seq<nat>)
    requires |ms| == |oks| && ms != [] && Handle(k, c, ms[0]).Ok?
    requires SendsReqHeader(Handle(k, c, ms[0]).ctx) && Handle(k, c, ms[0]).ctx.reqHeader.value.ReqHeader?
    ensures var t := Trace(k, c, ms, oks);
            Requests(t) != [] ==> |t| > 1 && t[1] == Sent(Handle(k, c, ms[0]).ctx.reqHeader.value)
  {
    var c1, o := Handle(k, c, ms[0]).ctx, Step(k, c, ms[0], oks[0]);
    TraceRequests(k, c, ms, oks);
    FlushRequest(c1, |Flush(c1)|);
    if oks[0] == 0 {
      assert o.sent == [] && SentAll(o.sent) == [];
    } else {
      assert o.sent[0] == c1.reqHeader.value;
    }
  }

  /** The lengths in a header response, the one generated and the one copied. */
  predicate Says(head: Resp, n: nat)
    requires head.ReqHeader?
  {
    (head.contentLength.Some? ==> head.contentLength.value == n) && (head.copied.Some? ==> head.copied.value == n)
  }

  /** Once the request is sent, every length in its header response is the number of bytes sent exactly when
      no length was received before it, or that very number. */
  lemma LengthsAgreeIff(k: Codec, ms: seq<Msg>, oks: seq<nat>, i: nat)
    requires |ms| == |oks| && i < |Trace(k, INITIAL, ms, oks)|
    requires var e := Trace(k, INITIAL, ms, oks)[i]; e.Sent? && e.resp.ReqHeader?
    requires Ended(Requests(Trace(k, INITIAL, ms, oks)))
    ensures var t := Trace(k, INITIAL, ms, oks);
            var n := |RequestBytes(Requests(t))|;
            Says(t[i].resp, n) <==> Received(t[..i]) in {None, Some(n)}
  {
    var t := Trace(k, INITIAL, ms, oks);
    RequestIn(t, i);
    if t[i].resp.contentLength.Some? {
      GeneratedLength(k, ms, oks, t[i].resp);
    }
    var j := CopiesReceived(k, INITIAL, ms, oks, []);
    EveryTraceInOrder(k, ms, oks);
    OneHeaderSays(t, i, j, |RequestBytes(Requests(t))|);
  }

  lemma OneHeaderSays(t: seq<Event>, i: nat, j: nat, n: nat)
    requires Ordered(t) && i < |t| && IsReqHeader(t[i]) && Copies([], t, j)
    requires t[i].resp.contentLength in {None, Some(n)}
    ensures Says(t[i].resp, n) <==> Received(t[..i]) in {None, Some(n)}
  {
    LaterHeader(t, i, j);
    LaterHeader(t, j, i);
    assert [] + t[..i] == t[..i];
  }

  lemma LaterHeader(t: seq<Event>, i: nat, j: nat)
    requires Ordered(t) && i < |t| && j < |t| && IsReqHeader(t[i]) && IsReqHeader(t[j])
    ensures j <= i
  {
    assert MayFollow(t[..j], t[j]);
    assert forall x :: 0 <= x < j ==> t[..j][x] == t[x];
  }

  lemma {:induction false} RequestIn(t: seq<Event>, i: nat)
    requires i < |t| && t[i].Sent? && RequestSide(t[i].resp)
    ensures t[i].resp in Requests(t)
  {
    if i > 0 {
      RequestIn(t[1..], i - 1);
    }
  }

  /** A request that is re-encoded with another length than received goes out with two lengths: for every
      codec that takes the bytes. */
  lemma TwoLengths(k: Codec, pick: Pick, n: nat, x: Bytes, body: Json, out: Bytes)
    requires k.decode(EMPTY_JSON, x).Some? && k.encode(body) == Some(out) && 0 < |out| <= BODY_BYTE_LIMIT && n != |out|
    ensures var ms := [RequestHeaders(false, pick, Some(n)), RequestBody(x, true, Routed("a", "e", body))];
            Trace(k, INITIAL, ms, [2, 2]) ==
              [Got(ms[0]), Got(ms[1]), Sent(ReqHeader("e", Some(|out|), Some(n))), Sent(ReqBody(Chunk(out, true)))]
  {
    var m1, m2 := RequestHeaders(false, pick, Some(n)), RequestBody(x, true, Routed("a", "e", body));
    var c1 := INITIAL.(received := Some(n));
    var sent := [ReqHeader("e", Some(|out|), Some(n)), ReqBody(Chunk(out, true))];
    assert Step(k, INITIAL, m1, 2) == Open(c1, []);
    assert c1.body + x == x;
    assert Split(out, true) == [Chunk(out, true)];
    assert Flush(Handle(k, c1, m2).ctx) == sent;
    assert Step(k, c1, m2, 2).Open? && Step(k, c1, m2, 2).sent == sent;
    assert SentAll(sent) == [Sent(sent[0]), Sent(sent[1])];
    assert [m1, m2][1..] == [m2] && [2, 2][1..] == [2] && [m2][1..] == [];
    assert Trace(k, c1, [m2], [2]) == [Got(m2)] + SentAll(sent);
    assert Trace(k, INITIAL, [m1, m2], [2, 2]) == [Got(m1)] + SentAll([]) + Trace(k, c1, [m2], [2]);
  }
}
