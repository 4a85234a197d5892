/** The gauge of running requests over any interleaving of streams. */
module RunningGauge {
  import opened Chunker
  import ByteRuns = ExtProcBytes
  import opened ExtProc
  import opened Options

  datatype World = World(streams: map<nat, Ctx>, gauge: map<string, int>)

  function Get(g: map<string, int>, m: string): int {
    if m in g then g[m] else 0
  }

  /** The gauge ignores the empty model name. */
  function Bump(g: map<string, int>, m: string, d: int): map<string, int> {
    if m == "" then g else g[m := Get(g, m) + d]
  }

  // ---- Steps of the world

  datatype WorldEvent = Start(id: nat) | Deliver(id: nat, msg: Msg, ok: nat) | Hangup(id: nat)

  /** A stream that ends takes itself off the gauge if it was on it. */
  function Close(w: World, id: nat, c: Ctx): World {
    World(w.streams - {id}, if c.running then Bump(w.gauge, c.model, -1) else w.gauge)
  }

  /** A stream that handled a message goes on, or ends, with the context `c`. */
  function Moved(w: World, id: nat, c: Ctx, open: bool): World
    requires id in w.streams
  {
    if open then
      World(w.streams[id := c], if c.running && !w.streams[id].running then Bump(w.gauge, c.model, 1) else w.gauge)
    else Close(w, id, c)
  }

  function Delivered(k: Codec, w: World, id: nat, msg: Msg, ok: nat): World
    requires id in w.streams
  {
    var o := Step(k, w.streams[id], msg, ok);
    Moved(w, id, o.ctx, o.Open?)
  }

  function WorldStep(k: Codec, w: World, e: WorldEvent): World {
    match e
    case Start(id) => if id in w.streams then w else w.(streams := w.streams[id := INITIAL])
    case Deliver(id, msg, ok) => if id in w.streams then Delivered(k, w, id, msg, ok) else w
    case Hangup(id) => if id in w.streams then Close(w, id, w.streams[id]) else w
  }

  // ---- The invariant

  /** The open streams of a model that have finished sending their request body. */
  ghost function Members(streams: map<nat, Ctx>, m: string): set<nat> {
    set id | id in streams && streams[id].running && streams[id].model == m
  }

  ghost predicate Counted(w: World, m: string) {
    Get(w.gauge, m) == |Members(w.streams, m)|
  }

  ghost predicate GaugeExact(w: World) {
    forall m :: m != "" ==> Counted(w, m)
  }

  /** The model name of the context after handling a message. */
  function NextModel(k: Codec, c: Ctx, msg: Msg): string {
    if msg.RequestBody? && msg.eos && k.decode(c.requestJson, c.body + msg.bytes).Some? then msg.answer.model
    else c.model
  }

  /** A running request is not given another model name. */
  predicate KeepsName(k: Codec, w: World, e: WorldEvent) {
    e.Deliver? && e.id in w.streams && w.streams[e.id].running ==>
      NextModel(k, w.streams[e.id], e.msg) == w.streams[e.id].model
  }

  lemma HandleFacts(k: Codec, c: Ctx, msg: Msg)
    ensures Handle(k, c, msg).ctx.model == NextModel(k, c, msg)
    ensures Handle(k, c, msg).ctx.running == c.running
  {}

  lemma AfterFacts(c: Ctx)
    ensures After(c).model == c.model && (c.running ==> After(c).running)
  {}

  lemma StepFacts(k: Codec, c: Ctx, msg: Msg, ok: nat)
    ensures var o := Step(k, c, msg, ok);
            && o.ctx.model == NextModel(k, c, msg)
            && (c.running ==> o.ctx.running)
            && (o.Closed? ==> o.ctx.running == c.running)
  {
    HandleFacts(k, c, msg);
    AfterFacts(Handle(k, c, msg).ctx);
  }

  ghost function Share(streams: map<nat, Ctx>, id: nat, m: string): int {
    if id in Members(streams, m) then 1 else 0
  }

  lemma MembersElsewhere(streams: map<nat, Ctx>, id: nat, c: Ctx, m: string)
    ensures Members(streams[id := c], m) - {id} == Members(streams, m) - {id}
    ensures id in Members(streams[id := c], m) <==> c.running && c.model == m
  {
    var after := streams[id := c];
    forall x ensures x in Members(after, m) - {id} <==> x in Members(streams, m) - {id} {
      assert x != id ==> (x in after <==> x in streams) && (x in streams ==> after[x] == streams[x]);
    }
  }

  lemma WithoutOne(s: set<nat>, x: nat)
    ensures |s| == |s - {x}| + if x in s then 1 else 0
  {
    assert x !in s ==> s - {x} == s;
  }

  lemma MembersUpdate(streams: map<nat, Ctx>, id: nat, c: Ctx, m: string)
    ensures |Members(streams[id := c], m)|
            == |Members(streams, m)| - Share(streams, id, m) + (if c.running && c.model == m then 1 else 0)
  {
    MembersElsewhere(streams, id, c, m);
    WithoutOne(Members(streams, m), id);
    WithoutOne(Members(streams[id := c], m), id);
  }

  lemma MembersRemove(streams: map<nat, Ctx>, id: nat, m: string)
    ensures |Members(streams - {id}, m)| == |Members(streams, m)| - Share(streams, id, m)
  {
    assert Members(streams - {id}, m) == Members(streams, m) - {id};
  }

  /** The models whose count a move gets wrong: a renamed running stream's old and new one. */
  lemma MovedCounted(w: World, id: nat, c: Ctx, open: bool, m: string)
    requires id in w.streams && m != "" && Counted(w, m)
    requires w.streams[id].running ==> c.running
    requires !open ==> c.running == w.streams[id].running
    ensures var was := w.streams[id];
            !Counted(Moved(w, id, c, open), m) <==>
              was.running && c.model != was.model && (m == was.model || m == c.model)
  {
    if open {
      MembersUpdate(w.streams, id, c, m);
    } else {
      MembersRemove(w.streams, id, m);
    }
  }

  lemma MovedExact(w: World, id: nat, c: Ctx, open: bool)
    requires GaugeExact(w) && id in w.streams
    requires w.streams[id].running ==> c.running
    requires !open ==> c.running == w.streams[id].running
    ensures GaugeExact(Moved(w, id, c, open)) <==> (w.streams[id].running ==> c.model == w.streams[id].model)
  {
    var was, w' := w.streams[id], Moved(w, id, c, open);
    if was.running && c.model != was.model {
      var m := if c.model != "" then c.model else was.model;
      MovedCounted(w, id, c, open, m);
    } else {
      forall m | m != "" ensures Counted(w', m) {
        MovedCounted(w, id, c, open, m);
      }
    }
  }

  /** Delivering a message keeps the gauge exact precisely when it does not rename a running request. */
  lemma DeliverExact(k: Codec, w: World, id: nat, msg: Msg, ok: nat)
    requires GaugeExact(w) && id in w.streams
    ensures GaugeExact(Delivered(k, w, id, msg, ok)) <==> KeepsName(k, w, Deliver(id, msg, ok))
  {
    var o := Step(k, w.streams[id], msg, ok);
    StepFacts(k, w.streams[id], msg, ok);
    MovedExact(w, id, o.ctx, o.Open?);
  }

  lemma StartExact(w: World, id: nat)
    requires GaugeExact(w) && id !in w.streams
    ensures GaugeExact(w.(streams := w.streams[id := INITIAL]))
  {
    var w' := w.(streams := w.streams[id := INITIAL]);
    forall m | m != "" ensures Counted(w', m) {
      assert Counted(w, m);
      MembersUpdate(w.streams, id, INITIAL, m);
    }
  }

  lemma StepExact(k: Codec, w: World, e: WorldEvent)
    requires GaugeExact(w) && KeepsName(k, w, e)
    ensures GaugeExact(WorldStep(k, w, e))
  {
    match e
    case Deliver(id, msg, ok) =>
      if id in w.streams {
        DeliverExact(k, w, id, msg, ok);
      }
    case Start(id) =>
      if id !in w.streams {
        StartExact(w, id);
      }
    case Hangup(id) =>
      if id in w.streams {
        MovedExact(w, id, w.streams[id], false);
      }
  }

  // ---- Runs

  function WorldRun(k: Codec, w: World, es: seq<WorldEvent>): World
    decreases |es|
  {
    if es == [] then w else WorldRun(k, WorldStep(k, w, es[0]), es[1..])
  }

  predicate NamesKept(k: Codec, w: World, es: seq<WorldEvent>)
    decreases |es|
  {
    es == [] || (KeepsName(k, w, es[0]) && NamesKept(k, WorldStep(k, w, es[0]), es[1..]))
  }

  /** Over every interleaving of streams, every exit path and every send failure. */
  lemma {:induction false} AlwaysExact(k: Codec, w: World, es: seq<WorldEvent>)
    requires GaugeExact(w) && NamesKept(k, w, es)
    ensures GaugeExact(WorldRun(k, w, es))
    decreases |es|
  {
    if es != [] {
      StepExact(k, w, es[0]);
      AlwaysExact(k, WorldStep(k, w, es[0]), es[1..]);
    }
  }

  /** When the last stream has closed the gauge reads zero for every model. */
  lemma BackToZero(k: Codec, es: seq<WorldEvent>, m: string)
    requires NamesKept(k, World(map[], map[]), es)
    requires WorldRun(k, World(map[], map[]), es).streams == map[]
    requires m != ""
    ensures Get(WorldRun(k, World(map[], map[]), es).gauge, m) == 0
  {
    var start := World(map[], map[]);
    EmptyExact();
    AlwaysExact(k, start, es);
    var end := WorldRun(k, start, es);
    assert Counted(end, m) && Members(end.streams, m) == {};
  }

  // ---- Streams with one request each

  /** The last part of a request body arrives. */
  predicate Completes(e: WorldEvent) {
    e.Deliver? && e.msg.RequestBody? && e.msg.eos
  }

  /** No stream outside `seen` receives two complete request bodies, and none in `seen` another one. */
  predicate OneRequestEach(es: seq<WorldEvent>, seen: set<nat>) {
    es == [] ||
    if Completes(es[0]) then es[0].id !in seen && OneRequestEach(es[1..], seen + {es[0].id})
    else OneRequestEach(es[1..], seen)
  }

  predicate Quiet(c: Ctx) {
    !c.running && c.reqChunks == []
  }

  lemma QuietStep(k: Codec, c: Ctx, msg: Msg, ok: nat)
    requires Quiet(c) && !(msg.RequestBody? && msg.eos)
    ensures Quiet(Step(k, c, msg, ok).ctx)
  {
    assert Quiet(Handle(k, c, msg).ctx);
  }

  ghost predicate QuietBut(w: World, seen: set<nat>) {
    forall id :: id in w.streams && id !in seen ==> Quiet(w.streams[id])
  }

  lemma QuietWorldStep(k: Codec, w: World, e: WorldEvent, seen: set<nat>)
    requires QuietBut(w, seen) && (Completes(e) ==> e.id in seen)
    ensures QuietBut(WorldStep(k, w, e), seen)
  {
    if e.Deliver? && e.id in w.streams && e.id !in seen {
      QuietStep(k, w.streams[e.id], e.msg, e.ok);
    }
  }

  /** A condition on the messages alone: well-formed streams do not rename a running request. */
  lemma {:induction false} OneRequestKeepsNames(k: Codec, w: World, es: seq<WorldEvent>, seen: set<nat>)
    requires QuietBut(w, seen) && OneRequestEach(es, seen)
    ensures NamesKept(k, w, es)
    decreases |es|
  {
    if es != [] {
      var e := es[0];
      var seen' := if Completes(e) then seen + {e.id} else seen;
      assert KeepsName(k, w, e);
      QuietWorldStep(k, w, e, seen');
      OneRequestKeepsNames(k, WorldStep(k, w, e), es[1..], seen');
    }
  }

  /** Whatever the interleaving, the exits and the send failures: with one request on each stream the gauge
      is exact, and zero when all streams have closed. */
  lemma ExactForOneRequestEach(k: Codec, es: seq<WorldEvent>, m: string)
    requires OneRequestEach(es, {}) && m != ""
    ensures var w := WorldRun(k, World(map[], map[]), es);
            GaugeExact(w) && (w.streams == map[] ==> Get(w.gauge, m) == 0)
  {
    var start := World(map[], map[]);
    OneRequestKeepsNames(k, start, es, {});
    EmptyExact();
    AlwaysExact(k, start, es);
    if WorldRun(k, start, es).streams == map[] {
      BackToZero(k, es, m);
    }
  }

  lemma EmptyExact()
    ensures GaugeExact(World(map[], map[]))
  {
    var start := World(map[], map[]);
    forall n | n != "" ensures Counted(start, n) {
      assert Members(start.streams, n) == {};
    }
  }

  /** The empty model name is never on the gauge. */
  lemma {:induction false} EmptyNameUncounted(k: Codec, w: World, es: seq<WorldEvent>)
    requires "" !in w.gauge
    ensures "" !in WorldRun(k, w, es).gauge
    decreases |es|
  {
    if es != [] {
      EmptyNameUncounted(k, WorldStep(k, w, es[0]), es[1..]);
    }
  }

  // ---- What it means to be running

  ghost predicate BodySent(rs: seq<Resp>) {
    exists r :: r in rs && r.ReqBody?
  }

  lemma BodySentAppend(a: seq<Resp>, b: seq<Resp>)
    ensures BodySent(a + b) <==> BodySent(a) || BodySent(b)
  {
    assert BodySent(a) ==> BodySent(a + b);
    assert BodySent(b) ==> BodySent(a + b);
  }

  lemma FlushesBody(c: Ctx)
    requires c.reqHeader.Some? ==> c.reqHeader.value.ReqHeader?
    ensures BodySent(Flush(c)) <==> SendsReqBody(c)
  {
    BodySentAppend(RequestFlush(c), ResponseFlush(c));
    if SendsReqBody(c) {
      var head := if SendsReqHeader(c) then [c.reqHeader.value] else [];
      assert ReqBodies(c.reqChunks)[0] in ReqBodies(c.reqChunks);
      BodySentAppend(head, ReqBodies(c.reqChunks));
      assert RequestFlush(c) == head + ReqBodies(c.reqChunks);
    }
  }

  /** A header that waits to be sent is a request header, and a stream starts to run with the body it sends. */
  ghost predicate Marks(f: (Ctx, Msg) -> Outcome, c: Ctx, m: Msg) {
    var o := f(c, m);
    o.Open? ==> HeaderKind(o.ctx) && (o.ctx.running <==> c.running || BodySent(o.sent))
  }

  ghost predicate HeaderKind(c: Ctx) {
    c.reqHeader.Some? ==> c.reqHeader.value.ReqHeader?
  }

  lemma HandleMarks(k: Codec, c: Ctx, m: Msg)
    requires HeaderKind(c)
    ensures HeaderKind(Handle(k, c, m).ctx)
  {}

  lemma AfterMarks(c: Ctx)
    ensures After(c).reqHeader == c.reqHeader && (After(c).running <==> c.running || SendsReqBody(c))
  {}

  lemma DeliveryMarks(k: Codec, c: Ctx, m: Msg)
    requires HeaderKind(c)
    ensures Marks(ByteRuns.Delivery(k), c, m)
  {
    HandleMarks(k, c, m);
    HandleFacts(k, c, m);
    DeliveredMarks(k, c, m, Handle(k, c, m));
  }

  lemma DeliveredMarks(k: Codec, c: Ctx, m: Msg, h: Handled)
    requires h == Handle(k, c, m) && HeaderKind(h.ctx) && h.ctx.running == c.running
    ensures Marks(ByteRuns.Delivery(k), c, m)
  {
    if h.Ok? {
      FlushesBody(h.ctx);
      AfterMarks(h.ctx);
      assert ByteRuns.Deliver(k, c, m) == Open(After(h.ctx), Flush(h.ctx));
    }
  }

  lemma {:induction false} FoldMarks(f: (Ctx, Msg) -> Outcome, c: Ctx, ms: seq<Msg>)
    requires (forall x, m :: HeaderKind(x) ==> Marks(f, x, m)) && HeaderKind(c)
    requires ByteRuns.Fold(f, c, ms).Open?
    ensures ByteRuns.Fold(f, c, ms).ctx.running <==> c.running || BodySent(ByteRuns.Fold(f, c, ms).sent)
    decreases |ms|
  {
    if ms != [] {
      var o := f(c, ms[0]);
      assert Marks(f, c, ms[0]);
      FoldMarks(f, o.ctx, ms[1..]);
      BodySentAppend(o.sent, ByteRuns.Fold(f, o.ctx, ms[1..]).sent);
    }
  }

  /** In every exchange that is still open: the stream counts as running exactly if a request body was sent. */
  lemma RunningIffBodySent(k: Codec, ms: seq<Msg>)
    requires ByteRuns.Exchange(k, INITIAL, ms).Open?
    ensures ByteRuns.Exchange(k, INITIAL, ms).ctx.running <==> BodySent(ByteRuns.Exchange(k, INITIAL, ms).sent)
  {
    forall x, m | HeaderKind(x) ensures Marks(ByteRuns.Delivery(k), x, m) {
      DeliveryMarks(k, x, m);
    }
    FoldMarks(ByteRuns.Delivery(k), INITIAL, ms);
  }

  // ---- A stream with two

  /** A second request body that names another model takes the wrong one off the gauge: for every codec that
      takes the bytes, a run that ends without streams and with two models miscounted. */
  lemma RenamingBreaksGauge(k: Codec, a: string, b: string, x: Bytes, y: Bytes, body: Json, out: Bytes,
                            code: ErrorCode, ok: nat)
    requires a != "" && b != "" && a != b
    requires k.decode(EMPTY_JSON, x).Some? && k.encode(body) == Some(out) && k.decode(body, y).Some?
    requires ok > |Split(out, true)|
    ensures var es := [Start(0), Deliver(0, RequestBody(x, true, Routed(a, "e", body)), ok),
                       Deliver(0, RequestBody(y, true, Refused(b, code)), ok)];
            var w := WorldRun(k, World(map[], map[]), es);
            w.streams == map[] && Get(w.gauge, a) == 1 && Get(w.gauge, b) == -1 && !GaugeExact(w)
  {
    var m1, m2 := RequestBody(x, true, Routed(a, "e", body)), RequestBody(y, true, Refused(b, code));
    var w0, w1 := World(map[], map[]), World(map[0 := INITIAL], map[]);
    var c := RoutedFirst(k, a, x, body, out, ok);
    var w2, w3 := World(map[0 := c], map[a := 1]), World(map[], map[a := 1, b := -1]);
    assert WorldStep(k, w0, Start(0)) == w1;
    assert WorldStep(k, w1, Deliver(0, m1, ok)) == w2;
    RefusedRunning(k, c, b, y, code, ok);
    assert w2.streams - {0} == map[];
    assert WorldStep(k, w2, Deliver(0, m2, ok)) == w3;
    ThreeSteps(k, w0, Start(0), w1, Deliver(0, m1, ok), w2, Deliver(0, m2, ok), w3);
    assert Members(w3.streams, a) == {} && !Counted(w3, a);
  }

  lemma ThreeSteps(k: Codec, w0: World, e1: WorldEvent, w1: World, e2: WorldEvent, w2: World, e3: WorldEvent, w3: World)
    requires WorldStep(k, w0, e1) == w1 && WorldStep(k, w1, e2) == w2 && WorldStep(k, w2, e3) == w3
    ensures WorldRun(k, w0, [e1, e2, e3]) == w3
  {
    assert [e1, e2, e3][1..] == [e2, e3] && [e2, e3][1..] == [e3] && [e3][1..] == [];
    assert WorldRun(k, w3, []) == w3;
    assert WorldRun(k, w2, [e3]) == w3;
    assert WorldRun(k, w1, [e2, e3]) == w3;
  }

  /** The context of a stream that has sent its request for the model `a`. */
  lemma RoutedFirst(k: Codec, a: string, x: Bytes, body: Json, out: Bytes, ok: nat) returns (c: Ctx)
    requires k.decode(EMPTY_JSON, x).Some? && k.encode(body) == Some(out) && ok > |Split(out, true)|
    ensures c.running && c.model == a && c.body == [] && c.requestJson == body
    ensures var o := Step(k, INITIAL, RequestBody(x, true, Routed(a, "e", body)), ok); o.Open? && o.ctx == c
  {
    var h := Handle(k, INITIAL, RequestBody(x, true, Routed(a, "e", body))).ctx;
    assert INITIAL.body + x == x;
    assert |Flush(h)| == 1 + |Split(out, true)|;
    c := After(h);
  }

  lemma RefusedRunning(k: Codec, c: Ctx, b: string, y: Bytes, code: ErrorCode, ok: nat)
    requires k.decode(c.requestJson, y).Some? && c.body == []
    ensures var o := Step(k, c, RequestBody(y, true, Refused(b, code)), ok);
            o.Closed? && o.ctx.model == b && o.ctx.running == c.running
  {
    assert c.body + y == y;
  }
}
