/** The default scheduler: its flow chart, the profile cycle around it, and what it guarantees for
    every random outcome. */
module Scheduler {
  import opened Filters
  import opened DecisionTree
  import Arith
  import opened Options

  // ---- The default chart

  function LowQueue(cfg: Config): Filter {
    Leaf(pods => {LowQueueSpec(cfg, pods)})
  }

  function LeastQueue(): Filter {
    Leaf(pods => {LeastQueueSpec(pods)})
  }

  function LeastKv(): Filter {
    Leaf(pods => {LeastKvSpec(pods)})
  }

  /** Either group may be returned, depending on the number drawn. */
  function LoraAffinity(req: Request): Filter {
    Leaf(pods => {LoraSpec(req, pods, true), LoraSpec(req, pods, false)})
  }

  function Sheddable(cfg: Config, req: Request): Filter {
    Leaf(pods => {SheddableSpec(cfg, req, pods)})
  }

  function Then(f: Filter, next: Filter): Filter {
    Tree(f, None, None, Some(next))
  }

  function Last(f: Filter): Filter {
    Tree(f, None, None, None)
  }

  function OnShortQueues(req: Request): Filter {
    Then(LoraAffinity(req), Then(LeastQueue(), Last(LeastKv())))
  }

  function OnLongQueues(req: Request): Filter {
    Then(LeastQueue(), Then(LoraAffinity(req), Last(LeastKv())))
  }

  function LowLatency(cfg: Config, req: Request): Filter {
    Tree(LowQueue(cfg), Some(OnShortQueues(req)), Some(OnLongQueues(req)), None)
  }

  function DefaultFilters(cfg: Config, req: Request): seq<Filter> {
    [Sheddable(cfg, req), LowLatency(cfg, req)]
  }

  // ---- The leaves

  predicate Measurable(p: Pod) {
    p.queue <= MAX_INT && p.kv <= MAX_FLOAT64
  }

  /** The least-queue filter keeps every pod with the smallest queue. */
  lemma LeastQueueKeepsMin(pods: seq<Pod>, p: Pod)
    requires Representable(pods) && p in pods && forall q :: q in pods ==> p.queue <= q.queue
    ensures p in LeastQueueSpec(pods)
  {
    QueueBounds(pods);
    assert p.queue == MinQueue(pods);
    Arith.QuotientBounds(MaxQueue(pods) - MinQueue(pods), |pods|);
  }

  /** Unless all queues are equal it drops every pod with the longest one. */
  lemma LeastQueueDropsMax(pods: seq<Pod>, p: Pod, q: Pod)
    requires Representable(pods) && p in pods && q in pods && q.queue < p.queue
    requires forall x :: x in pods ==> 0 <= x.queue <= p.queue
    ensures p !in LeastQueueSpec(pods)
  {
    QueueBounds(pods);
    assert p.queue == MaxQueue(pods);
    var i :| 0 <= i < |pods| && pods[i] == p;
    var j :| 0 <= j < |pods| && pods[j] == q;
    assert i != j && |pods| >= 2;
    Arith.QuotientBounds(MaxQueue(pods) - MinQueue(pods), |pods|);
  }

  /** Exactly the pods up to the end of the first of |pods| equal parts of the range of queue lengths; the range
      begins at the shortest queue and ends at the longest, or at 0 if that is negative. */
  lemma LeastQueueIff(pods: seq<Pod>, p: Pod, lo: Pod, hi: int)
    requires Representable(pods) && p in pods && lo in pods && forall x :: x in pods ==> lo.queue <= x.queue <= hi
    requires hi == 0 || (hi > 0 && exists x :: x in pods && x.queue == hi)
    ensures p in LeastQueueSpec(pods) <==> p.queue <= lo.queue + (hi - lo.queue) / |pods|
  {
    QueueEnds(pods, lo, hi);
    InQueuePart(pods, p, lo.queue, QueueCutoff(pods));
  }

  lemma InQueuePart(pods: seq<Pod>, p: Pod, lo: int, cutoff: int)
    requires p in pods && lo == MinQueue(pods) && cutoff == QueueCutoff(pods) && lo <= p.queue
    ensures p in LeastQueueSpec(pods) <==> p.queue <= cutoff
  {}

  lemma QueueEnds(pods: seq<Pod>, lo: Pod, hi: int)
    requires Representable(pods) && lo in pods && forall x :: x in pods ==> lo.queue <= x.queue <= hi
    requires hi == 0 || (hi > 0 && exists x :: x in pods && x.queue == hi)
    ensures MinQueue(pods) == lo.queue && MaxQueue(pods) == hi
  {
    QueueBounds(pods);
  }

  lemma LeastKvIff(pods: seq<Pod>, p: Pod, lo: Pod, hi: real)
    requires Representable(pods) && p in pods && lo in pods && forall x :: x in pods ==> lo.kv <= x.kv <= hi
    requires hi == 0.0 || (hi > 0.0 && exists x :: x in pods && x.kv == hi)
    ensures p in LeastKvSpec(pods) <==> p.kv <= lo.kv + (hi - lo.kv) / |pods| as real
  {
    KvEnds(pods, lo, hi);
    InKvPart(pods, p, lo.kv, KvCutoff(pods));
  }

  lemma InKvPart(pods: seq<Pod>, p: Pod, lo: real, cutoff: real)
    requires p in pods && lo == MinKv(pods) && cutoff == KvCutoff(pods) && lo <= p.kv
    ensures p in LeastKvSpec(pods) <==> p.kv <= cutoff
  {}

  lemma KvEnds(pods: seq<Pod>, lo: Pod, hi: real)
    requires Representable(pods) && lo in pods && forall x :: x in pods ==> lo.kv <= x.kv <= hi
    requires hi == 0.0 || (hi > 0.0 && exists x :: x in pods && x.kv == hi)
    ensures MinKv(pods) == lo.kv && MaxKv(pods) == hi
  {
    KvBounds(pods);
  }

  lemma LeastKvKeepsMin(pods: seq<Pod>, p: Pod)
    requires Representable(pods) && p in pods && forall q :: q in pods ==> p.kv <= q.kv
    ensures p in LeastKvSpec(pods)
  {
    KvBounds(pods);
    assert p.kv == MinKv(pods);
    assert (MaxKv(pods) - MinKv(pods)) / |pods| as real >= 0.0;
  }

  lemma LeastKvDropsMax(pods: seq<Pod>, p: Pod, q: Pod)
    requires Representable(pods) && p in pods && q in pods && q.kv < p.kv
    requires forall x :: x in pods ==> 0.0 <= x.kv <= p.kv
    ensures p !in LeastKvSpec(pods)
  {
    KvBounds(pods);
    assert p.kv == MaxKv(pods);
    var i :| 0 <= i < |pods| && pods[i] == p;
    var j :| 0 <= j < |pods| && pods[j] == q;
    assert i != j && |pods| >= 2;
    SmallerPart(MaxKv(pods) - MinKv(pods), |pods| as real);
  }

  lemma SmallerPart(x: real, n: real)
    requires x > 0.0 && n >= 2.0
    ensures x / n < x
  {
    var y := x / n;
    assert y > 0.0 && y * (n - 2.0) >= 0.0;
    assert x == y * n == y * (n - 2.0) + y + y;
  }

  lemma LeastKvNeverEmpties()
    ensures NeverEmpties(LeastKv(), Measurable)
  {
    forall pods, r | pods != [] && AllOk(pods, Measurable) && r in LeastKv().run(pods) ensures r != [] {
      assert forall p :: p in pods ==> Measurable(p);
      KvBounds(pods);
      var p :| p in pods && p.kv == MinKv(pods);
      LeastKvKeepsMin(pods, p);
    }
  }

  lemma LowQueueNarrows(cfg: Config)
    ensures Narrowing(LowQueue(cfg))
  {
    forall pods: seq<Pod> ensures Sublist(LowQueueSpec(cfg, pods), pods) {
      KeepSublist(pods, p => HasShortQueue(cfg, p));
    }
  }

  lemma RangesNarrow()
    ensures Narrowing(LeastQueue()) && Narrowing(LeastKv())
  {
    forall pods: seq<Pod> ensures Sublist(LeastQueueSpec(pods), pods) && Sublist(LeastKvSpec(pods), pods) {
      if pods != [] {
        var lo, hi := MinQueue(pods), QueueCutoff(pods);
        KeepSublist(pods, p => InQueueRange(lo, hi, p));
        var lo', hi' := MinKv(pods), KvCutoff(pods);
        KeepSublist(pods, p => InKvRange(lo', hi', p));
      }
    }
  }

  lemma LoraNarrows(req: Request)
    ensures Narrowing(LoraAffinity(req))
  {
    forall pods: seq<Pod>, b: bool ensures Sublist(LoraSpec(req, pods, b), pods) {
      KeepSublist(pods, p => HasAffinity(req, p));
      KeepSublist(pods, p => HasRoom(req, p));
    }
  }

  lemma SheddableNarrows(cfg: Config, req: Request, pods: seq<Pod>)
    ensures Sublist(SheddableSpec(cfg, req, pods), pods)
  {
    SublistSelf(pods);
    KeepSublist(pods, p => HasCapacity(cfg, p));
  }

  lemma ChartsNarrow(cfg: Config, req: Request)
    ensures Narrowing(OnShortQueues(req)) && Narrowing(OnLongQueues(req)) && Narrowing(LowLatency(cfg, req))
  {
    LowQueueNarrows(cfg);
    RangesNarrow();
    LoraNarrows(req);
    assert Narrowing(Last(LeastKv()));
    assert Narrowing(Then(LeastQueue(), Last(LeastKv())));
    assert Narrowing(Then(LoraAffinity(req), Last(LeastKv())));
  }

  lemma ChartNeverEmpties(cfg: Config, req: Request)
    ensures NeverEmpties(LowLatency(cfg, req), Measurable)
  {
    LeastKvNeverEmpties();
    assert NeverEmpties(Last(LeastKv()), Measurable);
    assert NeverEmpties(Then(LeastQueue(), Last(LeastKv())), Measurable);
    assert NeverEmpties(Then(LoraAffinity(req), Last(LeastKv())), Measurable);
  }

  lemma ChartTotal(cfg: Config, req: Request)
    ensures Total(LowLatency(cfg, req)) && Total(Sheddable(cfg, req))
  {
    assert Total(LowQueue(cfg)) && Total(LeastQueue()) && Total(LeastKv());
    forall pods: seq<Pod> ensures LoraAffinity(req).run(pods) != {} {
      assert LoraSpec(req, pods, true) in LoraAffinity(req).run(pods);
    }
    assert Total(LoraAffinity(req));
    assert Total(Last(LeastKv()));
    assert Total(Then(LeastQueue(), Last(LeastKv()))) && Total(Then(LoraAffinity(req), Last(LeastKv())));
  }

  /** If some pod has a short queue the chart ends with pods that have short queues. */
  lemma ChartPrefersShortQueues(cfg: Config, req: Request, pods: seq<Pod>, r: seq<Pod>, p: Pod, q: Pod)
    requires r in Results(LowLatency(cfg, req), pods) && p in r
    requires q in pods && HasShortQueue(cfg, q)
    ensures HasShortQueue(cfg, p)
  {
    ChartsNarrow(cfg, req);
    var f := LowLatency(cfg, req);
    var kept :| kept in Results(f.current, pods) && r in Continue(f, kept, pods);
    assert kept == LowQueueSpec(cfg, pods) && q in kept;
    TreeNarrows(OnShortQueues(req), kept, r);
    SublistMember(r, kept, p);
  }

  // ---- The filters of a profile

  /** Filters run in turn; an empty result ends the chain. */
  function RunFilters(fs: seq<Filter>, pods: seq<Pod>): set<seq<Pod>>
    decreases |fs|, 1
  {
    if fs == [] then {pods} else set kept, r | kept in Results(fs[0], pods) && r in RunRest(fs, kept) :: r
  }

  function RunRest(fs: seq<Filter>, kept: seq<Pod>): set<seq<Pod>>
    requires fs != []
    decreases |fs|, 0
  {
    if kept == [] then {kept} else RunFilters(fs[1..], kept)
  }

  /** A filter that leaves nothing ends the chain, whatever comes after it. */
  lemma EmptyEnds(fs: seq<Filter>, pods: seq<Pod>, r: seq<Pod>)
    requires fs != [] && Results(fs[0], pods) == {[]}
    ensures r in RunFilters(fs, pods) <==> r == []
  {
    var none: seq<Pod> := [];
    assert none in Results(fs[0], pods) && RunRest(fs, none) == {none};
  }

  /** The request is critical, or the pod is within both thresholds. */
  predicate Admitted(cfg: Config, req: Request, p: Pod) {
    req.critical || (p.queue <= cfg.queueCritical && p.kv <= cfg.kvThreshold)
  }

  predicate Short(cfg: Config, p: Pod) {
    p.queue <= cfg.queueLora
  }

  /** The adapter is on the pod, loaded or waiting. */
  predicate HasAdapter(req: Request, p: Pod) {
    req.targetModel in p.active || req.targetModel in p.waiting
  }

  /** The adapter is on the pod, or there is room for one more. */
  predicate CanServe(req: Request, p: Pod) {
    HasAdapter(req, p) || |p.active| + |p.waiting| < p.maxActive
  }

  /** No pod at all, or a request that may be shed and no pod with capacity for it. */
  ghost predicate MustFail(cfg: Config, req: Request, pods: seq<Pod>) {
    forall p :: p in pods ==> !Admitted(cfg, req, p)
  }

  /** The default filters: the pods with capacity, then the flow chart on those. */
  lemma DefaultInTurn(cfg: Config, req: Request, pods: seq<Pod>, r: seq<Pod>)
    requires r in RunFilters(DefaultFilters(cfg, req), pods)
    ensures var kept := SheddableSpec(cfg, req, pods);
            if kept == [] then r == [] else r in Results(LowLatency(cfg, req), kept)
  {
    var fs, kept := DefaultFilters(cfg, req), SheddableSpec(cfg, req, pods);
    assert Results(fs[0], pods) == {kept};
    if kept != [] {
      assert fs[1..] == [LowLatency(cfg, req)];
      LastFilter(LowLatency(cfg, req), kept, r);
    }
  }

  /** For every random outcome: the scheduler fails exactly when it must; otherwise every candidate
      is an admitted pod, and has a short queue if any admitted pod has. */
  lemma DefaultGuarantees(cfg: Config, req: Request, pods: seq<Pod>, r: seq<Pod>)
    requires Representable(pods) && r in RunFilters(DefaultFilters(cfg, req), pods)
    ensures r == [] <==> MustFail(cfg, req, pods)
    ensures Sublist(r, pods)
    ensures forall p :: p in r ==> p in pods && Admitted(cfg, req, p)
    ensures forall p, q :: p in r && q in pods && Admitted(cfg, req, q) && Short(cfg, q) ==> Short(cfg, p)
  {
    var kept := SheddableSpec(cfg, req, pods);
    assert forall p :: p in kept <==> p in pods && Admitted(cfg, req, p);
    DefaultInTurn(cfg, req, pods, r);
    SheddableNarrows(cfg, req, pods);
    if kept != [] {
      assert AllOk(kept, Measurable);
      ChartOnKept(cfg, req, kept, r);
      SublistTransitive(r, kept, pods);
      forall p | p in r ensures p in kept {
        SublistMember(r, kept, p);
      }
      forall p, q | p in r && q in pods && Admitted(cfg, req, q) && Short(cfg, q) ensures Short(cfg, p) {
        ChartPrefersShortQueues(cfg, req, kept, r, p, q);
      }
    }
  }

  lemma ChartOnKept(cfg: Config, req: Request, kept: seq<Pod>, r: seq<Pod>)
    requires kept != [] && AllOk(kept, Measurable) && r in Results(LowLatency(cfg, req), kept)
    ensures r != [] && Sublist(r, kept)
  {
    ChartsNarrow(cfg, req);
    ChartNeverEmpties(cfg, req);
    TreeNeverEmpties(LowLatency(cfg, req), Measurable, kept, r);
    TreeNarrows(LowLatency(cfg, req), kept, r);
  }

  lemma LastFilter(f: Filter, pods: seq<Pod>, r: seq<Pod>)
    ensures r in RunFilters([f], pods) <==> r in Results(f, pods)
  {
    assert [f][1..] == [];
    forall kept ensures RunRest([f], kept) == {kept} {
      assert RunFilters([], kept) == {kept};
    }
    if r in RunFilters([f], pods) {
      var kept :| kept in Results([f][0], pods) && r in RunRest([f], kept);
    }
    if r in Results(f, pods) {
      assert r in Results([f][0], pods) && r in RunRest([f], r);
    }
  }

  // ---- The outcomes of the chart

  /** The pods that the adapter filter returns, or all of them if it returns none. */
  function Preferred(req: Request, pods: seq<Pod>, affinityFirst: bool): seq<Pod> {
    var group := LoraSpec(req, pods, affinityFirst);
    if group == [] then pods else group
  }

  /** The chart in a straight line: with short queues the adapter, the queue, the cache; without, the queue,
      the adapter, the cache. */
  function ChartSpec(cfg: Config, req: Request, pods: seq<Pod>, affinityFirst: bool): seq<Pod> {
    var short := LowQueueSpec(cfg, pods);
    if short != [] then LeastKvSpec(LeastQueueSpec(Preferred(req, short, affinityFirst)))
    else LeastKvSpec(Preferred(req, LeastQueueSpec(pods), affinityFirst))
  }

  lemma TreeIn(t: Filter, pods: seq<Pod>, kept: seq<Pod>, r: seq<Pod>)
    requires t.Tree? && kept in Results(t.current, pods) && r in Continue(t, kept, pods)
    ensures r in Results(t, pods)
  {}

  lemma TreeOut(t: Filter, pods: seq<Pod>, r: seq<Pod>) returns (kept: seq<Pod>)
    requires t.Tree? && r in Results(t, pods)
    ensures kept in Results(t.current, pods) && r in Continue(t, kept, pods)
  {
    kept :| kept in Results(t.current, pods) && r in Continue(t, kept, pods);
  }

  /** A filter with one possible result, and what follows it. */
  lemma OneThen(f: Filter, next: Filter, pods: seq<Pod>, kept: seq<Pod>, r: seq<Pod>)
    requires Results(f, pods) == {kept} && kept != []
    ensures r in Results(Then(f, next), pods) <==> r in Results(next, kept)
  {
    var t := Then(f, next);
    if r in Results(t, pods) {
      var k := TreeOut(t, pods, r);
    }
    if r in Results(next, kept) {
      TreeIn(t, pods, kept, r);
    }
  }

  lemma LastResults(f: Filter, pods: seq<Pod>, r: seq<Pod>)
    ensures r in Results(Last(f), pods) <==> r in Results(f, pods)
  {
    var t := Last(f);
    if r in Results(t, pods) {
      var k := TreeOut(t, pods, r);
    }
    if r in Results(f, pods) {
      TreeIn(t, pods, r, r);
    }
  }

  lemma LeastQueueNonEmpty(pods: seq<Pod>)
    requires pods != [] && AllOk(pods, Measurable)
    ensures LeastQueueSpec(pods) != [] && AllOk(LeastQueueSpec(pods), Measurable)
  {
    assert forall p :: p in pods ==> Measurable(p);
    QueueBounds(pods);
    var p :| p in pods && p.queue == MinQueue(pods);
    LeastQueueKeepsMin(pods, p);
  }

  lemma QueueThenKv(pods: seq<Pod>, r: seq<Pod>)
    requires pods != [] && AllOk(pods, Measurable)
    ensures r in Results(Then(LeastQueue(), Last(LeastKv())), pods) <==> r == LeastKvSpec(LeastQueueSpec(pods))
  {
    var kept := LeastQueueSpec(pods);
    LeastQueueNonEmpty(pods);
    OneThen(LeastQueue(), Last(LeastKv()), pods, kept, r);
    LastResults(LeastKv(), kept, r);
  }

  lemma LoraThen(req: Request, next: Filter, pods: seq<Pod>, r: seq<Pod>)
    ensures r in Results(Then(LoraAffinity(req), next), pods) <==>
              (r in Results(next, Preferred(req, pods, true)) || r in Results(next, Preferred(req, pods, false)))
  {
    var t, one, two := Then(LoraAffinity(req), next), LoraSpec(req, pods, true), LoraSpec(req, pods, false);
    assert Results(LoraAffinity(req), pods) == {one, two};
    if r in Results(t, pods) {
      var k := TreeOut(t, pods, r);
    }
    if r in Results(next, Preferred(req, pods, true)) {
      TreeIn(t, pods, one, r);
    }
    if r in Results(next, Preferred(req, pods, false)) {
      TreeIn(t, pods, two, r);
    }
  }

  lemma PreferredOk(req: Request, pods: seq<Pod>, b: bool)
    requires pods != [] && AllOk(pods, Measurable)
    ensures Preferred(req, pods, b) != [] && AllOk(Preferred(req, pods, b), Measurable)
  {}

  lemma ShortOutcomes(req: Request, short: seq<Pod>, r: seq<Pod>)
    requires short != [] && AllOk(short, Measurable)
    ensures r in Results(OnShortQueues(req), short) <==>
              (r == LeastKvSpec(LeastQueueSpec(Preferred(req, short, true))) ||
               r == LeastKvSpec(LeastQueueSpec(Preferred(req, short, false))))
  {
    LoraThen(req, Then(LeastQueue(), Last(LeastKv())), short, r);
    PreferredOk(req, short, true);
    PreferredOk(req, short, false);
    QueueThenKv(Preferred(req, short, true), r);
    QueueThenKv(Preferred(req, short, false), r);
  }

  lemma LongOutcomes(req: Request, pods: seq<Pod>, r: seq<Pod>)
    requires pods != [] && AllOk(pods, Measurable)
    ensures r in Results(OnLongQueues(req), pods) <==>
              (r == LeastKvSpec(Preferred(req, LeastQueueSpec(pods), true)) ||
               r == LeastKvSpec(Preferred(req, LeastQueueSpec(pods), false)))
  {
    var kept := LeastQueueSpec(pods);
    LeastQueueNonEmpty(pods);
    OneThen(LeastQueue(), Then(LoraAffinity(req), Last(LeastKv())), pods, kept, r);
    LoraThen(req, Last(LeastKv()), kept, r);
    LastResults(LeastKv(), Preferred(req, kept, true), r);
    LastResults(LeastKv(), Preferred(req, kept, false), r);
  }

  lemma FirstBranch(cfg: Config, req: Request, pods: seq<Pod>, r: seq<Pod>)
    ensures var short := LowQueueSpec(cfg, pods);
            r in Results(LowLatency(cfg, req), pods) <==>
              r in if short != [] then Results(OnShortQueues(req), short) else Results(OnLongQueues(req), pods)
  {
    var f, short := LowLatency(cfg, req), LowQueueSpec(cfg, pods);
    assert Results(f.current, pods) == {short};
    if r in Results(f, pods) {
      var k := TreeOut(f, pods, r);
    }
    if r in Continue(f, short, pods) {
      TreeIn(f, pods, short, r);
    }
  }

  /** The possible results of the chart are exactly those of the straight line, one for each preference. */
  lemma ChartOutcomes(cfg: Config, req: Request, pods: seq<Pod>, r: seq<Pod>)
    requires pods != [] && AllOk(pods, Measurable)
    ensures r in Results(LowLatency(cfg, req), pods) <==>
              (r == ChartSpec(cfg, req, pods, true) || r == ChartSpec(cfg, req, pods, false))
  {
    var short := LowQueueSpec(cfg, pods);
    FirstBranch(cfg, req, pods, r);
    if short != [] {
      ShortOutcomes(req, short, r);
    } else {
      LongOutcomes(req, pods, r);
    }
  }

  /** Among pods of which some can serve the adapter, those preferred all can, and are all of one group. */
  lemma PreferredServe(req: Request, pods: seq<Pod>, b: bool, q: Pod, p: Pod, x: Pod)
    requires q in pods && CanServe(req, q) && p in Preferred(req, pods, b) && x in Preferred(req, pods, b)
    ensures CanServe(req, p) && (HasAdapter(req, p) <==> HasAdapter(req, x))
  {
    LoraEmptyIff(req, pods, b);
    assert HasAffinity(req, q) || HasRoom(req, q);
    LoraGroups(req, pods, b, p, x);
  }

  /** With short queues at hand: if one of those pods can serve the adapter, every candidate can, and all are of
      one group. */
  lemma ShortServe(cfg: Config, req: Request, pods: seq<Pod>, b: bool, q: Pod, p: Pod, x: Pod)
    requires q in pods && Short(cfg, q) && CanServe(req, q)
    requires p in ChartSpec(cfg, req, pods, b) && x in ChartSpec(cfg, req, pods, b)
    ensures CanServe(req, p) && (HasAdapter(req, p) <==> HasAdapter(req, x))
  {
    var short := LowQueueSpec(cfg, pods);
    assert HasShortQueue(cfg, q) && q in short;
    PreferredServe(req, short, b, q, p, x);
  }

  lemma NoneShort(cfg: Config, pods: seq<Pod>)
    ensures LowQueueSpec(cfg, pods) == [] <==> forall y :: y in pods ==> !Short(cfg, y)
  {
    var short := LowQueueSpec(cfg, pods);
    if short != [] {
      assert short[0] in short;
    }
  }

  /** Without: if one of the pods with least queues can serve the adapter, every candidate can, and all are of
      one group. */
  lemma LongServe(cfg: Config, req: Request, pods: seq<Pod>, b: bool, q: Pod, p: Pod, x: Pod)
    requires (forall y :: y in pods ==> !Short(cfg, y)) && q in LeastQueueSpec(pods) && CanServe(req, q)
    requires p in ChartSpec(cfg, req, pods, b) && x in ChartSpec(cfg, req, pods, b)
    ensures CanServe(req, p) && (HasAdapter(req, p) <==> HasAdapter(req, x))
  {
    NoneShort(cfg, pods);
    PreferredServe(req, LeastQueueSpec(pods), b, q, p, x);
  }

  /** For every random outcome the candidates are those of the straight line on the admitted pods, and serve the
      adapter if an admitted pod with a short queue does. */
  lemma DefaultServes(cfg: Config, req: Request, pods: seq<Pod>, r: seq<Pod>)
    requires Representable(pods) && r in RunFilters(DefaultFilters(cfg, req), pods) && r != []
    ensures exists b: bool :: r == ChartSpec(cfg, req, SheddableSpec(cfg, req, pods), b)
    ensures forall p, q :: p in r && q in pods && Admitted(cfg, req, q) && Short(cfg, q) && CanServe(req, q) ==>
              CanServe(req, p)
  {
    var kept := SheddableSpec(cfg, req, pods);
    DefaultInTurn(cfg, req, pods, r);
    assert AllOk(kept, Measurable);
    ChartOutcomes(cfg, req, kept, r);
    var b := r == ChartSpec(cfg, req, kept, true);
    forall p, q | p in r && q in pods && Admitted(cfg, req, q) && Short(cfg, q) && CanServe(req, q)
      ensures CanServe(req, p)
    {
      assert q in kept;
      ShortServe(cfg, req, kept, b, q, p, p);
    }
  }

  // ---- The profile cycle and the scheduling loop

  datatype Result<T> = Success(value: T) | Failure

  ghost predicate AllTotal(fs: seq<Filter>) {
    forall f :: f in fs ==> Total(f)
  }

  /** `p` is a pod that the profile may end up with. */
  ghost predicate MayPick(fs: seq<Filter>, pods: seq<Pod>, p: Pod) {
    exists r :: r in RunFilters(fs, pods) && p in r
  }

  method RunFilterPlugins(fs: seq<Filter>, pods: seq<Pod>) returns (r: seq<Pod>)
    requires AllTotal(fs)
    ensures r in RunFilters(fs, pods)
  {
    r := pods;
    assert fs[0..] == fs;
    for i := 0 to |fs|
      invariant RunFilters(fs[i..], r) <= RunFilters(fs, pods)
    {
      TreeTotal(fs[i], r);
      var kept :| kept in Results(fs[i], r);
      assert fs[i..][0] == fs[i] && fs[i..][1..] == fs[i + 1..];
      assert forall x :: x in RunRest(fs[i..], kept) ==> x in RunFilters(fs[i..], r);
      r := kept;
      if r == [] {
        return;
      }
    }
  }

  /** Filters, then (without scorers) a pod picked at random among those left. */
  method RunCycle(fs: seq<Filter>, pods: seq<Pod>) returns (res: Result<Pod>)
    requires AllTotal(fs)
    ensures res.Success? ==> MayPick(fs, pods, res.value)
    ensures res.Failure? ==> [] in RunFilters(fs, pods)
  {
    var left := RunFilterPlugins(fs, pods);
    if |left| == 0 {
      return Failure;
    }
    var i :| 0 <= i < |left|;
    return Success(left[i]);
  }

  /** All profiles, until each of them has a result. */
  function PickProfiles(profiles: map<string, seq<Filter>>, results: map<string, Pod>): map<string, seq<Filter>> {
    if |profiles| == |results| then map[] else profiles
  }

  /** Each name in `results` has a pod its profile may pick. */
  ghost predicate Picked(profiles: map<string, seq<Filter>>, pods: seq<Pod>, results: map<string, Pod>) {
    forall n :: n in results ==> n in profiles && MayPick(profiles[n], pods, results[n])
  }

  ghost predicate SomeEmpty(profiles: map<string, seq<Filter>>, pods: seq<Pod>) {
    exists n :: n in profiles && [] in RunFilters(profiles[n], pods)
  }

  method RunProfiles(profiles: map<string, seq<Filter>>, pods: seq<Pod>) returns (res: Result<map<string, Pod>>)
    requires forall n :: n in profiles ==> AllTotal(profiles[n])
    ensures res.Success? ==> res.value.Keys == profiles.Keys && Picked(profiles, pods, res.value)
    ensures res.Failure? ==> SomeEmpty(profiles, pods)
  {
    var results: map<string, Pod> := map[];
    var todo := profiles.Keys;
    while todo != {}
      invariant todo <= profiles.Keys && results.Keys == profiles.Keys - todo
      invariant Picked(profiles, pods, results)
      decreases todo
    {
      var name :| name in todo;
      var one := RunCycle(profiles[name], pods);
      if one.Failure? {
        return Failure;
      }
      results := results[name := one.value];
      todo := todo - {name};
    }
    return Success(results);
  }

  method Schedule(profiles: map<string, seq<Filter>>, pods: seq<Pod>) returns (res: Result<map<string, Pod>>)
    requires forall n :: n in profiles ==> AllTotal(profiles[n])
    ensures res.Success? ==> profiles != map[] && res.value.Keys == profiles.Keys && Picked(profiles, pods, res.value)
    ensures res.Failure? ==> profiles == map[] || SomeEmpty(profiles, pods)
  {
    var results: map<string, Pod> := map[];
    while true
      invariant results == map[] || results.Keys == profiles.Keys
      invariant Picked(profiles, pods, results)
      decreases if results.Keys == profiles.Keys then 0 else 1
    {
      var picked := PickProfiles(profiles, results);
      SameSize(profiles.Keys, results.Keys);
      if |picked| == 0 {
        break;
      }
      var round := RunProfiles(picked, pods);
      if round.Failure? {
        return Failure;
      }
      results := results + round.value;
    }
    if |results| == 0 {
      return Failure;
    }
    return Success(results);
  }

  lemma SameSize(a: set<string>, b: set<string>)
    ensures b == {} || a == b ==> (|a| == |b| <==> a == b)
  {}

  /** The default scheduler end to end. */
  method ScheduleDefault(cfg: Config, req: Request, pods: seq<Pod>) returns (res: Result<map<string, Pod>>)
    requires Representable(pods)
    ensures res.Failure? <==> MustFail(cfg, req, pods)
    ensures res.Success? ==>
              && "default" in res.value
              && var p := res.value["default"];
              && p in pods && Admitted(cfg, req, p)
              && (forall q :: q in pods && Admitted(cfg, req, q) && Short(cfg, q) ==> Short(cfg, p))
              && (forall q :: q in pods && Admitted(cfg, req, q) && Short(cfg, q) && CanServe(req, q) ==>
                    CanServe(req, p))
              && exists b: bool :: p in ChartSpec(cfg, req, SheddableSpec(cfg, req, pods), b)
  {
    var fs := DefaultFilters(cfg, req);
    ChartTotal(cfg, req);
    var profiles := map["default" := fs];
    res := Schedule(profiles, pods);
    assert "default" in profiles;
    if res.Success? {
      assert MayPick(fs, pods, res.value["default"]);
      var r :| r in RunFilters(fs, pods) && res.value["default"] in r;
      DefaultGuarantees(cfg, req, pods, r);
      DefaultServes(cfg, req, pods, r);
    } else {
      DefaultGuarantees(cfg, req, pods, []);
    }
  }
}
