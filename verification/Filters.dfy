/** The scheduler's pod filters: what each one keeps, and the loops that compute it. */
module Filters {
  const MAX_INT: int := 0x7FFF_FFFF_FFFF_FFFF

  /** The largest finite double. */
  const MAX_FLOAT64: real := 179769313486231570814527423731704356798070567525844996598917476803157260780028538760589558632766878171540458953514382464234321326889464182768467546703537516986049910576551282076245490090389328944075868508455133942304583236903222948165808559332123347764797926204144723168738177180919299881250404026184124858368.0

  /** A snapshot of a pod's metrics. */
  datatype Pod = Pod(id: nat, queue: int, kv: real, active: set<string>, waiting: set<string>, maxActive: int)

  datatype Request = Request(targetModel: string, critical: bool)

  datatype Config = Config(queueCritical: int, kvThreshold: real, queueLora: int)

  /** The metrics are representable. */
  predicate Representable(pods: seq<Pod>) {
    forall p :: p in pods ==> p.queue <= MAX_INT && p.kv <= MAX_FLOAT64
  }

  /** The pods that satisfy a test, in order. */
  function Keep(pods: seq<Pod>, f: Pod -> bool): (r: seq<Pod>)
    ensures forall p :: p in r <==> p in pods && f(p)
  {
    if pods == [] then []
    else Keep(pods[..|pods| - 1], f) + if f(pods[|pods| - 1]) then [pods[|pods| - 1]] else []
  }

  lemma {:induction false} KeepOneMore(pods: seq<Pod>, i: nat, f: Pod -> bool)
    requires i < |pods|
    ensures Keep(pods[..i + 1], f) == Keep(pods[..i], f) + if f(pods[i]) then [pods[i]] else []
  {
    assert pods[..i + 1][..i] == pods[..i];
  }

  // ---- Capacity for sheddable requests

  predicate HasCapacity(cfg: Config, p: Pod) {
    p.queue <= cfg.queueCritical && p.kv <= cfg.kvThreshold
  }

  function SheddableSpec(cfg: Config, req: Request, pods: seq<Pod>): seq<Pod> {
    if req.critical then pods else Keep(pods, p => HasCapacity(cfg, p))
  }

  method SheddableCapacityFilter(cfg: Config, req: Request, pods: seq<Pod>) returns (r: seq<Pod>)
    ensures r == SheddableSpec(cfg, req, pods)
  {
    if req.critical {
      return pods;
    }
    r := [];
    for i := 0 to |pods|
      invariant r == Keep(pods[..i], p => HasCapacity(cfg, p))
    {
      KeepOneMore(pods, i, p => HasCapacity(cfg, p));
      if pods[i].queue <= cfg.queueCritical && pods[i].kv <= cfg.kvThreshold {
        r := r + [pods[i]];
      }
    }
    assert pods[..|pods|] == pods;
  }

  // ---- Short queues

  predicate HasShortQueue(cfg: Config, p: Pod) {
    p.queue <= cfg.queueLora
  }

  function LowQueueSpec(cfg: Config, pods: seq<Pod>): seq<Pod> {
    Keep(pods, p => HasShortQueue(cfg, p))
  }

  method LowQueueFilter(cfg: Config, pods: seq<Pod>) returns (r: seq<Pod>)
    ensures r == LowQueueSpec(cfg, pods)
  {
    r := [];
    for i := 0 to |pods|
      invariant r == Keep(pods[..i], p => HasShortQueue(cfg, p))
    {
      KeepOneMore(pods, i, p => HasShortQueue(cfg, p));
      if pods[i].queue <= cfg.queueLora {
        r := r + [pods[i]];
      }
    }
    assert pods[..|pods|] == pods;
  }

  // ---- Adapter affinity

  predicate HasAffinity(req: Request, p: Pod) {
    req.targetModel in p.active || req.targetModel in p.waiting
  }

  predicate HasRoom(req: Request, p: Pod) {
    !HasAffinity(req, p) && |p.active| + |p.waiting| < p.maxActive
  }

  function Affine(req: Request, pods: seq<Pod>): seq<Pod> {
    Keep(pods, p => HasAffinity(req, p))
  }

  function Roomy(req: Request, pods: seq<Pod>): seq<Pod> {
    Keep(pods, p => HasRoom(req, p))
  }

  /** Which of the two groups is returned: the random choice matters only if both have pods. */
  function LoraSpec(req: Request, pods: seq<Pod>, preferAffinity: bool): seq<Pod> {
    if Affine(req, pods) != [] && (Roomy(req, pods) == [] || preferAffinity) then Affine(req, pods) else Roomy(req, pods)
  }

  /** One of the two groups is returned whole and never mixed with the other; nothing is returned only
      if both are empty, and the preference decides only between two non-empty groups. */
  lemma LoraGroups(req: Request, pods: seq<Pod>, preferAffinity: bool, p: Pod, q: Pod)
    requires p in pods && q in pods && q in LoraSpec(req, pods, preferAffinity)
    ensures p in LoraSpec(req, pods, preferAffinity) <==>
              (HasAffinity(req, p) || HasRoom(req, p)) && (HasAffinity(req, p) <==> HasAffinity(req, q))
    ensures HasAffinity(req, p) && HasRoom(req, q) ==> !preferAffinity
    ensures HasRoom(req, p) && HasAffinity(req, q) ==> preferAffinity
  {}

  lemma LoraEmptyIff(req: Request, pods: seq<Pod>, preferAffinity: bool)
    ensures LoraSpec(req, pods, preferAffinity) == [] <==>
              forall p :: p in pods ==> !HasAffinity(req, p) && !HasRoom(req, p)
  {
    var r := LoraSpec(req, pods, preferAffinity);
    forall p | p in pods && (HasAffinity(req, p) || HasRoom(req, p)) ensures r != [] {
      assert p in Affine(req, pods) || p in Roomy(req, pods);
    }
    if r != [] {
      assert r[0] in Affine(req, pods) || r[0] in Roomy(req, pods);
    }
  }

  /** `random` is the drawn number in [0, 1). */
  method LoraAffinityFilter(req: Request, pods: seq<Pod>, threshold: real, random: real) returns (r: seq<Pod>)
    ensures r == LoraSpec(req, pods, random < threshold)
  {
    var affine, roomy := [], [];
    for i := 0 to |pods|
      invariant affine == Keep(pods[..i], p => HasAffinity(req, p))
      invariant roomy == Keep(pods[..i], p => HasRoom(req, p))
    {
      KeepOneMore(pods, i, p => HasAffinity(req, p));
      KeepOneMore(pods, i, p => HasRoom(req, p));
      if req.targetModel in pods[i].active || req.targetModel in pods[i].waiting {
        affine := affine + [pods[i]];
      } else if |pods[i].active| + |pods[i].waiting| < pods[i].maxActive {
        roomy := roomy + [pods[i]];
      }
    }
    assert pods[..|pods|] == pods;
    if |affine| > 0 && |roomy| > 0 {
      if random < threshold {
        return affine;
      }
      return roomy;
    }
    if |affine| > 0 {
      return affine;
    }
    return roomy;
  }

  // ---- Range filters

  function MinQueue(pods: seq<Pod>): int {
    if pods == [] then MAX_INT
    else
      var m, last := MinQueue(pods[..|pods| - 1]), pods[|pods| - 1].queue;
      if last <= m then last else m
  }

  /** Counts from zero, like the loop. */
  function MaxQueue(pods: seq<Pod>): int {
    if pods == [] then 0
    else
      var m, last := MaxQueue(pods[..|pods| - 1]), pods[|pods| - 1].queue;
      if last >= m then last else m
  }

  lemma {:induction false} QueueWithin(pods: seq<Pod>, p: Pod)
    requires p in pods
    ensures MinQueue(pods) <= p.queue <= MaxQueue(pods)
  {
    var front, last := pods[..|pods| - 1], pods[|pods| - 1];
    assert pods == front + [last];
    if p in front {
      QueueWithin(front, p);
    }
  }

  lemma {:induction false} MinQueueAttained(pods: seq<Pod>) returns (p: Pod)
    requires Representable(pods) && pods != []
    ensures p in pods && p.queue == MinQueue(pods)
  {
    var front, last := pods[..|pods| - 1], pods[|pods| - 1];
    p := last;
    if front != [] && MinQueue(front) < last.queue {
      p := MinQueueAttained(front);
    }
  }

  lemma {:induction false} MaxQueueAttained(pods: seq<Pod>) returns (p: Pod)
    requires pods != []
    ensures 0 <= MaxQueue(pods) && (MaxQueue(pods) == 0 || (p in pods && p.queue == MaxQueue(pods)))
  {
    var front, last := pods[..|pods| - 1], pods[|pods| - 1];
    p := last;
    if front != [] {
      var q := MaxQueueAttained(front);
      if MaxQueue(front) > last.queue {
        p := q;
      }
    }
  }

  lemma {:induction false} QueueBounds(pods: seq<Pod>)
    requires Representable(pods)
    ensures forall p :: p in pods ==> MinQueue(pods) <= p.queue <= MaxQueue(pods)
    ensures pods != [] ==> exists p :: p in pods && p.queue == MinQueue(pods)
    ensures 0 <= MaxQueue(pods) && (MaxQueue(pods) == 0 || exists p :: p in pods && p.queue == MaxQueue(pods))
  {
    forall p | p in pods ensures MinQueue(pods) <= p.queue <= MaxQueue(pods) {
      QueueWithin(pods, p);
    }
    if pods != [] {
      var lo := MinQueueAttained(pods);
      var hi := MaxQueueAttained(pods);
    }
  }

  /** The range of queue sizes divided by the number of pods: the first part ends here. */
  function QueueCutoff(pods: seq<Pod>): int
    requires pods != []
  {
    MinQueue(pods) + (MaxQueue(pods) - MinQueue(pods)) / |pods|
  }

  predicate InQueueRange(lo: int, hi: int, p: Pod) {
    lo <= p.queue <= hi
  }

  function LeastQueueSpec(pods: seq<Pod>): seq<Pod> {
    if pods == [] then []
    else
      var lo, hi := MinQueue(pods), QueueCutoff(pods);
      Keep(pods, p => InQueueRange(lo, hi, p))
  }

  method QueueRange(pods: seq<Pod>) returns (min: int, max: int)
    ensures min == MinQueue(pods) && max == MaxQueue(pods)
  {
    min, max := MAX_INT, 0;
    for i := 0 to |pods|
      invariant min == MinQueue(pods[..i]) && max == MaxQueue(pods[..i])
    {
      assert pods[..i + 1][..i] == pods[..i];
      if pods[i].queue <= min {
        min := pods[i].queue;
      }
      if pods[i].queue >= max {
        max := pods[i].queue;
      }
    }
    assert pods[..|pods|] == pods;
  }

  method KeepQueueRange(pods: seq<Pod>, lo: int, hi: int) returns (r: seq<Pod>)
    ensures r == Keep(pods, p => InQueueRange(lo, hi, p))
  {
    r := [];
    for i := 0 to |pods|
      invariant r == Keep(pods[..i], p => InQueueRange(lo, hi, p))
    {
      KeepOneMore(pods, i, p => InQueueRange(lo, hi, p));
      if pods[i].queue >= lo && pods[i].queue <= hi {
        r := r + [pods[i]];
      }
    }
    assert pods[..|pods|] == pods;
  }

  method LeastQueueFilter(pods: seq<Pod>) returns (r: seq<Pod>)
    ensures r == LeastQueueSpec(pods)
  {
    var min, max := QueueRange(pods);
    if pods == [] {
      return [];
    }
    r := KeepQueueRange(pods, min, min + (max - min) / |pods|);
  }

  function MinKv(pods: seq<Pod>): real {
    if pods == [] then MAX_FLOAT64
    else
      var m, last := MinKv(pods[..|pods| - 1]), pods[|pods| - 1].kv;
      if last <= m then last else m
  }

  function MaxKv(pods: seq<Pod>): real {
    if pods == [] then 0.0
    else
      var m, last := MaxKv(pods[..|pods| - 1]), pods[|pods| - 1].kv;
      if last >= m then last else m
  }

  lemma {:induction false} KvWithin(pods: seq<Pod>, p: Pod)
    requires p in pods
    ensures MinKv(pods) <= p.kv <= MaxKv(pods)
  {
    var front, last := pods[..|pods| - 1], pods[|pods| - 1];
    assert pods == front + [last];
    if p in front {
      KvWithin(front, p);
    }
  }

  lemma {:induction false} MinKvAttained(pods: seq<Pod>) returns (p: Pod)
    requires Representable(pods) && pods != []
    ensures p in pods && p.kv == MinKv(pods)
  {
    var front, last := pods[..|pods| - 1], pods[|pods| - 1];
    p := last;
    if front != [] && MinKv(front) < last.kv {
      p := MinKvAttained(front);
    }
  }

  lemma {:induction false} MaxKvAttained(pods: seq<Pod>) returns (p: Pod)
    requires pods != []
    ensures 0.0 <= MaxKv(pods) && (MaxKv(pods) == 0.0 || (p in pods && p.kv == MaxKv(pods)))
  {
    var front, last := pods[..|pods| - 1], pods[|pods| - 1];
    p := last;
    if front != [] {
      var q := MaxKvAttained(front);
      if MaxKv(front) > last.kv {
        p := q;
      }
    }
  }

  lemma {:induction false} KvBounds(pods: seq<Pod>)
    requires Representable(pods)
    ensures forall p :: p in pods ==> MinKv(pods) <= p.kv <= MaxKv(pods)
    ensures pods != [] ==> exists p :: p in pods && p.kv == MinKv(pods)
    ensures 0.0 <= MaxKv(pods) && (MaxKv(pods) == 0.0 || exists p :: p in pods && p.kv == MaxKv(pods))
  {
    forall p | p in pods ensures MinKv(pods) <= p.kv <= MaxKv(pods) {
      KvWithin(pods, p);
    }
    if pods != [] {
      var lo := MinKvAttained(pods);
      var hi := MaxKvAttained(pods);
    }
  }

  function KvCutoff(pods: seq<Pod>): real
    requires pods != []
  {
    MinKv(pods) + (MaxKv(pods) - MinKv(pods)) / |pods| as real
  }

  predicate InKvRange(lo: real, hi: real, p: Pod) {
    lo <= p.kv <= hi
  }

  function LeastKvSpec(pods: seq<Pod>): seq<Pod> {
    if pods == [] then []
    else
      var lo, hi := MinKv(pods), KvCutoff(pods);
      Keep(pods, p => InKvRange(lo, hi, p))
  }

  method KvRange(pods: seq<Pod>) returns (min: real, max: real)
    ensures min == MinKv(pods) && max == MaxKv(pods)
  {
    min, max := MAX_FLOAT64, 0.0;
    for i := 0 to |pods|
      invariant min == MinKv(pods[..i]) && max == MaxKv(pods[..i])
    {
      assert pods[..i + 1][..i] == pods[..i];
      if pods[i].kv <= min {
        min := pods[i].kv;
      }
      if pods[i].kv >= max {
        max := pods[i].kv;
      }
    }
    assert pods[..|pods|] == pods;
  }

  method KeepKvRange(pods: seq<Pod>, lo: real, hi: real) returns (r: seq<Pod>)
    ensures r == Keep(pods, p => InKvRange(lo, hi, p))
  {
    r := [];
    for i := 0 to |pods|
      invariant r == Keep(pods[..i], p => InKvRange(lo, hi, p))
    {
      KeepOneMore(pods, i, p => InKvRange(lo, hi, p));
      if pods[i].kv >= lo && pods[i].kv <= hi {
        r := r + [pods[i]];
      }
    }
    assert pods[..|pods|] == pods;
  }

  method LeastKVCacheFilter(pods: seq<Pod>) returns (r: seq<Pod>)
    ensures r == LeastKvSpec(pods)
  {
    var min, max := KvRange(pods);
    if pods == [] {
      return [];
    }
    r := KeepKvRange(pods, min, min + (max - min) / |pods| as real);
  }
}
