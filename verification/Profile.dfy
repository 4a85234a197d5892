/** A scheduling cycle with scorers: filters, then the pod with the highest weighted score. */
module Profile {
  import opened DecisionTree
  import opened Filters
  import opened Options
  import opened Scheduler
  import opened Scoring

  datatype Scorer = Scorer(weight: int, score: seq<Pod> -> map<Pod, real>)

  /** A weight that is not negative, and scores in [0, 1] for nothing but the pods given. */
  ghost predicate Sound(s: Scorer) {
    s.weight >= 0 && forall pods, p :: p in s.score(pods) ==> p in pods && 0.0 <= s.score(pods)[p] <= 1.0
  }

  /** What the scorers say of the pods that the filters leave. */
  function Outputs(scorers: seq<Scorer>, pods: seq<Pod>): seq<Weighted> {
    seq(|scorers|, i requires 0 <= i < |scorers| => Weighted(scorers[i].weight, scorers[i].score(pods)))
  }

  ghost predicate Best(scorers: seq<Scorer>, pods: seq<Pod>, p: Pod) {
    p in pods && forall q :: q in pods ==> WeightedSum(Outputs(scorers, pods), q) <= WeightedSum(Outputs(scorers,
        pods), p)
  }

  method RunScoredCycle(fs: seq<Filter>, scorers: seq<Scorer>, pods: seq<Pod>) returns (res: Result<Pod>)
    requires AllTotal(fs) && forall s :: s in scorers ==> Sound(s)
    ensures res.Failure? ==> [] in RunFilters(fs, pods)
    ensures res.Success? ==> exists r :: r in RunFilters(fs, pods) && Best(scorers, r, res.value)
  {
    var left := RunFilterPlugins(fs, pods);
    if |left| == 0 {
      return Failure;
    }
    var ws := Outputs(scorers, left);
    forall w | w in ws ensures w.weight >= 0 && forall p :: p in w.scores ==> p in left && 0.0 <= w.scores[p] <= 1.0 {
      var i :| 0 <= i < |ws| && ws[i] == w;
      assert Sound(scorers[i]);
    }
    var best := PickBest(left, ws);
    assert Best(scorers, left, best.value);
    return Success(best.value);
  }

  /** The default filters followed by any scorers: the cycle fails exactly when no pod is admitted; otherwise
      the pod is admitted, has a short queue if any admitted pod has, and is best of those left. */
  method RunDefaultScored(cfg: Config, req: Request, scorers: seq<Scorer>, pods: seq<Pod>) returns (res: Result<Pod>)
    requires Representable(pods) && forall s :: s in scorers ==> Sound(s)
    ensures res.Failure? <==> MustFail(cfg, req, pods)
    ensures res.Success? ==>
              && res.value in pods && Admitted(cfg, req, res.value)
              && (forall q :: q in pods && Admitted(cfg, req, q) && Short(cfg, q) ==> Short(cfg, res.value))
              && exists r :: r in RunFilters(DefaultFilters(cfg, req), pods) && Best(scorers, r, res.value)
  {
    var fs := DefaultFilters(cfg, req);
    ChartTotal(cfg, req);
    res := RunScoredCycle(fs, scorers, pods);
    if res.Failure? {
      DefaultGuarantees(cfg, req, pods, []);
    } else {
      ghost var r :| r in RunFilters(fs, pods) && Best(scorers, r, res.value);
      DefaultGuarantees(cfg, req, pods, r);
    }
  }
}
