/** The saturation detector, and how its verdict relates to the default scheduler. */
module Saturation {
  import opened Filters
  import opened Scheduler
  import opened Options

  /** A pod as the detector sees it: its metrics, if any, and how old they are. */
  datatype Reading = Reading(metrics: Option<Pod>, age: int)

  datatype DetectorConfig = DetectorConfig(queueDepth: int, kvUtil: real, staleness: int)

  predicate GoodCapacity(d: DetectorConfig, r: Reading) {
    && r.metrics.Some?
    && r.age <= d.staleness
    && r.metrics.value.queue <= d.queueDepth
    && r.metrics.value.kv <= d.kvUtil
  }

  method IsSaturated(d: DetectorConfig, readings: seq<Reading>) returns (saturated: bool)
    ensures saturated <==> forall r :: r in readings ==> !GoodCapacity(d, r)
    ensures !saturated <==> exists r :: r in readings && r.metrics.Some? && r.age <= d.staleness
                                        && r.metrics.value.queue <= d.queueDepth && r.metrics.value.kv <= d.kvUtil
  {
    if |readings| == 0 {
      return true;
    }
    for i := 0 to |readings|
      invariant forall j :: 0 <= j < i ==> !GoodCapacity(d, readings[j])
    {
      var r := readings[i];
      if r.metrics.None? {
        continue;
      }
      if r.age > d.staleness {
        continue;
      }
      if r.metrics.value.queue > d.queueDepth {
        continue;
      }
      if r.metrics.value.kv > d.kvUtil {
        continue;
      }
      assert GoodCapacity(d, readings[i]) && readings[i] in readings;
      return false;
    }
    return true;
  }

  /** With the same thresholds, and over pods that the detector has read, a verdict of not saturated
      means that no request is shed, whatever the random choices. */
  lemma NotSaturatedNotShed(cfg: Config, d: DetectorConfig, readings: seq<Reading>, req: Request,
                            pods: seq<Pod>, r: seq<Pod>)
    requires cfg.queueCritical == d.queueDepth && cfg.kvThreshold == d.kvUtil
    requires forall x :: x in readings && x.metrics.Some? ==> x.metrics.value in pods
    requires exists x :: x in readings && GoodCapacity(d, x)
    requires Representable(pods) && r in RunFilters(DefaultFilters(cfg, req), pods)
    ensures r != []
  {
    DefaultGuarantees(cfg, req, pods, r);
    var x :| x in readings && GoodCapacity(d, x);
    assert Admitted(cfg, req, x.metrics.value);
  }
}
