/** Weighted scoring and the choice of the pod with the highest score. */
module Scoring {
  import opened Arith
  import opened Filters
  import opened Options

  // ---- The scorers

  const MIN_INT: int := -0x8000_0000_0000_0000

  predicate InInt(pods: seq<Pod>) {
    forall p :: p in pods ==> MIN_INT <= p.queue <= MAX_INT
  }

  /** The shortest and the longest queue. */
  ghost predicate Spans(pods: seq<Pod>, lo: int, hi: int) {
    && (forall p :: p in pods ==> lo <= p.queue <= hi)
    && (exists p :: p in pods && p.queue == lo) && (exists p :: p in pods && p.queue == hi)
  }

  method QueueSpan(pods: seq<Pod>) returns (min: int, max: int)
    requires InInt(pods)
    ensures pods != [] ==> Spans(pods, min, max)
  {
    min, max := MAX_INT, MIN_INT;
    ghost var shortest, longest := 0, 0;
    for i := 0 to |pods|
      invariant forall j :: 0 <= j < i ==> min <= pods[j].queue <= max
      invariant i > 0 ==> 0 <= shortest < i && pods[shortest].queue == min
      invariant i > 0 ==> 0 <= longest < i && pods[longest].queue == max
      invariant i == 0 ==> min == MAX_INT && max == MIN_INT && shortest == longest == 0
    {
      var queueSize := pods[i].queue;
      assert pods[i] in pods;
      if queueSize < min {
        min := queueSize;
        shortest := i;
      }
      if queueSize > max {
        max := queueSize;
        longest := i;
      }
    }
    assert pods != [] ==> pods[shortest] in pods && pods[longest] in pods;
  }

  /** Every pod and no other has its score. */
  ghost predicate ScoredBy(pods: seq<Pod>, min: int, max: int, scores: map<Pod, real>) {
    (forall p :: p in scores <==> p in pods) && forall p :: p in pods ==> scores[p] == QueueScoreOf(min, max, p)
  }

  lemma ScoresOrdered(pods: seq<Pod>, min: int, max: int, scores: map<Pod, real>)
    requires pods != [] ==> Spans(pods, min, max)
    requires ScoredBy(pods, min, max, scores)
    ensures forall p :: p in pods ==> 0.0 <= scores[p] <= 1.0
    ensures forall p, q :: p in pods && q in pods ==> (p.queue <= q.queue <==> scores[p] >= scores[q])
  {
    forall p | p in pods ensures 0.0 <= scores[p] <= 1.0 {
      QueueScoreRange(min, max, p);
    }
    forall p, q | p in pods && q in pods ensures p.queue <= q.queue <==> scores[p] >= scores[q] {
      QueueScoreOrder(min, max, p, q);
    }
  }

  /** In proportion to the distance from the longest queue; 1 if all are equal. */
  predicate Proportional(score: real, lo: int, hi: int, queue: int) {
    if lo == hi then score == 1.0 else score * (hi - lo) as real == (hi - queue) as real
  }

  lemma OneProportional(pods: seq<Pod>, min: int, max: int, lo: int, hi: int, p: Pod, score: real)
    requires Spans(pods, min, max) && Spans(pods, lo, hi) && score == QueueScoreOf(min, max, p)
    ensures Proportional(score, lo, hi, p.queue)
  {
    assert lo == min && hi == max;
    if lo < hi {
      QueueScoreLinear(min, max, p);
    }
  }

  lemma ScoresProportional(pods: seq<Pod>, min: int, max: int, scores: map<Pod, real>)
    requires pods != [] ==> Spans(pods, min, max)
    requires ScoredBy(pods, min, max, scores)
    ensures forall p, lo, hi :: p in pods && Spans(pods, lo, hi) ==> Proportional(scores[p], lo, hi, p.queue)
  {
    forall p, lo, hi | p in pods && Spans(pods, lo, hi) ensures Proportional(scores[p], lo, hi, p.queue) {
      OneProportional(pods, min, max, lo, hi, p, scores[p]);
    }
  }

  lemma ScoresAtEnds(pods: seq<Pod>, min: int, max: int, scores: map<Pod, real>)
    requires pods != [] ==> Spans(pods, min, max)
    requires ScoredBy(pods, min, max, scores)
    ensures pods != [] ==> exists p :: p in pods && scores[p] == 1.0
    ensures forall p, q :: p in pods && q in pods && p.queue != q.queue ==> exists x :: x in pods && scores[x] == 0.0
  {
    if pods != [] {
      var p :| p in pods && p.queue == min;
      var q :| q in pods && q.queue == max;
      QueueScoreRange(min, max, p);
      QueueScoreRange(min, max, q);
    }
  }

  method FillScores(pods: seq<Pod>, min: int, max: int) returns (scores: map<Pod, real>)
    ensures ScoredBy(pods, min, max, scores)
  {
    scores := map[];
    for i := 0 to |pods|
      invariant forall p :: p in scores <==> p in pods[..i]
      invariant forall p :: p in scores ==> scores[p] == QueueScoreOf(min, max, p)
    {
      scores := scores[pods[i] := QueueScoreOf(min, max, pods[i])];
    }
    assert pods[..|pods|] == pods;
  }

  /** Shorter queues score higher, on a scale from the longest (0) to the shortest (1) queue, in proportion to
      the distance from the longest; if all are equal everybody scores 1. */
  method QueueScore(pods: seq<Pod>) returns (scores: map<Pod, real>)
    requires InInt(pods)
    ensures forall p :: p in scores <==> p in pods
    ensures forall p :: p in pods ==> 0.0 <= scores[p] <= 1.0
    ensures forall p, q :: p in pods && q in pods ==> (p.queue <= q.queue <==> scores[p] >= scores[q])
    ensures forall p, lo, hi :: p in pods && Spans(pods, lo, hi) ==> Proportional(scores[p], lo, hi, p.queue)
    ensures pods != [] ==> exists p :: p in pods && scores[p] == 1.0
    ensures forall p, q :: p in pods && q in pods && p.queue != q.queue ==> exists x :: x in pods && scores[x] == 0.0
  {
    var min, max := QueueSpan(pods);
    scores := FillScores(pods, min, max);
    ScoresOrdered(pods, min, max, scores);
    ScoresProportional(pods, min, max, scores);
    ScoresAtEnds(pods, min, max, scores);
  }

  function QueueScoreOf(min: int, max: int, p: Pod): real {
    if max == min then 1.0 else (max - p.queue) as real / (max - min) as real
  }

  lemma QueueScoreLinear(min: int, max: int, p: Pod)
    requires min < max
    ensures QueueScoreOf(min, max, p) * (max - min) as real == (max - p.queue) as real
  {}

  lemma QueueScoreRange(min: int, max: int, p: Pod)
    requires min <= p.queue <= max
    ensures 0.0 <= QueueScoreOf(min, max, p) <= 1.0
    ensures p.queue == min ==> QueueScoreOf(min, max, p) == 1.0
    ensures min < p.queue == max ==> QueueScoreOf(min, max, p) == 0.0
  {
    if min < max {
      Fraction(max - p.queue, max - min);
    }
  }

  lemma QueueScoreOrder(min: int, max: int, p: Pod, q: Pod)
    requires min <= p.queue <= max && min <= q.queue <= max
    ensures p.queue <= q.queue <==> QueueScoreOf(min, max, p) >= QueueScoreOf(min, max, q)
  {
    if min < max {
      QuotientOrder(max - q.queue, max - p.queue, max - min);
    }
  }

  method KvCacheScore(pods: seq<Pod>) returns (scores: map<Pod, real>)
    requires forall p :: p in pods ==> 0.0 <= p.kv <= 1.0
    ensures forall p :: p in scores <==> p in pods
    ensures forall p :: p in pods ==> 0.0 <= scores[p] <= 1.0
    ensures forall p :: p in pods ==> scores[p] + p.kv == 1.0
  {
    scores := map[];
    for i := 0 to |pods|
      invariant forall p :: p in scores <==> p in pods[..i]
      invariant forall p :: p in scores ==> scores[p] == 1.0 - p.kv
    {
      scores := scores[pods[i] := 1.0 - pods[i].kv];
    }
  }

  // ---- Weighted sums

  /** The output of one scorer and the weight it counts with. */
  datatype Weighted = Weighted(weight: int, scores: map<Pod, real>)

  function Contribution(w: Weighted, p: Pod): real {
    if p in w.scores then w.scores[p] * w.weight as real else 0.0
  }

  function WeightedSum(ws: seq<Weighted>, p: Pod): real {
    if ws == [] then 0.0 else WeightedSum(ws[..|ws| - 1], p) + Contribution(ws[|ws| - 1], p)
  }

  lemma {:induction false} WeightedSumOneMore(ws: seq<Weighted>, i: nat, p: Pod)
    requires i < |ws|
    ensures WeightedSum(ws[..i + 1], p) == WeightedSum(ws[..i], p) + Contribution(ws[i], p)
  {
    assert ws[..i + 1][..i] == ws[..i];
  }

  /** Scores in [0, 1] for pods of the list, counted with weights that are not negative. */
  ghost predicate WellScored(pods: seq<Pod>, ws: seq<Weighted>) {
    forall w :: w in ws ==> w.weight >= 0 && forall p :: p in w.scores ==> p in pods && 0.0 <= w.scores[p] <= 1.0
  }

  lemma {:induction false} SumNonNegative(pods: seq<Pod>, ws: seq<Weighted>, p: Pod)
    requires WellScored(pods, ws)
    ensures WeightedSum(ws, p) >= 0.0
  {
    if ws != [] {
      var w := ws[|ws| - 1];
      assert w in ws;
      SumNonNegative(pods, ws[..|ws| - 1], p);
      if p in w.scores {
        assert w.scores[p] * w.weight as real >= 0.0;
      }
    }
  }

  ghost predicate Mentioned(ws: seq<Weighted>, p: Pod) {
    exists w :: w in ws && p in w.scores
  }

  function ScoreIn(total: map<Pod, real>, p: Pod): real {
    if p in total then total[p] else 0.0
  }

  method RunScorerPlugins(pods: seq<Pod>, ws: seq<Weighted>) returns (total: map<Pod, real>)
    ensures forall p :: p in pods ==> p in total
    ensures forall p :: p in total ==> total[p] == WeightedSum(ws, p)
    ensures forall p :: p in total ==> p in pods || Mentioned(ws, p)
  {
    total := map[];
    for i := 0 to |pods|
      invariant forall p :: p in total <==> p in pods[..i]
      invariant forall p :: p in total ==> total[p] == 0.0
    {
      total := total[pods[i] := 0.0];
    }
    for i := 0 to |ws|
      invariant forall p :: p in pods ==> p in total
      invariant forall p :: ScoreIn(total, p) == WeightedSum(ws[..i], p)
      invariant forall p :: p in total ==> p in pods || Mentioned(ws, p)
    {
      assert ws[i] in ws;
      total := AddScores(total, ws[i]);
      forall p ensures ScoreIn(total, p) == WeightedSum(ws[..i + 1], p) {
        WeightedSumOneMore(ws, i, p);
      }
    }
    assert ws[..|ws|] == ws;
    assert forall p :: p in total ==> total[p] == ScoreIn(total, p);
  }

  /** Adds one scorer's weighted scores, in whatever order the map is walked. */
  method AddScores(total: map<Pod, real>, w: Weighted) returns (out: map<Pod, real>)
    ensures out.Keys == total.Keys + w.scores.Keys
    ensures forall p :: ScoreIn(out, p) == ScoreIn(total, p) + Contribution(w, p)
  {
    out := total;
    var todo := w.scores.Keys;
    while todo != {}
      invariant todo <= w.scores.Keys && out.Keys == total.Keys + (w.scores.Keys - todo)
      invariant forall p :: ScoreIn(out, p) == ScoreIn(total, p) +
                              if p in todo then 0.0 else Contribution(w, p)
      decreases todo
    {
      var p :| p in todo;
      out := out[p := ScoreIn(out, p) + w.scores[p] * w.weight as real];
      todo := todo - {p};
    }
  }

  // ---- Picking

  datatype Scored = Scored(pod: Pod, score: real)

  /** The scan starts below zero, so that it finds a pod exactly if some score is at least -1;
      otherwise it would index an empty list, which is the result None. */
  method MaxScorePick(scored: seq<Scored>) returns (res: Option<Pod>)
    ensures res.Some? <==> exists s :: s in scored && s.score >= -1.0
    ensures res.Some? ==> exists s :: s in scored && s.pod == res.value && forall x :: x in scored ==> x.score <= s.score
  {
    var highest: seq<Scored> := [];
    var maxScore := -1.0;
    for i := 0 to |scored|
      invariant maxScore >= -1.0 && forall j :: 0 <= j < i ==> scored[j].score <= maxScore
      invariant highest == [] ==> maxScore == -1.0 && forall j :: 0 <= j < i ==> scored[j].score < -1.0
      invariant forall h :: h in highest ==> h in scored && h.score == maxScore
    {
      if scored[i].score > maxScore {
        maxScore := scored[i].score;
        highest := [scored[i]];
      } else if scored[i].score == maxScore {
        highest := highest + [scored[i]];
      }
    }
    if |highest| == 0 {
      return None;
    }
    var k :| 0 <= k < |highest|;
    assert highest[k] in highest;
    return Some(highest[k].pod);
  }

  /** The list of scored pods, in the order in which the map happens to be walked. */
  method ScoredPods(total: map<Pod, real>) returns (scored: seq<Scored>)
    ensures forall s :: s in scored <==> s.pod in total && s.score == total[s.pod]
  {
    scored := [];
    var todo := total.Keys;
    while todo != {}
      invariant todo <= total.Keys
      invariant forall s :: s in scored <==> s.pod in total && s.pod !in todo && s.score == total[s.pod]
      decreases todo
    {
      var p :| p in todo;
      scored := scored + [Scored(p, total[p])];
      todo := todo - {p};
    }
  }

  /** Scoring and picking together: for well-behaved scorers a pod is always found, and it has the
      greatest weighted sum of scores. */
  method PickBest(pods: seq<Pod>, ws: seq<Weighted>) returns (res: Option<Pod>)
    requires pods != [] && WellScored(pods, ws)
    ensures res.Some? && res.value in pods
    ensures forall q :: q in pods ==> WeightedSum(ws, q) <= WeightedSum(ws, res.value)
  {
    var total := RunScorerPlugins(pods, ws);
    var scored := ScoredPods(total);
    assert Scored(pods[0], total[pods[0]]) in scored by {
      assert pods[0] in pods;
    }
    SumNonNegative(pods, ws, pods[0]);
    res := MaxScorePick(scored);
    forall q | q in pods ensures WeightedSum(ws, q) <= WeightedSum(ws, res.value) {
      assert Scored(q, total[q]) in scored;
    }
  }
}
