/** A whole scheduling cycle with the prefix plugin as a scorer and as a post-cycle step. */
module PrefixCycle {
  import Arith
  import opened DecisionTree
  import opened Filters
  import opened Options
  import opened PrefixTypes
  import opened PrefixMatch
  import opened PrefixPlugin
  import opened Profile
  import opened PromptChain
  import opened PromptHash
  import opened Scheduler
  import opened Scoring

  /** The servers of some pods. */
  function Servers(name: Pod -> ServerId, pods: seq<Pod>): seq<ServerId> {
    seq(|pods|, i requires 0 <= i < |pods| => name(pods[i]))
  }

  /** What the plugin says of the pods. */
  function PrefixScores(name: Pod -> ServerId, state: PrefixState, pods: seq<Pod>): map<Pod, real> {
    map p | p in pods :: PodScore(state, name(p))
  }

  function AtMostTwo(n: nat): nat {
    if n < 2 then n else 2
  }

  /** The total of a pod: the other scorers, and the plugin with its weight. */
  function Total(scorers: seq<Scorer>, weight: int, name: Pod -> ServerId, state: PrefixState, pods: seq<Pod>,
                 p: Pod): real {
    WeightedSum(Outputs(scorers, pods) + [Weighted(weight, PrefixScores(name, state, pods))], p)
  }

  ghost predicate BestTotal(scorers: seq<Scorer>, weight: int, name: Pod -> ServerId, state: PrefixState,
                            pods: seq<Pod>, p: Pod) {
    p in pods && forall q :: q in pods ==>
      Total(scorers, weight, name, state, pods, q) <= Total(scorers, weight, name, state, pods, p)
  }

  lemma AllSound(scorers: seq<Scorer>, weight: int, name: Pod -> ServerId, state: PrefixState, pods: seq<Pod>)
    requires weight >= 0 && forall s :: s in scorers ==> Sound(s)
    requires forall p :: 0.0 <= PodScore(state, p) <= 1.0
    ensures WellScored(pods, Outputs(scorers, pods) + [Weighted(weight, PrefixScores(name, state, pods))])
  {
    var ws := Outputs(scorers, pods);
    forall w | w in ws ensures w.weight >= 0 && forall p :: p in w.scores ==> p in pods && 0.0 <= w.scores[p] <= 1.0 {
      var i :| 0 <= i < |ws| && ws[i] == w;
      assert Sound(scorers[i]);
    }
  }

  /** The plugin scores beside the others, and the pod with the highest total is picked. */
  method PickWithPrefix(pl: Plugin, scorers: seq<Scorer>, weight: int, name: Pod -> ServerId,
                        model: seq<Byte>, prompt: seq<Byte>, spare: nat, left: seq<Pod>)
    returns (best: Pod, state: PrefixState)
    requires pl.Valid() && left != [] && weight >= 0 && forall s :: s in scorers ==> Sound(s)
    ensures BestTotal(scorers, weight, name, state, left, best)
    ensures Selected(pl.indexer.Entries(), state.hashes, AtMostTwo(|left|), state.matches)
    ensures |prompt| < pl.hashBlockSize ==> state.hashes == []
    ensures |prompt| >= pl.hashBlockSize ==>
              IsChain(pl.H, model, Take(Blocks(prompt, pl.hashBlockSize), pl.maxPrefixBlocks), state.hashes)
  {
    var scores;
    scores, state := pl.Score(model, prompt, spare, Servers(name, left));
    forall p ensures 0.0 <= PodScore(state, p) <= 1.0 {
      PodScoreRange(pl.indexer.Entries(), AtMostTwo(|left|), state, p);
    }
    AllSound(scorers, weight, name, state, left);
    var picked := PickBest(left, Outputs(scorers, left) + [Weighted(weight, PrefixScores(name, state, left))]);
    best := picked.value;
  }

  /** Filters, scorers, the pod with the highest total; then the plugin records where the prompt went. */
  method RunPrefixCycle(pl: Plugin, fs: seq<Filter>, scorers: seq<Scorer>, weight: int, name: Pod -> ServerId,
                        model: seq<Byte>, prompt: seq<Byte>, spare: nat, pods: seq<Pod>)
    returns (res: Result<Pod>, state: PrefixState)
    requires pl.Valid() && AllTotal(fs) && weight >= 0 && forall s :: s in scorers ==> Sound(s)
    modifies pl, pl.indexer
    ensures pl.Valid()
    ensures res.Failure? ==> [] in RunFilters(fs, pods) && pl.history == old(pl.history)
    ensures res.Success? ==>
              && (exists r :: r in RunFilters(fs, pods) && BestTotal(scorers, weight, name, state, r, res.value)
                    && Selected(old(pl.indexer.Entries()), state.hashes, AtMostTwo(|r|), state.matches))
              && var blocks := Take(Blocks(prompt, pl.hashBlockSize), pl.maxPrefixBlocks);
              if |prompt| < pl.hashBlockSize then state.hashes == [] && pl.history == old(pl.history)
              else
                && IsChain(pl.H, model, blocks, state.hashes)
                && pl.history == old(pl.history) + [Recorded(model, blocks, state.hashes, name(res.value))]
                && HoldsWhole(pl.indexer.Entries(), state.hashes, name(res.value))
  {
    state := PrefixState([], map[]);
    var left := RunFilterPlugins(fs, pods);
    if |left| == 0 {
      return Failure, state;
    }
    var best;
    best, state := PickWithPrefix(pl, scorers, weight, name, model, prompt, spare, left);
    ghost var blocks := Take(Blocks(prompt, pl.hashBlockSize), pl.maxPrefixBlocks);
    PromptIsSized(prompt, pl.hashBlockSize, pl.maxPrefixBlocks);
    pl.PostCycle(Some(state), name(best), model, blocks);
    return Success(best), state;
  }

  /** Without other scorers the plugin decides: if some pod at hand holds the whole prompt, so does the one picked. */
  lemma Sticky(entries: seq<Key>, numServers: nat, weight: int, name: Pod -> ServerId, state: PrefixState,
               pods: seq<Pod>, p: Pod, q: Pod)
    requires weight > 0 && numServers >= 1 && Selected(entries, state.hashes, numServers, state.matches)
    requires BestTotal([], weight, name, state, pods, p) && q in pods && HoldsWhole(entries, state.hashes, name(q))
    ensures HoldsWhole(entries, state.hashes, name(p))
  {
    PodScoreRange(entries, numServers, state, name(p));
    PodScoreRange(entries, numServers, state, name(q));
    PickedScore(weight, name, state, pods, p, q, PodScore(state, name(p)), PodScore(state, name(q)));
    FullScore(entries, numServers, state, name(p));
  }

  lemma PickedScore(weight: int, name: Pod -> ServerId, state: PrefixState, pods: seq<Pod>, p: Pod, q: Pod,
                    x: real, y: real)
    requires BestTotal([], weight, name, state, pods, p) && q in pods && weight > 0
    requires x == PodScore(state, name(p)) <= 1.0 && y == PodScore(state, name(q)) == 1.0
    ensures x == 1.0
  {
    var tp, tq := Total([], weight, name, state, pods, p), Total([], weight, name, state, pods, q);
    PrefixAlone(weight, name, state, pods, p, x, tp);
    PrefixAlone(weight, name, state, pods, q, y, tq);
    AtLeastFull(x, y, weight as real);
  }

  lemma AtLeastFull(x: real, y: real, w: real)
    requires x <= 1.0 == y && w > 0.0 && y * w <= x * w
    ensures x == 1.0
  {
    Arith.ScaleOrder(y, x, w);
  }

  lemma PrefixAlone(weight: int, name: Pod -> ServerId, state: PrefixState, pods: seq<Pod>, p: Pod, x: real, t: real)
    requires p in pods && x == PodScore(state, name(p)) && t == Total([], weight, name, state, pods, p)
    ensures t == x * weight as real
  {
    var w := Weighted(weight, PrefixScores(name, state, pods));
    assert Outputs([], pods) == [] && [] + [w] == [w] && [w][..|[w]| - 1] == [];
    assert WeightedSum([w], p) == WeightedSum([], p) + Contribution(w, p);
  }

  lemma FullScore(entries: seq<Key>, numServers: nat, state: PrefixState, s: ServerId)
    requires Selected(entries, state.hashes, numServers, state.matches) && PodScore(state, s) == 1.0
    ensures HoldsWhole(entries, state.hashes, s)
  {
    ScoreOne(state, s, if s in state.matches then state.matches[s] else 0);
    assert s in state.matches ==> state.matches[s] == PrefixMatch.Best(entries, state.hashes, s);
  }

  lemma ScoreOne(state: PrefixState, s: ServerId, matched: nat)
    requires matched == (if s in state.matches then state.matches[s] else 0) && PodScore(state, s) == 1.0
    ensures state.hashes != [] && matched >= |state.hashes|
  {
    var n := |state.hashes|;
    SameQuotient(n);
    Arith.QuotientOrder(n, matched, n);
  }

  lemma SameQuotient(n: nat)
    ensures n > 0 ==> n as real / n as real == 1.0
  {}

  /** A cycle without filters and other scorers. */
  method RouteFreely(pl: Plugin, weight: int, name: Pod -> ServerId, model: seq<Byte>, prompt: seq<Byte>,
                     spare: nat, pods: seq<Pod>, ghost blocks: seq<seq<Byte>>)
    returns (res: Result<Pod>, state: PrefixState)
    requires pl.Valid() && weight >= 0 && pods != [] && |prompt| >= pl.hashBlockSize
    requires blocks == Take(Blocks(prompt, pl.hashBlockSize), pl.maxPrefixBlocks)
    modifies pl, pl.indexer
    ensures pl.Valid() && res.Success? && BestTotal([], weight, name, state, pods, res.value)
    ensures Selected(old(pl.indexer.Entries()), state.hashes, AtMostTwo(|pods|), state.matches)
    ensures IsChain(pl.H, model, blocks, state.hashes)
    ensures pl.history == old(pl.history) + [Recorded(model, blocks, state.hashes, name(res.value))]
    ensures HoldsWhole(pl.indexer.Entries(), state.hashes, name(res.value))
  {
    assert RunFilters([], pods) == {pods};
    res, state := RunPrefixCycle(pl, [], [], weight, name, model, prompt, spare, pods);
  }

  /** The same prompt again goes to a pod that holds it whole, whatever else was recorded before. */
  method RouteAgain(pl: Plugin, weight: int, name: Pod -> ServerId, model: seq<Byte>, prompt: seq<Byte>,
                    spare: nat, spareAgain: nat, pods: seq<Pod>)
    returns (first: Result<Pod>, second: Result<Pod>, ghost entries: seq<Key>, ghost hashes: seq<BlockHash>)
    requires pl.Valid() && weight > 0 && pods != [] && |prompt| >= pl.hashBlockSize
    modifies pl, pl.indexer
    ensures pl.Valid() && first.Success? && second.Success? && first.value in pods && second.value in pods
    ensures var blocks := Take(Blocks(prompt, pl.hashBlockSize), pl.maxPrefixBlocks);
            && IsChain(pl.H, model, blocks, hashes)
            && entries == IndexAfter(old(pl.history) +
                [Recorded(model, blocks, hashes, name(first.value))], pl.indexer.maxCacheSize)
    ensures HoldsWhole(entries, hashes, name(first.value)) && HoldsWhole(entries, hashes, name(second.value))
  {
    ghost var blocks := Take(Blocks(prompt, pl.hashBlockSize), pl.maxPrefixBlocks);
    var state, again;
    first, state := RouteFreely(pl, weight, name, model, prompt, spare, pods, blocks);
    entries, hashes := pl.indexer.Entries(), state.hashes;
    second, again := RouteFreely(pl, weight, name, model, prompt, spareAgain, pods, blocks);
    ChainUnique(pl.H, model, blocks, hashes, again.hashes);
    Sticky(entries, AtMostTwo(|pods|), weight, name, again, pods, second.value, first.value);
  }
}
