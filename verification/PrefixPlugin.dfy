/** The longest-prefix scorer on top of the index and the prompt hasher. */
module PrefixMatch {
  import opened PrefixTypes
  import opened Recency
  import opened PromptHash
  import opened PromptChain

  /** The longest match of `s`: one more than the greatest place at which it is cached. */
  ghost function Best(entries: seq<Key>, hashes: seq<BlockHash>, s: ServerId): (n: nat)
    ensures n <= |hashes|
    ensures n > 0 ==> Key(hashes[n - 1], s) in entries
    ensures forall i :: n <= i < |hashes| ==> Key(hashes[i], s) !in entries
  {
    if hashes == [] then 0
    else if Key(hashes[|hashes| - 1], s) in entries then |hashes|
    else Best(entries, hashes[..|hashes| - 1], s)
  }

  lemma BestAbove(entries: seq<Key>, hashes: seq<BlockHash>, s: ServerId, j: nat)
    ensures Best(entries, hashes, s) > j <==> exists i :: j <= i < |hashes| && Key(hashes[i], s) in entries
  {
    var n := Best(entries, hashes, s);
    if n > j {
      assert j <= n - 1 < |hashes| && Key(hashes[n - 1], s) in entries;
    }
  }

  /** A request whose prompt was hashed and recorded on a server. */
  datatype Recorded = Recorded(model: seq<Byte>, blocks: seq<seq<Byte>>, hashes: seq<BlockHash>, server: ServerId)

  ghost predicate ValidRecord(H: seq<Byte> -> BlockHash, size: nat, q: Recorded) {
    Sized(q.blocks, size) && IsChain(H, q.model, q.blocks, q.hashes)
  }

  ghost predicate ValidHistory(H: seq<Byte> -> BlockHash, size: nat, hist: seq<Recorded>) {
    forall q :: q in hist ==> ValidRecord(H, size, q)
  }

  /** Every key ever recorded, in order. */
  ghost function AllKeys(hist: seq<Recorded>): seq<Key> {
    if hist == [] then []
    else AllKeys(hist[..|hist| - 1]) + KeysFor(hist[|hist| - 1].hashes, hist[|hist| - 1].server)
  }

  /** The index after recording a history on an empty one. */
  ghost function IndexAfter(hist: seq<Recorded>, cap: nat): seq<Key>
    requires cap >= 1
  {
    TouchAll([], AllKeys(hist), cap)
  }

  lemma IndexAfterRecording(hist: seq<Recorded>, q: Recorded, cap: nat)
    requires cap >= 1
    ensures IndexAfter(hist + [q], cap) == TouchAll(IndexAfter(hist, cap), KeysFor(q.hashes, q.server), cap)
  {
    assert (hist + [q])[..|hist|] == hist;
    TouchAllAppend([], AllKeys(hist), KeysFor(q.hashes, q.server), cap);
  }

  lemma {:induction false} KeyRecorded(hist: seq<Recorded>, k: Key)
    ensures k in AllKeys(hist) <==> exists q :: q in hist && q.server == k.server && k.hash in q.hashes
  {
    if hist != [] {
      var front, last := hist[..|hist| - 1], hist[|hist| - 1];
      assert hist == front + [last];
      KeyRecorded(front, k);
      var ks := KeysFor(last.hashes, last.server);
      if k in ks {
        var i :| 0 <= i < |ks| && ks[i] == k;
        assert last.hashes[i] == k.hash;
      }
      if last.server == k.server && k.hash in last.hashes {
        var i :| 0 <= i < |last.hashes| && last.hashes[i] == k.hash;
        assert ks[i] == k;
      }
    }
  }

  ghost function HistoryInputs(H: seq<Byte> -> BlockHash, size: nat, hist: seq<Recorded>): set<seq<Byte>>
    requires ValidHistory(H, size, hist)
  {
    set q, x | q in hist && x in Inputs(q.model, q.blocks, q.hashes) :: x
  }

  /** `q` was recorded on `s` and shares the model and the visible bytes of the first `j` blocks. */
  ghost predicate Shares(q: Recorded, s: ServerId, model: seq<Byte>, blocks: seq<seq<Byte>>, j: nat) {
    q.server == s && q.model == model && SameVisible(q.blocks, blocks, j)
  }

  ghost predicate SharedBefore(H: seq<Byte> -> BlockHash, size: nat, hist: seq<Recorded>, s: ServerId,
                               model: seq<Byte>, blocks: seq<seq<Byte>>, j: nat)
    requires ValidHistory(H, size, hist)
  {
    exists q :: q in hist && Shares(q, s, model, blocks, j)
  }

  /** No model name is as long as a block followed by a hash, so that it could pass for one. */
  ghost predicate NamesDiffer(size: nat, hist: seq<Recorded>, model: seq<Byte>) {
    |model| != size + 8 && forall q :: q in hist ==> |q.model| != size + 8
  }

  /** A key in the index that carries hash `r[i]` of this prompt was put there by a request on the
      same server with the same model and the same visible bytes in the first `i` blocks. */
  lemma HitMeansShared(H: seq<Byte> -> BlockHash, size: nat, hist: seq<Recorded>, s: ServerId,
                       model: seq<Byte>, blocks: seq<seq<Byte>>, r: seq<BlockHash>, i: nat)
    requires ValidHistory(H, size, hist) && Sized(blocks, size) && IsChain(H, model, blocks, r)
    requires NamesDiffer(size, hist, model)
    requires CollisionFree(H, HistoryInputs(H, size, hist) + Inputs(model, blocks, r))
    requires i < |r| && Key(r[i], s) in AllKeys(hist)
    ensures SharedBefore(H, size, hist, s, model, blocks, i)
  {
    KeyRecorded(hist, Key(r[i], s));
    var q :| q in hist && q.server == s && r[i] in q.hashes;
    assert ValidRecord(H, size, q);
    var j :| 0 <= j < |q.hashes| && q.hashes[j] == r[i];
    assert Inputs(q.model, q.blocks, q.hashes) <= HistoryInputs(H, size, hist);
    SharedHashSharedPrefix(H, size, q.model, q.blocks, q.hashes, j, model, blocks, r, i);
    assert Shares(q, s, model, blocks, i);
  }

  /** Sound under eviction: a match of length above `j` means that a request recorded earlier on
      that server had this model and this prompt's first `j` blocks. */
  lemma MatchIsShared(H: seq<Byte> -> BlockHash, size: nat, cap: nat, hist: seq<Recorded>, s: ServerId,
                      model: seq<Byte>, blocks: seq<seq<Byte>>, r: seq<BlockHash>, j: nat)
    requires cap >= 1
    requires ValidHistory(H, size, hist) && Sized(blocks, size) && IsChain(H, model, blocks, r)
    requires NamesDiffer(size, hist, model)
    requires CollisionFree(H, HistoryInputs(H, size, hist) + Inputs(model, blocks, r))
    requires Best(IndexAfter(hist, cap), r, s) > j
    ensures SharedBefore(H, size, hist, s, model, blocks, j)
  {
    BestAbove(IndexAfter(hist, cap), r, s, j);
    var i :| j <= i < |r| && Key(r[i], s) in IndexAfter(hist, cap);
    HoldsMostRecent(AllKeys(hist), cap);
    assert Key(r[i], s) in ByLastTouch(AllKeys(hist));
    HitMeansShared(H, size, hist, s, model, blocks, r, i);
    var q :| q in hist && Shares(q, s, model, blocks, i);
    assert Shares(q, s, model, blocks, j);
  }

  /** Exact as long as nothing was evicted: the longest match measures the longest prefix shared
      with any request recorded on that server. */
  lemma MatchIsExact(H: seq<Byte> -> BlockHash, size: nat, cap: nat, hist: seq<Recorded>, s: ServerId,
                     model: seq<Byte>, blocks: seq<seq<Byte>>, r: seq<BlockHash>, j: nat)
    requires cap >= 1 && |ByLastTouch(AllKeys(hist))| <= cap
    requires ValidHistory(H, size, hist) && Sized(blocks, size) && IsChain(H, model, blocks, r)
    requires NamesDiffer(size, hist, model)
    requires CollisionFree(H, HistoryInputs(H, size, hist) + Inputs(model, blocks, r))
    ensures Best(IndexAfter(hist, cap), r, s) > j <==> SharedBefore(H, size, hist, s, model, blocks, j)
  {
    if Best(IndexAfter(hist, cap), r, s) > j {
      MatchIsShared(H, size, cap, hist, s, model, blocks, r, j);
    }
    if SharedBefore(H, size, hist, s, model, blocks, j) {
      var q :| q in hist && Shares(q, s, model, blocks, j);
      assert ValidRecord(H, size, q);
      SharedPrefixSharedHashes(H, model, q.blocks, q.hashes, blocks, r, j);
      assert q.hashes[j] == q.hashes[..j + 1][j] == r[..j + 1][j] == r[j];
      KeyRecorded(hist, Key(r[j], s));
      HoldsMostRecent(AllKeys(hist), cap);
      BestAbove(IndexAfter(hist, cap), r, s, j);
    }
  }
}

module PrefixPlugin {
  import opened PrefixTypes
  import opened Recency
  import opened PromptHash
  import opened PromptChain
  import opened PrefixMatch
  import Arith
  import PrefixIndex
  import opened Options

  const DEFAULT_NUM_SERVERS_TO_MATCH: nat := 2

  /** What a scoring step leaves for the post-cycle step of the same request. */
  datatype PrefixState = PrefixState(hashes: seq<BlockHash>, matches: map<ServerId, nat>)

  /** The reported servers with a longer match than `t`. */
  ghost function Longer(res: map<ServerId, nat>, t: ServerId): set<ServerId>
    requires t in res
  {
    set s | s in res && res[s] > res[t]
  }

  /** The search stops as soon as enough servers are found: nobody is reported behind that many others. */
  ghost predicate Ranked(res: map<ServerId, nat>, numServers: nat) {
    forall t :: t in res ==> |Longer(res, t)| < numServers
  }

  /** The selection rule: each reported server with its longest match, nobody with a longer match
      than a reported one left out, nobody at all left out while there is room, and nobody reported
      after enough others. */
  ghost predicate Selected(entries: seq<Key>, hashes: seq<BlockHash>, numServers: nat, res: map<ServerId, nat>) {
    && (forall s :: s in res ==> 0 < res[s] == Best(entries, hashes, s))
    && (forall s, t :: s !in res && t in res && Best(entries, hashes, s) > 0 ==> Best(entries, hashes, s) < res[t])
    && (|res| < numServers ==> forall s :: Best(entries, hashes, s) > 0 ==> s in res)
    && Ranked(res, numServers)
  }

  lemma RankedStep(res: map<ServerId, nat>, cached: set<ServerId>, n: nat, out: map<ServerId, nat>, numServers: nat)
    requires Ranked(res, numServers) && |res| < numServers && forall s :: s in res ==> res[s] > n
    requires out.Keys == res.Keys + cached && forall s :: s in out ==> out[s] == if s in res then res[s] else n
    ensures Ranked(out, numServers)
  {
    forall t | t in out ensures |Longer(out, t)| < numServers {
      if t in res {
        assert Longer(out, t) == Longer(res, t);
      } else {
        assert Longer(out, t) == res.Keys;
      }
    }
  }

  /** The reported servers whose longest match exceeds that of `t`, reported or not. */
  ghost function Ahead(entries: seq<Key>, hashes: seq<BlockHash>, res: map<ServerId, nat>, t: ServerId): set<ServerId> {
    set s | s in res && Best(entries, hashes, s) > Best(entries, hashes, t)
  }

  /** Who is in: exactly the servers with a match that fewer than `numServers` reported ones exceed. */
  lemma SelectedIff(entries: seq<Key>, hashes: seq<BlockHash>, numServers: nat, res: map<ServerId, nat>, t: ServerId)
    requires Selected(entries, hashes, numServers, res)
    ensures t in res <==> (Best(entries, hashes, t) > 0 && |Ahead(entries, hashes, res, t)| < numServers)
  {
    if t in res {
      assert Ahead(entries, hashes, res, t) == Longer(res, t);
    } else if Best(entries, hashes, t) > 0 {
      assert Ahead(entries, hashes, res, t) == res.Keys;
      assert |res.Keys| == |res|;
    }
  }

  /** A server that holds the whole prompt is never squeezed out. */
  lemma WholePromptSelected(entries: seq<Key>, hashes: seq<BlockHash>, numServers: nat, res: map<ServerId,
                            nat>, s: ServerId)
    requires Selected(entries, hashes, numServers, res) && numServers >= 1
    requires HoldsWhole(entries, hashes, s)
    ensures s in res && res[s] == |hashes|
  {
    assert Best(entries, hashes, s) == |hashes|;
    assert forall t :: t in res ==> Best(entries, hashes, s) >= res[t];
    assert s !in res ==> res.Keys == {};
  }

  ghost predicate HoldsWhole(entries: seq<Key>, hashes: seq<BlockHash>, p: ServerId) {
    hashes != [] && Key(hashes[|hashes| - 1], p) in entries
  }

  /** The fraction of the prompt's hashes that the pod's longest match covers. */
  function PodScore(state: PrefixState, p: ServerId): real {
    if |state.hashes| == 0 then 0.0
    else (if p in state.matches then state.matches[p] else 0) as real / |state.hashes| as real
  }

  /** The score is the matched part of the `n` hashes. */
  predicate Covers(score: real, n: nat, matched: nat) {
    score * n as real == matched as real
  }

  lemma PodScoreCovers(entries: seq<Key>, numServers: nat, state: PrefixState, p: ServerId)
    requires Selected(entries, state.hashes, numServers, state.matches) && state.hashes != []
    ensures Covers(PodScore(state, p), |state.hashes|, if p in state.matches then Best(entries, state.hashes, p) else 0)
  {
    assert p in state.matches ==> state.matches[p] == Best(entries, state.hashes, p);
    FractionCovers(if p in state.matches then state.matches[p] else 0, |state.hashes|);
  }

  lemma FractionCovers(matched: nat, n: nat)
    requires n > 0
    ensures Covers(matched as real / n as real, n, matched)
  {}

  lemma PodScoreRange(entries: seq<Key>, numServers: nat, state: PrefixState, p: ServerId)
    requires Selected(entries, state.hashes, numServers, state.matches)
    ensures 0.0 <= PodScore(state, p) <= 1.0
    ensures numServers >= 1 && HoldsWhole(entries, state.hashes, p) ==> PodScore(state, p) == 1.0
  {
    if state.hashes != [] {
      Arith.Fraction(if p in state.matches then state.matches[p] else 0, |state.hashes|);
    }
    if numServers >= 1 && HoldsWhole(entries, state.hashes, p) {
      WholePromptSelected(entries, state.hashes, numServers, state.matches, p);
    }
  }

  class Plugin {
    const H: seq<Byte> -> BlockHash
    const hashBlockSize: nat
    const maxPrefixBlocks: nat
    const indexer: PrefixIndex.Indexer
    ghost var history: seq<Recorded>  // the requests recorded so far

    /** The index is what the recorded history makes it. */
    ghost predicate Valid()
      reads this, indexer
    {
      && hashBlockSize >= 8
      && indexer.Valid()
      && ValidHistory(H, hashBlockSize, history)
      && indexer.Entries() == IndexAfter(history, indexer.maxCacheSize)
    }

    constructor (H: seq<Byte> -> BlockHash, hashBlockSize: nat, maxPrefixBlocks: nat, capacity: nat)
      requires hashBlockSize >= 8 && capacity >= 1
      ensures Valid() && history == []
    {
      this.H := H;
      this.hashBlockSize := hashBlockSize;
      this.maxPrefixBlocks := maxPrefixBlocks;
      this.indexer := new PrefixIndex.Indexer(capacity);
      this.history := [];
    }

    method MatchLongestPrefix(hashes: seq<BlockHash>, numServers: nat) returns (res: map<ServerId, nat>)
      requires indexer.Valid()
      ensures Selected(indexer.Entries(), hashes, numServers, res)
    {
      res := map[];
      ghost var entries := indexer.Entries();
      var i := |hashes|;
      while i > 0 && |res| < numServers
        invariant 0 <= i <= |hashes|
        invariant forall s :: s in res <==> Best(entries, hashes, s) > i
        invariant forall s :: s in res ==> res[s] == Best(entries, hashes, s)
        invariant Ranked(res, numServers)
      {
        i := i - 1;
        var cached := indexer.Get(hashes[i]);
        forall s ensures Best(entries, hashes, s) > i <==> Best(entries, hashes, s) > i + 1 || s in cached {
          BestAbove(entries, hashes, s, i);
          BestAbove(entries, hashes, s, i + 1);
        }
        ghost var found := res;
        res := AddNew(res, cached, i + 1);
        RankedStep(found, cached, i + 1, res, numServers);
      }
    }

    /** Gives every server of `cached` that has no match yet the match `n`. */
    method AddNew(res: map<ServerId, nat>, cached: set<ServerId>, n: nat) returns (out: map<ServerId, nat>)
      ensures out.Keys == res.Keys + cached
      ensures forall s :: s in out ==> out[s] == if s in res then res[s] else n
    {
      out := res;
      var todo := cached;
      while todo != {}
        invariant todo <= cached
        invariant out.Keys == res.Keys + (cached - todo)
        invariant forall s :: s in out ==> out[s] == if s in res then res[s] else n
        decreases todo
      {
        var server :| server in todo;
        if server !in out {
          out := out[server := n];
        }
        todo := todo - {server};
      }
    }

    method Score(model: seq<Byte>, prompt: seq<Byte>, spare: nat, pods: seq<ServerId>)
      returns (scores: map<ServerId, real>, state: PrefixState)
      requires Valid()
      ensures |prompt| < hashBlockSize ==> state.hashes == []
      ensures |prompt| >= hashBlockSize ==>
                IsChain(H, model, Take(Blocks(prompt, hashBlockSize), maxPrefixBlocks), state.hashes)
      ensures Selected(indexer.Entries(), state.hashes, if |pods| < 2 then |pods| else 2, state.matches)
      ensures forall p :: p in scores <==> p in pods
      ensures forall p :: p in scores ==> 0.0 <= scores[p] == PodScore(state, p) <= 1.0
      ensures forall p :: p in scores ==> HoldsWhole(indexer.Entries(), state.hashes, p) ==> scores[p] == 1.0
      ensures state.hashes != [] ==> forall p :: p in scores ==>
                Covers(scores[p], |state.hashes|,
                    if p in state.matches then Best(indexer.Entries(), state.hashes, p) else 0)
    {
      var hashes := HashPrompt(H, model, prompt, spare, hashBlockSize, maxPrefixBlocks);
      var numServers := if DEFAULT_NUM_SERVERS_TO_MATCH > |pods| then |pods| else DEFAULT_NUM_SERVERS_TO_MATCH;
      var matches := MatchLongestPrefix(hashes, numServers);
      state := PrefixState(hashes, matches);
      scores := ScorePods(state, pods);
      forall p | p in scores ensures 0.0 <= scores[p] <= 1.0
        ensures HoldsWhole(indexer.Entries(), hashes, p) ==> scores[p] == 1.0
      {
        PodScoreRange(indexer.Entries(), numServers, state, p);
      }
      if hashes != [] {
        forall p | p in scores
          ensures Covers(scores[p], |hashes|, if p in matches then Best(indexer.Entries(), hashes, p) else 0)
        {
          PodScoreCovers(indexer.Entries(), numServers, state, p);
        }
      }
    }

    static method ScorePods(state: PrefixState, pods: seq<ServerId>) returns (scores: map<ServerId, real>)
      ensures forall p :: p in scores <==> p in pods
      ensures forall p :: p in scores ==> scores[p] == PodScore(state, p)
    {
      scores := map[];
      for n := 0 to |pods|
        invariant forall p :: p in scores <==> p in pods[..n]
        invariant forall p :: p in scores ==> scores[p] == PodScore(state, p)
      {
        scores := scores[pods[n] := PodScore(state, pods[n])];
      }
    }

    /** Records the chosen pod. Without a state left by the scorer nothing is recorded. */
    method PostCycle(state: Option<PrefixState>, target: ServerId, ghost model: seq<Byte>, ghost blocks: seq<seq<Byte>>)
      requires Valid()
      requires state.Some? && state.value.hashes != [] ==>
          ValidRecord(H, hashBlockSize, Recorded(model, blocks, state.value.hashes, target))
      modifies this, indexer
      ensures Valid()
      ensures history == old(history) +
                if state.Some? && state.value.hashes != [] then [Recorded(model, blocks, state.value.hashes,
                    target)] else []
      ensures state.Some? && state.value.hashes != [] ==> HoldsWhole(indexer.Entries(), state.value.hashes, target)
    {
      if state.None? {
        return;
      }
      var hashes := state.value.hashes;
      ghost var before := indexer.Entries();
      indexer.AddAll(hashes, target);
      ghost var keys := KeysFor(hashes, target);
      if hashes != [] {
        ghost var q := Recorded(model, blocks, hashes, target);
        IndexAfterRecording(history, q, indexer.maxCacheSize);
        history := history + [q];
        LastTouchedPresent(before, keys, indexer.maxCacheSize);
      }
    }

    /** Scoring a prompt right after it was recorded on a pod gives that pod exactly 1. */
    method RecordThenScore(model: seq<Byte>, prompt: seq<Byte>, spare: nat, spareAgain: nat,
                           pods: seq<ServerId>, target: ServerId)
      returns (scores: map<ServerId, real>)
      requires Valid() && |prompt| >= hashBlockSize && target in pods
      modifies this, indexer
      ensures Valid() && target in scores && scores[target] == 1.0
    {
      var _, state := Score(model, prompt, spare, pods);
      ghost var blocks := Take(Blocks(prompt, hashBlockSize), maxPrefixBlocks);
      PromptIsSized(prompt, hashBlockSize, maxPrefixBlocks);
      PostCycle(Some(state), target, model, blocks);
      var again: PrefixState;
      scores, again := Score(model, prompt, spareAgain, pods);
      ChainUnique(H, model, blocks, state.hashes, again.hashes);
    }
  }

  /** A score above j of n hashes says that a request with this model and this prompt's first j blocks was
      recorded on the pod. As long as nothing was evicted the score of a pod selected says exactly that. */
  lemma ScoreMeansShared(pl: Plugin, numServers: nat, state: PrefixState, p: ServerId,
                         model: seq<Byte>, blocks: seq<seq<Byte>>, j: nat)
    requires pl.Valid() && Sized(blocks, pl.hashBlockSize) && IsChain(pl.H, model, blocks, state.hashes)
    requires Selected(pl.indexer.Entries(), state.hashes, numServers, state.matches)
    requires NamesDiffer(pl.hashBlockSize, pl.history, model)
    requires CollisionFree(pl.H, HistoryInputs(pl.H, pl.hashBlockSize, pl.history) + Inputs(model, blocks, state.hashes))
    ensures PodScore(state, p) > j as real / |state.hashes| as real ==>
              SharedBefore(pl.H, pl.hashBlockSize, pl.history, p, model, blocks, j)
    ensures p in state.matches && |ByLastTouch(AllKeys(pl.history))| <= pl.indexer.maxCacheSize ==>
              (PodScore(state, p) > j as real / |state.hashes| as real <==>
               SharedBefore(pl.H, pl.hashBlockSize, pl.history, p, model, blocks, j))
  {
    var cap, matched := pl.indexer.maxCacheSize, if p in state.matches then state.matches[p] else 0;
    Arith.QuotientOrder(matched, j, |state.hashes|);
    if matched > j {
      MatchIsShared(pl.H, pl.hashBlockSize, cap, pl.history, p, model, blocks, state.hashes, j);
    }
    if p in state.matches && |ByLastTouch(AllKeys(pl.history))| <= cap {
      MatchIsExact(pl.H, pl.hashBlockSize, cap, pl.history, p, model, blocks, state.hashes, j);
    }
  }
}
