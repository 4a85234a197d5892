/** The actor object of the simulator, whose methods change its stores in place. */
module Actor {
  import opened Batching
  import opened BatchingProofs
  import opened Options

  class LLMActor {
    var prefillStore: seq<Request>
    var decodeStore: seq<Request>
    var recomputeStore: seq<Request>
    var decodedStore: seq<Request>
    var loraLoaded: set<Lora>
    var maxNumTokensAllowed: int

    ghost function Model(): State
      reads this
    {
      State(prefillStore, decodeStore, recomputeStore, decodedStore, loraLoaded, maxNumTokensAllowed)
    }

    ghost predicate Valid()
      reads this
    {
      Inv(Model()) && UniqueIds(Model()) && maxNumTokensAllowed > 0
    }

    constructor ()
      ensures Valid() && Model() == INITIAL
    {
      prefillStore, decodeStore, recomputeStore, decodedStore := [], [], [], [];
      loraLoaded := {};
      maxNumTokensAllowed := MAX_NUM_TOKENS_ALLOWED;
    }

    method NumTokens(store: seq<Request>) returns (n: int)
      ensures n == Tokens(store)
    {
      n := 0;
      for i := 0 to |store|
        invariant n == Tokens(store[..i])
      {
        assert store[..i + 1][..i] == store[..i];
        n := n + store[i].input + store[i].output - store[i].remaining;
      }
      assert store[..|store|] == store;
    }

    method CanPrefillItems() returns (b: bool)
      requires maxNumTokensAllowed > 0
      ensures b == CanPrefill(Model())
    {
      var inDecode := NumTokens(decodeStore);
      if |recomputeStore| > 0 && Fits([], 0, inDecode, recomputeStore[0]) {
        return true;
      }
      return |prefillStore| > 0 && Fits([], 0, inDecode, prefillStore[0]);
    }

    /** The three admission limits, over counters that the caller keeps. */
    predicate Fits(batch: seq<Request>, batchTokens: int, inDecode: int, r: Request)
      requires maxNumTokensAllowed > 0
      reads this
      ensures batchTokens == Tokens(batch) && inDecode == Tokens(decodeStore) ==>
                Fits(batch, batchTokens, inDecode, r) == Admits(Model(), batch, r)
    {
      && |decodeStore| + |batch| + 1 <= MAX_NUM_SEQ
      && batchTokens + r.input <= MAX_NUM_BATCH_TOKENS
      && !Full(batchTokens + |batch| + inDecode, maxNumTokensAllowed)
    }

    /** Takes requests from the front of `queue` into the batch for as long as they fit. */
    method TakeWhileFits(batch: seq<Request>, batchTokens: int, inDecode: int, queue: seq<Request>)
      returns (batch': seq<Request>, batchTokens': int, queue': seq<Request>)
      requires maxNumTokensAllowed > 0
      requires batchTokens == Tokens(batch) && inDecode == Tokens(decodeStore)
      ensures var n := Admitted(Model(), batch, queue);
              batch' == batch + queue[..n] && queue' == queue[n..]
      ensures batchTokens' == Tokens(batch')
    {
      batch', batchTokens', queue' := batch, batchTokens, queue;
      ghost var s, k := Model(), 0;
      assert queue[..0] == [] && batch + [] == batch && queue[0..] == queue;
      while |queue'| > 0 && Fits(batch', batchTokens', inDecode, queue'[0])
        invariant batchTokens' == Tokens(batch')
        invariant 0 <= k <= |queue| && batch' == batch + queue[..k] && queue' == queue[k..]
        invariant Admitted(s, batch', queue') == Admitted(s, batch, queue) - k
        decreases |queue'|
      {
        var r := queue'[0];
        assert Admits(s, batch', r);
        TakeOne(s, batch, queue, k, batch', queue');
        batch', batchTokens', queue' := batch' + [r], batchTokens' + r.input + r.output - r.remaining, queue'[1..];
        k := k + 1;
      }
      assert queue' != [] ==> !Admits(s, batch', queue'[0]);
      NoneTaken(s, batch', queue');
    }

    method FetchPrefillItems() returns (batch: seq<Request>)
      requires maxNumTokensAllowed > 0
      modifies this`recomputeStore, this`prefillStore
      ensures batch == Batch(old(Model())) && Model() == Fetched(old(Model()))
    {
      ghost var s := Model();
      var inDecode := NumTokens(decodeStore);
      var batchTokens, queue;
      batch, batchTokens, queue := TakeWhileFits([], 0, inDecode, recomputeStore);
      assert batch == s.recompute[..FromRecompute(s)];
      recomputeStore := queue;
      AdmittedSame(s, Model(), batch, prefillStore);
      batch, batchTokens, queue := TakeWhileFits(batch, batchTokens, inDecode, prefillStore);
      prefillStore := queue;
    }

    /** Loads missing adapters and generates the first token of every request of the batch. */
    method ProcessPrefillItems(batch: seq<Request>)
      modifies this`decodeStore, this`decodedStore, this`loraLoaded, this`maxNumTokensAllowed
      ensures Model() == Prefilled(old(Model()), batch)
    {
      ghost var s := Model();
      for i := 0 to |batch|
        invariant Model() == Prefilled(s, batch[..i])
      {
        PrefilledOneMore(s, batch[..i], batch[i]);
        assert batch[..i + 1] == batch[..i] + [batch[i]];
        var item := batch[i];
        if item.lora.Some? && item.lora.value !in loraLoaded {
          loraLoaded := loraLoaded + {item.lora.value};
          maxNumTokensAllowed := maxNumTokensAllowed - LoraSize(item.lora.value);
        }
        item := item.(remaining := item.remaining - 1);
        if item.remaining == 0 {
          decodedStore := decodedStore + [item];
        } else {
          decodeStore := decodeStore + [item];
        }
      }
      assert batch[..|batch|] == batch;
    }

    method ShouldRecomputeItems() returns (b: bool)
      requires maxNumTokensAllowed > 0
      ensures b == ShouldRecompute(Model())
    {
      var inDecode := NumTokens(decodeStore);
      b := (|decodeStore| + inDecode) as real / maxNumTokensAllowed as real > MAX_MEMORY_BEFORE_RECOMPUTE;
    }

    /** Moves the newest requests to the recompute store until the next decoding step fits. */
    method RemoveFromDecodeStore()
      requires Valid()
      modifies this`decodeStore, this`recomputeStore
      ensures Valid() && Model() == Evicted(old(Model()))
    {
      ghost var s := Model();
      var over := ShouldRecomputeItems();
      while over && |decodeStore| > 0
        invariant Valid() && over == ShouldRecompute(Model())
        invariant Evicted(Model()) == Evicted(s)
        decreases |decodeStore|
      {
        RecomputeNewest();
        over := ShouldRecomputeItems();
      }
    }

    /** The request to move is looked up in the store by the id of the newest one. */
    method RecomputeNewest()
      requires Valid() && |decodeStore| > 0
      modifies this`decodeStore, this`recomputeStore
      ensures Valid() && Model() == EvictNewest(old(Model()))
    {
      ghost var s, last := Model(), |decodeStore| - 1;
      var i := FindInDecode(decodeStore[|decodeStore| - 1].id);
      assert i == last by {
        if i < last {
          DecodeIdsDiffer(s, i, last);
        }
      }
      var item := decodeStore[i];
      decodeStore := decodeStore[..i] + decodeStore[i + 1..];
      recomputeStore := Enqueue(recomputeStore, item.(recomputes := item.recomputes + 1));
      assert s.decode[..last] + s.decode[last + 1..] == s.decode[..last];
      assert Model() == EvictNewest(s);
      EvictNewestKeeps(s);
      UniqueKept(s, EvictNewest(s));
    }

    method FindInDecode(id: nat) returns (i: nat)
      requires |decodeStore| > 0 && decodeStore[|decodeStore| - 1].id == id
      ensures i < |decodeStore| && decodeStore[i].id == id
    {
      i := 0;
      while decodeStore[i].id != id
        invariant 0 <= i < |decodeStore|
        decreases |decodeStore| - i
      {
        i := i + 1;
      }
    }

    /** Generates one token for every request of the decode store. */
    method DecodeItems()
      modifies this`decodeStore, this`decodedStore
      ensures Model() == Decoded(old(Model()))
    {
      ghost var all := decodeStore;
      var items := [];
      while |decodeStore| > 0
        invariant |items| <= |all| && decodeStore == all[|items|..]
        invariant items == SteppedAll(all[..|items|]) && decodedStore == old(decodedStore)
        decreases |decodeStore|
      {
        var msg := decodeStore[0];
        decodeStore := decodeStore[1..];
        assert all[..|items| + 1] == all[..|items|] + [msg];
        items := items + [msg.(remaining := msg.remaining - 1)];
      }
      assert all[..|items|] == all;
      PutBack(items);
    }

    /** Sorts requests that generated a token into the decode and the decoded store. */
    method PutBack(items: seq<Request>)
      modifies this`decodeStore, this`decodedStore
      ensures decodeStore == old(decodeStore) + Unfinished(items)
      ensures decodedStore == old(decodedStore) + Finished(items)
    {
      ghost var u, f := [], [];
      for i := 0 to |items|
        invariant u == Unfinished(items[..i]) && decodeStore == old(decodeStore) + u
        invariant f == Finished(items[..i]) && decodedStore == old(decodedStore) + f
      {
        FinishedOneMore(items[..i], items[i]);
        assert items[..i + 1] == items[..i] + [items[i]];
        if items[i].remaining == 0 {
          decodedStore := decodedStore + [items[i]];
          f := f + [items[i]];
        } else {
          decodeStore := decodeStore + [items[i]];
          u := u + [items[i]];
        }
      }
      assert items[..|items|] == items;
    }

    /** One iteration of the actor loop. */
    method PrefillOrDecode()
      requires Valid()
      modifies this
      ensures Valid() && Model() == Iterate(old(Model()))
    {
      ghost var s := Model();
      IterateKeeps(s);
      if |decodeStore| == 0 && |prefillStore| == 0 && |recomputeStore| == 0 {
        return;
      }
      var prefill := CanPrefillItems();
      if prefill {
        var batch := FetchPrefillItems();
        ProcessPrefillItems(batch);
      } else {
        var over := ShouldRecomputeItems();
        EvictedKeeps(s);
        if over {
          RemoveFromDecodeStore();
        }
        if |decodeStore| > 0 {
          DecodeItems();
        }
      }
      UniqueKept(s, Model());
      InvAllowed(Model());
    }

    /** The loop left alone: it drains, and every request comes out finished. */
    method RunUntilIdle()
      requires Valid()
      modifies this
      ensures Valid() && Model() == Drain(old(Model()))
      ensures prefillStore == [] && decodeStore == [] && recomputeStore == []
      ensures forall b :: Count(decodedStore, b) == Population(old(Model()), b)
    {
      ghost var s := Model();
      DrainsCompletely(s);
      while |decodeStore| > 0 || |prefillStore| > 0 || |recomputeStore| > 0
        invariant Valid() && Drain(Model()) == Drain(s)
        decreases Work(Model()), |decodeStore|
      {
        IterateKeeps(Model());
        WorkNonNegative(Model());
        PrefillOrDecode();
        WorkNonNegative(Model());
      }
    }
  }

  lemma {:induction false} FinishedOneMore(rs: seq<Request>, r: Request)
    ensures r.remaining == 0 ==> Finished(rs + [r]) == Finished(rs) + [r] && Unfinished(rs + [r]) == Unfinished(rs)
    ensures r.remaining != 0 ==> Finished(rs + [r]) == Finished(rs) && Unfinished(rs + [r]) == Unfinished(rs) + [r]
  {
    assert (rs + [r])[..|rs|] == rs;
  }

  lemma {:induction false} SteppedOneMore(rs: seq<Request>, r: Request)
    ensures SteppedAll(rs + [r]) == SteppedAll(rs) + [Stepped(r)]
  {}

  lemma {:induction false} LoadLorasOneMore(s: State, rs: seq<Request>, r: Request)
    ensures LoadLoras(s, rs + [r]) == LoadLora(LoadLoras(s, rs), r.lora)
  {
    assert (rs + [r])[..|rs|] == rs;
  }

  /** Loading an adapter has nothing to do with the stores. */
  lemma LoadLoraApart(s: State, l: Option<Lora>, decode: seq<Request>, decoded: seq<Request>)
    ensures LoadLora(s.(decode := decode, decoded := decoded), l) == LoadLora(s, l).(decode := decode, decoded := decoded)
  {}

  lemma {:induction false} PrefilledOneMore(s: State, rs: seq<Request>, r: Request)
    ensures var t, done := LoadLora(Prefilled(s, rs), r.lora), Stepped(r);
            Prefilled(s, rs + [r]) == if done.remaining == 0 then t.(decoded := t.decoded + [done])
                                      else t.(decode := t.decode + [done])
  {
    var done, last := SteppedAll(rs), Stepped(r);
    LoadLorasOneMore(s, rs, r);
    LoadLoraApart(LoadLoras(s, rs), r.lora, s.decode + Unfinished(done), s.decoded + Finished(done));
    SteppedOneMore(rs, r);
    FinishedOneMore(done, last);
    Regroup(s.decoded, Finished(done), [last]);
    Regroup(s.decode, Unfinished(done), [last]);
  }

  lemma Regroup(a: seq<Request>, b: seq<Request>, c: seq<Request>)
    ensures a + (b + c) == a + b + c
  {}

  lemma NoneTaken(s: State, batch: seq<Request>, queue: seq<Request>)
    requires s.allowed > 0 && (queue != [] ==> !Admits(s, batch, queue[0]))
    ensures Admitted(s, batch, queue) == 0
  {}

  /** The queue's first request moves to the end of the batch. */
  lemma {:induction false} TakeOne(s: State, batch: seq<Request>, queue: seq<Request>, k: nat,
                                   taken: seq<Request>, left: seq<Request>)
    requires s.allowed > 0 && k < |queue| && taken == batch + queue[..k] && left == queue[k..]
    requires Admits(s, taken, left[0])
    ensures taken + [left[0]] == batch + queue[..k + 1] && left[1..] == queue[k + 1..]
    ensures Admitted(s, taken + [left[0]], left[1..]) == Admitted(s, taken, left) - 1
    ensures Tokens(taken + [left[0]]) == Tokens(taken) + left[0].input + left[0].output - left[0].remaining
  {
    assert queue[..k + 1] == queue[..k] + [left[0]];
    assert (taken + [left[0]])[..|taken|] == taken;
  }

  /** Admission looks only at the decode store and the allowance. */
  lemma {:induction false} AdmittedSame(s: State, t: State, batch: seq<Request>, queue: seq<Request>)
    requires s.decode == t.decode && s.allowed == t.allowed && s.allowed > 0
    ensures Admitted(s, batch, queue) == Admitted(t, batch, queue)
    decreases |queue|
  {
    if queue != [] {
      AdmittedSame(s, t, batch + [queue[0]], queue[1..]);
    }
  }
}
