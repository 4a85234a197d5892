/** The limits of the continuous-batching loop in plain numbers: what a batch may hold, when it ends, who is
    evicted, and which of prefill and decode comes first. */
module BatchingLimits {
  import opened Arith
  import opened Batching
  import opened BatchingProofs
  import opened Options

  /** Tokens, in plain numbers. */
  lemma {:induction false} TokensOneMore(rs: seq<Request>, r: Request)
    ensures Tokens([]) == 0 && Tokens(rs + [r]) == Tokens(rs) + r.input + (r.output - r.remaining)
  {
    assert (rs + [r])[..|rs|] == rs;
  }

  // ---- Nine tenths

  lemma Ratio(used: int, allowed: int, q: real)
    requires allowed > 0 && q == used as real / allowed as real
    ensures q * allowed as real == used as real
  {}

  lemma NineTenths(used: int, allowed: int, q: real)
    requires allowed > 0 && q == used as real / allowed as real
    ensures q >= 0.9 <==> 10 * used >= 9 * allowed
    ensures q > 0.9 <==> 10 * used > 9 * allowed
  {
    Ratio(used, allowed, q);
    Scaled(q, allowed as real, used as real, 0.9 * allowed as real);
    InTenths(used, allowed, used as real);
  }

  lemma Scaled(q: real, a: real, x: real, y: real)
    requires a > 0.0 && x == q * a && y == 0.9 * a
    ensures (q >= 0.9 <==> x >= y) && (q > 0.9 <==> x > y)
  {
    ScaleOrder(0.9, q, a);
    ScaleOrder(q, 0.9, a);
  }

  lemma InTenths(used: int, allowed: int, x: real)
    requires x == used as real
    ensures 0.9 * allowed as real <= x <==> 9 * allowed <= 10 * used
    ensures x <= 0.9 * allowed as real <==> 10 * used <= 9 * allowed
  {
    assert (9 * allowed) as real == 10.0 * (0.9 * allowed as real);
    assert (10 * used) as real == 10.0 * x;
  }

  // ---- The batch

  /** With `batch` taken, `r` would exceed the sequences, the batch tokens or the memory. */
  ghost predicate Exceeds(s: State, batch: seq<Request>, r: Request) {
    || |s.decode| + |batch| + 1 > 256
    || Tokens(batch) + r.input > 512
    || 10 * (Tokens(batch) + |batch| + Tokens(s.decode)) >= 9 * s.allowed
  }

  lemma AdmitsIff(s: State, batch: seq<Request>, r: Request)
    requires s.allowed > 0
    ensures Admits(s, batch, r) <==> !Exceeds(s, batch, r)
  {
    var used := Tokens(batch) + |batch| + Tokens(s.decode);
    NineTenths(used, s.allowed, used as real / s.allowed as real);
  }

  /** Each request taken from a queue is within the limits, given those before it; the first one left is not. */
  lemma {:induction false} TakenWithinLimits(s: State, batch: seq<Request>, queue: seq<Request>, i: nat)
    requires s.allowed > 0 && i < |queue|
    ensures i < Admitted(s, batch, queue) ==> !Exceeds(s, batch + queue[..i], queue[i])
    ensures i == Admitted(s, batch, queue) ==> Exceeds(s, batch + queue[..i], queue[i])
    decreases |queue|
  {
    AdmitsIff(s, batch, queue[0]);
    assert batch + [] == batch;
    if i > 0 && Admits(s, batch, queue[0]) {
      TakenWithinLimits(s, batch + [queue[0]], queue[1..], i - 1);
      assert batch + [queue[0]] + queue[1..][..i - 1] == batch + queue[..i];
    }
  }

  /** Every request of the batch is within the three limits, given those before it. */
  lemma BatchWithinLimits(s: State, i: nat)
    requires s.allowed > 0 && i < |Batch(s)|
    ensures !Exceeds(s, Batch(s)[..i], Batch(s)[i])
  {
    var n := FromRecompute(s);
    var first := s.recompute[..n];
    if i < n {
      TakenWithinLimits(s, [], s.recompute, i);
      assert [] + s.recompute[..i] == Batch(s)[..i];
    } else {
      TakenWithinLimits(s, first, s.prefill, i - n);
      assert first + s.prefill[..i - n] == Batch(s)[..i];
    }
  }

  /** What is taken: a prefix of the recompute queue and a prefix of the prefill queue, each as long as the
      limits allow; the rest stays. */
  ghost predicate Maximal(s: State, n: nat, m: nat) {
    && n <= |s.recompute| && m <= |s.prefill| && s.allowed > 0
    && Batch(s) == s.recompute[..n] + s.prefill[..m]
    && Fetched(s) == s.(recompute := s.recompute[n..], prefill := s.prefill[m..])
    && (n < |s.recompute| ==> Exceeds(s, s.recompute[..n], s.recompute[n]))
    && (m < |s.prefill| ==> Exceeds(s, s.recompute[..n] + s.prefill[..m], s.prefill[m]))
  }

  lemma BatchIsMaximal(s: State)
    requires s.allowed > 0
    ensures exists n: nat, m: nat :: Maximal(s, n, m)
  {
    var n, m := FromRecompute(s), FromPrefill(s);
    if n < |s.recompute| {
      TakenWithinLimits(s, [], s.recompute, n);
      assert [] + s.recompute[..n] == s.recompute[..n];
    }
    if m < |s.prefill| {
      TakenWithinLimits(s, s.recompute[..n], s.prefill, m);
    }
    assert Maximal(s, n, m);
  }

  /** A batch holds more than 512 tokens at most by those its last request has generated: none if that is new. */
  lemma BatchOverrun(s: State)
    requires s.allowed > 0 && Batch(s) != []
    ensures var last := Batch(s)[|Batch(s)| - 1];
            Tokens(Batch(s)) <= 512 + (last.output - last.remaining)
  {
    var b, n := Batch(s), |Batch(s)| - 1;
    BatchWithinLimits(s, n);
    TokensOneMore(b[..n], b[n]);
    assert b == b[..n] + [b[n]];
  }

  /** A request with generated tokens is tested with its input alone, so that a batch may hold more. */
  lemma RecomputedBatchExceeds()
    ensures var r := Request(0, 1, 700, 100, None, 1);
            var s := State([], [], [r], [], {}, 44448);
            Inv(s) && Batch(s) == [r] && Tokens(Batch(s)) == 601
  {
    var r := Request(0, 1, 700, 100, None, 1);
    var s := State([], [], [r], [], {}, 44448);
    AdmitsIff(s, [], r);
    assert Admitted(s, [] + [r], [r][1..]) == 0;
    assert Admitted(s, [], [r]) == 1;
    assert [r][..1] == [r] && Admitted(s, [r], []) == 0;
    TokensOneMore([], r);
    assert [] + [r] == [r];
  }

  // ---- Eviction

  /** The next decoding step exceeds the memory. */
  ghost predicate Overflows(decode: seq<Request>, allowed: int) {
    10 * (|decode| + Tokens(decode)) > 9 * allowed
  }

  lemma OverflowIff(s: State)
    requires s.allowed > 0
    ensures ShouldRecompute(s) <==> Overflows(s.decode, s.allowed)
  {
    var used := |s.decode| + Tokens(s.decode);
    NineTenths(used, s.allowed, used as real / s.allowed as real);
  }

  /** The newest requests leave, as few as possible, until the next decoding step fits. */
  lemma {:induction false} EvictionLaw(s: State)
    requires s.allowed > 0
    ensures var t := Evicted(s);
            && |t.decode| <= |s.decode| && t.decode == s.decode[..|t.decode|]
            && !Overflows(t.decode, s.allowed)
            && (|t.decode| < |s.decode| ==> Overflows(s.decode[..|t.decode| + 1], s.allowed))
            && t == s.(decode := t.decode, recompute := t.recompute)
    decreases |s.decode|
  {
    OverflowIff(s);
    if s.decode != [] && ShouldRecompute(s) {
      var u, n := EvictNewest(s), |s.decode| - 1;
      EvictionLaw(u);
      var k := |Evicted(u).decode|;
      assert u.decode[..k] == s.decode[..k];
      if k < n {
        assert u.decode[..k + 1] == s.decode[..k + 1];
      } else {
        assert s.decode[..n + 1] == s.decode;
      }
    } else {
      assert s.decode[..|s.decode|] == s.decode;
    }
  }

  /** A request sent back once more. */
  function Again(r: Request): Request {
    r.(recomputes := r.recomputes + 1)
  }

  /** `r` is one of the requests from place `k` on, sent back. */
  ghost predicate SentBack(rs: seq<Request>, k: nat, r: Request) {
    exists i :: k <= i < |rs| && r == Again(rs[i])
  }

  lemma SentBackOneMore(rs: seq<Request>, k: nat, n: nat, r: Request)
    requires k <= n == |rs| - 1
    ensures SentBack(rs, k, r) <==> SentBack(rs[..n], k, r) || r == Again(rs[n])
  {
    if SentBack(rs[..n], k, r) {
      var i :| k <= i < n && r == Again(rs[..n][i]);
      assert r == Again(rs[i]);
    }
    if SentBack(rs, k, r) && r != Again(rs[n]) {
      var i :| k <= i < |rs| && r == Again(rs[i]);
      assert r == Again(rs[..n][i]);
    }
  }

  /** Those who leave wait in the recompute queue with one more recomputation counted, and nobody else joins it. */
  lemma {:induction false} EvictedWait(s: State, r: Request)
    requires s.allowed > 0
    ensures r in Evicted(s).recompute <==> r in s.recompute || SentBack(s.decode, |Evicted(s).decode|, r)
    decreases |s.decode|
  {
    if s.decode != [] && ShouldRecompute(s) {
      var u, n := EvictNewest(s), |s.decode| - 1;
      EvictionLaw(u);
      EvictedWait(u, r);
      EnqueueMembers(s.recompute, Again(s.decode[n]));
      SentBackOneMore(s.decode, |Evicted(u).decode|, n, r);
    }
  }

  // ---- One iteration

  /** Prefill comes first: while a batch can be taken the requests in decode wait unchanged. */
  lemma PrefillFirst(s: State)
    requires Inv(s) && s.allowed > 0 && Batch(s) != []
    ensures var t := Iterate(s);
            && |t.decode| >= |s.decode| && t.decode[..|s.decode|] == s.decode
            && t.recompute == Fetched(s).recompute && t.prefill == Fetched(s).prefill
    ensures forall r :: r in Batch(s) ==>
              r.(remaining := r.remaining - 1) in (if r.remaining == 1 then Iterate(s).decoded else Iterate(s).decode)
  {
    CanPrefillIff(s);
    LoadLorasKeeps(Fetched(s), Batch(s));
    var b, done := Batch(s), SteppedAll(Batch(s));
    PartitionMembers(done);
    forall r | r in b
      ensures r.(remaining := r.remaining - 1) in (if r.remaining == 1 then Iterate(s).decoded else Iterate(s).decode)
    {
      var i :| 0 <= i < |b| && b[i] == r;
      assert done[i] == r.(remaining := r.remaining - 1) && done[i] in done;
    }
  }

  /** Otherwise no queued request moves, and each request that is not evicted generates one token. */
  lemma DecodeOtherwise(s: State, i: nat)
    requires s.allowed > 0 && Batch(s) == [] && i < |Evicted(s).decode| && i < |s.decode|
    ensures Iterate(s).prefill == s.prefill && Iterate(s).recompute == Evicted(s).recompute
    ensures var r := s.decode[i].(remaining := s.decode[i].remaining - 1);
            r in (if r.remaining == 0 then Iterate(s).decoded else Iterate(s).decode)
  {
    CanPrefillIff(s);
    EvictionLaw(s);
    OneTokenEach(Evicted(s), i, s.decode[i].(remaining := s.decode[i].remaining - 1));
  }

  lemma OneTokenEach(t: State, i: nat, r: Request)
    requires i < |t.decode| && r == t.decode[i].(remaining := t.decode[i].remaining - 1)
    ensures r in (if r.remaining == 0 then Decoded(t).decoded else Decoded(t).decode)
  {
    var done := SteppedAll(t.decode);
    PartitionMembers(done);
    assert done[i] == r && done[i] in done;
  }

  /** How many of the requests have another token to generate after the next one. */
  function Going(rs: seq<Request>): nat {
    if rs == [] then 0 else Going(rs[..|rs| - 1]) + if rs[|rs| - 1].remaining != 1 then 1 else 0
  }

  lemma {:induction false} StepsInOrder(rs: seq<Request>, i: nat)
    requires i < |rs|
    ensures |Unfinished(SteppedAll(rs))| == Going(rs)
    ensures rs[i].remaining != 1 ==> Going(rs[..i]) < Going(rs)
    ensures rs[i].remaining != 1 ==> Unfinished(SteppedAll(rs))[Going(rs[..i])] == Stepped(rs[i])
  {
    var n := |rs| - 1;
    var init := rs[..n];
    assert SteppedAll(rs)[..n] == SteppedAll(init);
    if i < n {
      StepsInOrder(init, i);
      assert init[..i] == rs[..i];
    } else if n > 0 {
      StepsInOrder(init, 0);
    }
  }

  /** The order of the requests in decode is kept: each that goes on comes after those before it that go on. */
  lemma DecodeKeepsOrder(s: State, i: nat, kept: seq<Request>)
    requires s.allowed > 0 && Batch(s) == [] && kept == Evicted(s).decode && i < |kept|
    ensures |Iterate(s).decode| == Going(kept)
    ensures kept[i].remaining != 1 ==> Going(kept[..i]) < Going(kept)
    ensures kept[i].remaining != 1 ==>
              Iterate(s).decode[Going(kept[..i])] == kept[i].(remaining := kept[i].remaining - 1)
  {
    CanPrefillIff(s);
    EvictionLaw(s);
    StepsInOrder(kept, i);
  }

  // ---- The allowance

  /** The token allowance in numbers. */
  lemma AllowanceInNumbers(s: State)
    requires Inv(s)
    ensures s.allowed == 44448 - (if Tweet in s.loras then 1600 else 0) - (if Sql in s.loras then 1600 else 0)
  {}
}
