/** The weighted choice of a target model. */
module WeightedDraw {
  import opened Options

  datatype Target = Target(name: string, weight: Option<int>)

  /** The name drawn, or the panic of a missing weight or of an empty range. */
  datatype Drawn = Drawn(name: string) | Panics

  const MAX_INT32: int := 0x7FFF_FFFF

  /** 32-bit arithmetic wraps around. */
  function Wrap32(n: int): int {
    (n + 0x8000_0000) % 0x1_0000_0000 - 0x8000_0000
  }

  lemma WrapFacts(n: int, b: int)
    ensures Wrap32(Wrap32(n) + b) == Wrap32(n + b)
    ensures Wrap32(n) <= MAX_INT32
    ensures -MAX_INT32 <= n <= MAX_INT32 ==> Wrap32(n) == n
    ensures n >= 0 ==> Wrap32(n) <= n
    ensures n > MAX_INT32 ==> Wrap32(n) < n
  {}

  /** Every entry has a weight, none is negative. */
  ghost predicate Weighed(ts: seq<Target>) {
    forall t :: t in ts ==> t.weight.Some? && 0 <= t.weight.value <= MAX_INT32
  }

  /** The sum of the first `n` weights. */
  ghost function Prefix(ts: seq<Target>, n: nat): int
    requires n <= |ts| && Weighed(ts)
  {
    if n == 0 then 0
    else
      assert ts[n - 1] in ts;
      Prefix(ts, n - 1) + ts[n - 1].weight.value
  }

  lemma {:induction false} PrefixMonotone(ts: seq<Target>, a: nat, b: nat)
    requires a <= b <= |ts| && Weighed(ts)
    ensures 0 <= Prefix(ts, a) <= Prefix(ts, b)
    decreases b
  {
    if b > 0 {
      assert ts[b - 1] in ts;
      if a < b {
        PrefixMonotone(ts, a, b - 1);
      } else {
        PrefixMonotone(ts, a - 1, b - 1);
      }
    }
  }

  /** Entry `k` owns the values from the sum of the weights before it up to that plus its own. */
  ghost predicate Owns(ts: seq<Target>, k: nat, v: int)
    requires Weighed(ts)
  {
    k < |ts| && Prefix(ts, k) <= v < Prefix(ts, k + 1)
  }

  /** The range the value is drawn from: the 32-bit sum of the weights. */
  ghost function Range(ts: seq<Target>): int
    requires Weighed(ts)
  {
    Wrap32(Prefix(ts, |ts|))
  }

  /** `random` stands for the generator: a draw from [0, n) is `random % n`. */
  method RandomWeightedDraw(ts: seq<Target>, random: nat) returns (res: Drawn)
    requires ts != []
    ensures ts[0].weight.None? ==> res == Drawn(ts[random % |ts|].name)
    ensures ts[0].weight.Some? && (exists t :: t in ts && t.weight.None?) ==> res == Panics
    ensures Weighed(ts) && Range(ts) <= 0 ==> res == Panics
    ensures Weighed(ts) && Range(ts) > 0 ==>
              exists k: nat :: Owns(ts, k, random % Range(ts)) && res == Drawn(ts[k].name)
  {
    if ts[0].weight.None? {
      return Drawn(ts[random % |ts|].name);
    }
    var weights := 0;
    for i := 0 to |ts|
      invariant Weighed(ts) ==> weights == Wrap32(Prefix(ts, i))
      invariant forall j :: 0 <= j < i ==> ts[j].weight.Some?
    {
      if ts[i].weight.None? {
        return Panics;
      }
      if Weighed(ts) {
        assert ts[i] in ts;
        WrapFacts(Prefix(ts, i), ts[i].weight.value);
      }
      weights := Wrap32(weights + ts[i].weight.value);
    }
    if weights <= 0 {
      return Panics;
    }
    var left := random % weights;
    ghost var drawn := left;
    if Weighed(ts) {
      PrefixMonotone(ts, 0, |ts|);
      WrapFacts(Prefix(ts, |ts|), 0);
    }
    for i := 0 to |ts|
      invariant Weighed(ts) ==> 0 <= left == drawn - Prefix(ts, i)
    {
      if left < ts[i].weight.value {
        assert Weighed(ts) ==> Owns(ts, i, drawn);
        return Drawn(ts[i].name);
      }
      if Weighed(ts) {
        assert ts[i] in ts;
        PrefixMonotone(ts, 0, i);
        WrapFacts(left - ts[i].weight.value, 0);
      }
      left := Wrap32(left - ts[i].weight.value);
    }
    return Drawn("");
  }

  /** Every value belongs to exactly one entry. */
  lemma {:induction false} OneOwner(ts: seq<Target>, n: nat, v: int)
    requires Weighed(ts) && n <= |ts| && 0 <= v < Prefix(ts, n)
    ensures exists k: nat :: k < n && Owns(ts, k, v)
    decreases n
  {
    if v >= Prefix(ts, n - 1) {
      assert Owns(ts, n - 1, v);
    } else {
      OneOwner(ts, n - 1, v);
    }
  }

  lemma OwnerUnique(ts: seq<Target>, j: nat, k: nat, v: int)
    requires Weighed(ts) && Owns(ts, j, v) && Owns(ts, k, v)
    ensures j == k
  {
    if j < k {
      PrefixMonotone(ts, j + 1, k);
    } else if k < j {
      PrefixMonotone(ts, k + 1, j);
    }
  }

  ghost function Interval(lo: int, hi: int): (s: set<int>)
    ensures forall v :: v in s <==> lo <= v < hi
    ensures lo <= hi ==> |s| == hi - lo
    decreases hi - lo
  {
    if lo >= hi then {} else Interval(lo, hi - 1) + {hi - 1}
  }

  /** The values below `range` that select entry `k`. */
  ghost function Share(ts: seq<Target>, range: int, k: nat): set<int>
    requires Weighed(ts)
  {
    set v | 0 <= v < range && Owns(ts, k, v)
  }

  /** Of the values below the true sum exactly as many as its weight select entry `k`. */
  lemma WeightIsShare(ts: seq<Target>, k: nat)
    requires Weighed(ts) && k < |ts|
    ensures ts[k].weight.Some?
    ensures |Share(ts, Prefix(ts, |ts|), k)| == ts[k].weight.value
  {
    assert ts[k] in ts;
    PrefixMonotone(ts, 0, k);
    PrefixMonotone(ts, k + 1, |ts|);
    assert Share(ts, Prefix(ts, |ts|), k) == Interval(Prefix(ts, k), Prefix(ts, k + 1));
  }

  ghost predicate Fair(ts: seq<Target>, k: nat)
    requires Weighed(ts) && k < |ts|
  {
    assert ts[k] in ts;
    |Share(ts, Range(ts), k)| == ts[k].weight.value
  }

  /** The draw, where it happens, is fair to every entry exactly when the sum of the weights fits into 32 bits. */
  lemma FairIff(ts: seq<Target>)
    requires Weighed(ts) && Range(ts) > 0
    ensures (forall k: nat :: k < |ts| ==> Fair(ts, k)) <==> Prefix(ts, |ts|) <= MAX_INT32
  {
    var total, range := Prefix(ts, |ts|), Range(ts);
    WrapFacts(total, 0);
    PrefixMonotone(ts, 0, |ts|);
    if total <= MAX_INT32 {
      forall k: nat | k < |ts| ensures Fair(ts, k) {
        WeightIsShare(ts, k);
      }
    } else {
      OneOwner(ts, |ts|, range);
      var k: nat :| k < |ts| && Owns(ts, k, range);
      assert ts[k] in ts;
      PrefixMonotone(ts, 0, k);
      assert Share(ts, range, k) == Interval(Prefix(ts, k), range);
      assert !Fair(ts, k);
    }
  }

  /** What the API admits: up to ten targets, each with a weight from 1 to a million. */
  ghost predicate Validated(ts: seq<Target>) {
    1 <= |ts| <= 10 && forall t :: t in ts ==> t.weight.Some? && 1 <= t.weight.value <= 1000000
  }

  lemma {:induction false} PrefixBounds(ts: seq<Target>, n: nat)
    requires Validated(ts) && n <= |ts| && Weighed(ts)
    ensures n <= Prefix(ts, n) <= n * 1000000
  {
    if n > 0 {
      assert ts[n - 1] in ts;
      PrefixBounds(ts, n - 1);
    }
  }

  /** For every validated list of targets the draw succeeds and is fair. */
  lemma ValidatedIsFair(ts: seq<Target>)
    requires Validated(ts)
    ensures Weighed(ts) && Range(ts) == Prefix(ts, |ts|) > 0
    ensures forall k: nat :: k < |ts| ==> Fair(ts, k)
  {
    assert Weighed(ts);
    PrefixBounds(ts, |ts|);
    WrapFacts(Prefix(ts, |ts|), 0);
    FairIff(ts);
  }

  /** Without that validation, three weights whose sum wraps around to 2: nothing but the first entry can be drawn. */
  lemma WrappedSumStarves()
    ensures var ts := [Target("a", Some(MAX_INT32)), Target("b", Some(MAX_INT32)), Target("c", Some(4))];
            Weighed(ts) && Range(ts) == 2 && Share(ts, Range(ts), 1) == {} && !Fair(ts, 1)
  {
    var ts := [Target("a", Some(MAX_INT32)), Target("b", Some(MAX_INT32)), Target("c", Some(4))];
    assert Prefix(ts, 1) == MAX_INT32;
    assert Prefix(ts, 2) == MAX_INT32 + MAX_INT32;
    assert Prefix(ts, 3) == MAX_INT32 + MAX_INT32 + 4;
    assert Range(ts) == 2;
    forall v ensures v !in Share(ts, 2, 1) {}
  }
}
