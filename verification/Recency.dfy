/** The order of a least-recently-used list, as a theory of sequences.

`Touch` is what one insertion does to a list of at most `cap` keys. `ByLastTouch` is the
reference: it looks at a whole history of insertions and keeps each key where it was touched
last. The main result, `HoldsMostRecent`, says that a list driven by `Touch` always holds the
`cap` most recently touched distinct keys.
*/
module Recency {

  ghost predicate Distinct<K>(s: seq<K>) {
    forall i, j :: 0 <= i < j < |s| ==> s[i] != s[j]
  }

  function Without<K(==, !new)>(s: seq<K>, k: K): (r: seq<K>)
    ensures |r| <= |s|
  {
    if s == [] then []
    else if s[0] == k then Without(s[1..], k)
    else [s[0]] + Without(s[1..], k)
  }

  function LastN<K>(s: seq<K>, n: nat): (r: seq<K>) {
    if |s| <= n then s else s[|s| - n..]
  }

  /** Inserting `k`: an old entry moves to the back, a new one first makes room at the front. */
  function Touch<K(==, !new)>(s: seq<K>, k: K, cap: nat): (r: seq<K>)
    requires cap >= 1
  {
    if k in s then Without(s, k) + [k] else LastN(s, cap - 1) + [k]
  }

  function TouchAll<K(==, !new)>(s: seq<K>, ks: seq<K>, cap: nat): (r: seq<K>)
    requires cap >= 1
    decreases |ks|
  {
    if ks == [] then s else TouchAll(Touch(s, ks[0], cap), ks[1..], cap)
  }

  /** The distinct keys of a history, each at the place of its last occurrence. */
  function ByLastTouch<K(==, !new)>(h: seq<K>): (r: seq<K>)
    ensures forall x :: x in r <==> x in h
  {
    if h == [] then []
    else if h[0] in h[1..] then ByLastTouch(h[1..])
    else [h[0]] + ByLastTouch(h[1..])
  }

  /** The index of the last occurrence of `k` in `h`. */
  ghost function LastTouch<K>(h: seq<K>, k: K): (i: int)
    requires k in h
    ensures 0 <= i < |h| && h[i] == k
  {
    if k in h[1..] then LastTouch(h[1..], k) + 1 else 0
  }

  // ---- Without

  lemma {:induction false} WithoutAppend<K(!new)>(a: seq<K>, b: seq<K>, k: K)
    ensures Without(a + b, k) == Without(a, k) + Without(b, k)
  {
    if a == [] {
      assert a + b == b;
    } else {
      assert (a + b)[1..] == a[1..] + b;
      WithoutAppend(a[1..], b, k);
    }
  }

  lemma {:induction false} WithoutAbsent<K(!new)>(s: seq<K>, k: K)
    requires k !in s
    ensures Without(s, k) == s
  {
    if s != [] {
      WithoutAbsent(s[1..], k);
    }
  }

  lemma {:induction false} WithoutAt<K(!new)>(s: seq<K>, i: int)
    requires Distinct(s) && 0 <= i < |s|
    ensures Without(s, s[i]) == s[..i] + s[i + 1..]
  {
    var k := s[i];
    assert s == s[..i] + ([k] + s[i + 1..]);
    WithoutAppend(s[..i], [k] + s[i + 1..], k);
    WithoutAppend([k], s[i + 1..], k);
    WithoutAbsent(s[..i], k);
    WithoutAbsent(s[i + 1..], k);
    assert Without([k], k) == [];
  }

  // ---- ByLastTouch is what its name says

  lemma {:induction false} ByLastTouchDistinct<K(!new)>(h: seq<K>)
    ensures Distinct(ByLastTouch(h))
  {
    if h != [] {
      ByLastTouchDistinct(h[1..]);
    }
  }

  /** Keys appear in the order in which they were touched last. */
  lemma {:induction false} ByLastTouchOrdered<K(!new)>(h: seq<K>, i: int, j: int)
    requires 0 <= i < j < |ByLastTouch(h)|
    ensures LastTouch(h, ByLastTouch(h)[i]) < LastTouch(h, ByLastTouch(h)[j])
  {
    var t := ByLastTouch(h[1..]);
    if h[0] in h[1..] {
      assert t[i] in t && t[j] in t;
      ByLastTouchOrdered(h[1..], i, j);
      LastTouchTail(h, t[i]);
      LastTouchTail(h, t[j]);
    } else {
      assert t[j - 1] in t;
      LastTouchTail(h, t[j - 1]);
      if i > 0 {
        assert t[i - 1] in t;
        ByLastTouchOrdered(h[1..], i - 1, j - 1);
        LastTouchTail(h, t[i - 1]);
      }
    }
  }

  lemma {:induction false} LastTouchIsLast<K(!new)>(h: seq<K>, k: K, j: int)
    requires k in h && LastTouch(h, k) < j < |h|
    ensures h[j] != k
  {
    if k in h[1..] {
      LastTouchIsLast(h[1..], k, j - 1);
    } else {
      assert h[j] == h[1..][j - 1];
    }
  }

  lemma LastTouchTail<K>(h: seq<K>, k: K)
    requires h != [] && k in h[1..]
    ensures LastTouch(h, k) == LastTouch(h[1..], k) + 1
  {}

  lemma {:induction false} ByLastTouchSnoc<K(!new)>(h: seq<K>, k: K)
    ensures ByLastTouch(h + [k]) == Without(ByLastTouch(h), k) + [k]
  {
    if h == [] {
      assert h + [k] == [k];
    } else {
      var hk := h + [k];
      assert hk[1..] == h[1..] + [k];
      ByLastTouchSnoc(h[1..], k);
    }
  }

  // ---- The refinement

  lemma {:induction false} TouchAllAppend<K(!new)>(s: seq<K>, a: seq<K>, b: seq<K>, cap: nat)
    requires cap >= 1
    ensures TouchAll(s, a + b, cap) == TouchAll(TouchAll(s, a, cap), b, cap)
    decreases |a|
  {
    if a == [] {
      assert a + b == b;
    } else {
      assert (a + b)[1..] == a[1..] + b;
      TouchAllAppend(Touch(s, a[0], cap), a[1..], b, cap);
    }
  }

  lemma {:induction false} TouchOneMore<K(!new)>(s: seq<K>, ks: seq<K>, k: K, cap: nat)
    requires cap >= 1
    ensures TouchAll(s, ks + [k], cap) == Touch(TouchAll(s, ks, cap), k, cap)
  {
    TouchAllAppend(s, ks, [k], cap);
    var mid := TouchAll(s, ks, cap);
    assert [k][1..] == [];
    assert TouchAll(mid, [k], cap) == TouchAll(Touch(mid, k, cap), [], cap);
  }

  lemma {:induction false} LastNAppend<K>(a: seq<K>, b: seq<K>, n: nat)
    requires n <= |b|
    ensures LastN(a + b, n) == LastN(b, n)
  {}

  lemma {:induction false} LastNWhole<K>(a: seq<K>, b: seq<K>, n: nat)
    requires |b| <= n && (a == [] || |b| == n)
    ensures LastN(a + b, n) == b
  {
    if a == [] {
      assert a + b == b;
    }
  }

  /** One insertion commutes with cutting a full recency list down to its last `cap` entries. */
  lemma {:induction false} TouchLastN<K(!new)>(r: seq<K>, k: K, cap: nat)
    requires cap >= 1 && Distinct(r)
    ensures Touch(LastN(r, cap), k, cap) == LastN(Without(r, k) + [k], cap)
  {
    var b := LastN(r, cap);
    var a := r[..|r| - |b|];
    assert r == a + b;
    assert Distinct(b);
    TouchSplit(a, b, k, cap);
  }

  lemma {:induction false} TouchSplit<K(!new)>(a: seq<K>, b: seq<K>, k: K, cap: nat)
    requires cap >= 1 && Distinct(b)
    requires |b| <= cap && (a == [] || |b| == cap)
    ensures Touch(b, k, cap) == LastN(Without(a + b, k) + [k], cap)
  {
    WithoutAppend(a, b, k);
    var a', b' := Without(a, k), Without(b, k);
    assert Without(a + b, k) + [k] == a' + (b' + [k]);
    if k in b {
      WithoutPresent(b, k);
      LastNWhole(a', b' + [k], cap);
    } else {
      WithoutAbsent(b, k);
      if |b| < cap {
        LastNWhole(a', b + [k], cap);
      } else {
        LastNAppend(a', b + [k], cap);
      }
    }
  }

  lemma {:induction false} WithoutPresent<K(!new)>(s: seq<K>, k: K)
    requires Distinct(s) && k in s
    ensures |Without(s, k)| == |s| - 1
  {
    var i :| 0 <= i < |s| && s[i] == k;
    WithoutAt(s, i);
  }

  /** Whatever the history, the list holds the `cap` most recently touched distinct keys. */
  lemma {:induction false} HoldsMostRecent<K(!new)>(h: seq<K>, cap: nat)
    requires cap >= 1
    ensures TouchAll([], h, cap) == LastN(ByLastTouch(h), cap)
    decreases |h|
  {
    if h != [] {
      var g, k := h[..|h| - 1], h[|h| - 1];
      assert h == g + [k];
      HoldsMostRecent(g, cap);
      TouchOneMore([], g, k, cap);
      ByLastTouchDistinct(g);
      ByLastTouchSnoc(g, k);
      TouchLastN(ByLastTouch(g), k, cap);
    }
  }

  /** A smaller cache over the same history holds a suffix of what a larger one holds. */
  lemma {:induction false} SmallerIsSuffix<K(!new)>(h: seq<K>, cap: nat, larger: nat)
    requires 1 <= cap <= larger
    ensures TouchAll([], h, cap) == LastN(TouchAll([], h, larger), cap)
  {
    HoldsMostRecent(h, cap);
    HoldsMostRecent(h, larger);
  }

  /** Contents of the list after `h`, key by key: among those touched at or after `k`'s last
      touch there are at most `cap` distinct keys. */
  lemma {:induction false} PresentIff<K(!new)>(h: seq<K>, k: K, cap: nat)
    requires cap >= 1 && k in h
    ensures k in TouchAll([], h, cap) <==> |ByLastTouch(h[LastTouch(h, k)..])| <= cap
  {
    HoldsMostRecent(h, cap);
    var i := LastTouch(h, k);
    ByLastTouchSplit(h, i);
    var r, t := ByLastTouch(h), ByLastTouch(h[i..]);
    ByLastTouchDistinct(h);
    assert k !in h[i..][1..] by {
      forall j | 0 <= j < |h[i..][1..]| ensures h[i..][1..][j] != k {
        assert h[i..][1..][j] == h[i + 1 + j];
        LastTouchIsLast(h, k, i + 1 + j);
      }
    }
    assert h[i..][0] == k;
    assert t[0] == k;
    assert r[|r| - |t|] == k;
  }

  /** The keys touched from position `i` on are the tail of the recency list. */
  lemma {:induction false} ByLastTouchSplit<K(!new)>(h: seq<K>, i: int)
    requires 0 <= i <= |h|
    ensures |ByLastTouch(h[i..])| <= |ByLastTouch(h)|
    ensures ByLastTouch(h)[|ByLastTouch(h)| - |ByLastTouch(h[i..])|..] == ByLastTouch(h[i..])
    decreases i
  {
    if i == 0 {
      assert h[0..] == h;
    } else {
      assert h[i..] == h[1..][i - 1..];
      ByLastTouchSplit(h[1..], i - 1);
    }
  }

  /** After touching a non-empty batch the last key of the batch is always present. */
  lemma {:induction false} LastTouchedPresent<K(!new)>(s: seq<K>, ks: seq<K>, cap: nat)
    requires cap >= 1 && ks != []
    ensures ks[|ks| - 1] in TouchAll(s, ks, cap)
  {
    var front, k := ks[..|ks| - 1], ks[|ks| - 1];
    assert ks == front + [k];
    TouchOneMore(s, front, k, cap);
  }
}
