/** Flow charts of filters. A filter may be random, so it yields a set of possible results. */
module DecisionTree {
  import opened Filters
  import opened Options

  datatype Filter =
    | Leaf(run: seq<Pod> -> set<seq<Pod>>)
    | Tree(current: Filter, onSuccess: Option<Filter>, onFailure: Option<Filter>, onEither: Option<Filter>)

  /** The next filter after one that kept something, or after one that kept nothing. */
  function Next(f: Filter, success: bool): Option<Filter>
    requires f.Tree?
  {
    var first := if success then f.onSuccess else f.onFailure;
    if first.Some? then first else f.onEither
  }

  /** The possible results. On success the next filter gets what was kept, on failure the input. */
  function Results(f: Filter, pods: seq<Pod>): set<seq<Pod>>
    decreases f, 1
  {
    match f
    case Leaf(run) => run(pods)
    case Tree(current, _, _, _) => set kept, r | kept in Results(current, pods) && r in Continue(f, kept, pods) :: r
  }

  function Continue(f: Filter, kept: seq<Pod>, pods: seq<Pod>): set<seq<Pod>>
    requires f.Tree?
    decreases f, 0
  {
    var next := Next(f, kept != []);
    if next.None? then {kept} else Results(next.value, if kept != [] then kept else pods)
  }

  // ---- Sublists

  /** `a` is `b` with elements left out. */
  predicate Sublist(a: seq<Pod>, b: seq<Pod>) {
    a == [] || (b != [] && ((a[0] == b[0] && Sublist(a[1..], b[1..])) || Sublist(a, b[1..])))
  }

  lemma {:induction false} SublistSelf(a: seq<Pod>)
    ensures Sublist(a, a)
  {
    if a != [] {
      SublistSelf(a[1..]);
    }
  }

  lemma {:induction false} SublistTransitive(a: seq<Pod>, b: seq<Pod>, c: seq<Pod>)
    requires Sublist(a, b) && Sublist(b, c)
    ensures Sublist(a, c)
    decreases |c|
  {
    if a != [] {
      if b[0] == c[0] && Sublist(b[1..], c[1..]) {
        if a[0] == b[0] && Sublist(a[1..], b[1..]) {
          SublistTransitive(a[1..], b[1..], c[1..]);
        } else {
          SublistTransitive(a, b[1..], c[1..]);
        }
      } else {
        SublistTransitive(a, b, c[1..]);
      }
    }
  }

  lemma {:induction false} SublistMember(a: seq<Pod>, b: seq<Pod>, p: Pod)
    requires Sublist(a, b) && p in a
    ensures p in b
    decreases |b|
  {
    if a[0] == b[0] && Sublist(a[1..], b[1..]) {
      if p != a[0] {
        SublistMember(a[1..], b[1..], p);
      }
    } else {
      SublistMember(a, b[1..], p);
    }
  }

  lemma {:induction false} SublistAppend(a: seq<Pod>, b: seq<Pod>, p: Pod)
    requires Sublist(a, b)
    ensures Sublist(a + [p], b + [p]) && Sublist(a, b + [p])
    decreases |b|
  {
    if b == [] {
      assert a + [p] == [p] && b + [p] == [p];
    } else {
      assert (b + [p])[1..] == b[1..] + [p];
      if a != [] {
        assert (a + [p])[1..] == a[1..] + [p];
        if a[0] == b[0] && Sublist(a[1..], b[1..]) {
          SublistAppend(a[1..], b[1..], p);
        } else {
          SublistAppend(a, b[1..], p);
        }
      } else {
        SublistAppend([], b[1..], p);
      }
    }
  }

  /** Every keeping filter is order-preserving. */
  lemma {:induction false} KeepSublist(pods: seq<Pod>, f: Pod -> bool)
    ensures Sublist(Keep(pods, f), pods)
  {
    if pods != [] {
      var front, last := pods[..|pods| - 1], pods[|pods| - 1];
      assert pods == front + [last];
      KeepSublist(front, f);
      SublistAppend(Keep(front, f), front, last);
      assert Keep(front, f) + [] == Keep(front, f);
    }
  }

  // ---- What trees inherit from their leaves

  /** Every leaf yields sublists of its input. */
  ghost predicate Narrowing(f: Filter) {
    match f
    case Leaf(run) => forall pods, r :: r in run(pods) ==> Sublist(r, pods)
    case Tree(current, s, x, e) =>
      && Narrowing(current)
      && (s.Some? ==> Narrowing(s.value)) && (x.Some? ==> Narrowing(x.value)) && (e.Some? ==> Narrowing(e.value))
  }

  lemma {:induction false} TreeNarrows(f: Filter, pods: seq<Pod>, r: seq<Pod>)
    requires Narrowing(f) && r in Results(f, pods)
    ensures Sublist(r, pods)
    decreases f
  {
    if f.Tree? {
      var kept :| kept in Results(f.current, pods) && r in Continue(f, kept, pods);
      TreeNarrows(f.current, pods, kept);
      var next := Next(f, kept != []);
      if next.Some? {
        var input := if kept != [] then kept else pods;
        TreeNarrows(next.value, input, r);
        SublistSelf(pods);
        SublistTransitive(r, input, pods);
      }
    }
  }

  /** Wherever the chart can end, the filter there keeps something. */
  ghost predicate NeverEmpties(f: Filter, ok: Pod -> bool) {
    match f
    case Leaf(run) => forall pods, r :: pods != [] && AllOk(pods, ok) && r in run(pods) ==> r != []
    case Tree(current, s, x, e) =>
      && (x.None? && e.None? ==> NeverEmpties(current, ok))
      && (s.Some? ==> NeverEmpties(s.value, ok)) && (x.Some? ==> NeverEmpties(x.value, ok))
      && (e.Some? ==> NeverEmpties(e.value, ok))
  }

  ghost predicate AllOk(pods: seq<Pod>, ok: Pod -> bool) {
    forall p :: p in pods ==> ok(p)
  }

  /** `ok` is what the terminal filters ask of the pods. */
  lemma {:induction false} TreeNeverEmpties(f: Filter, ok: Pod -> bool, pods: seq<Pod>, r: seq<Pod>)
    requires Narrowing(f) && NeverEmpties(f, ok) && pods != [] && AllOk(pods, ok) && r in Results(f, pods)
    ensures r != []
    decreases f
  {
    if f.Tree? {
      var kept :| kept in Results(f.current, pods) && r in Continue(f, kept, pods);
      var next := Next(f, kept != []);
      if next.Some? {
        var input := if kept != [] then kept else pods;
        TreeNarrows(f.current, pods, kept);
        forall p | p in input ensures ok(p) {
          if kept != [] {
            SublistMember(kept, pods, p);
          }
        }
        TreeNeverEmpties(next.value, ok, input, r);
      } else if kept == [] {
        TreeNeverEmpties(f.current, ok, pods, kept);
      }
    }
  }

  /** Every leaf has a result for every input. */
  ghost predicate Total(f: Filter) {
    match f
    case Leaf(run) => forall pods :: run(pods) != {}
    case Tree(current, s, x, e) =>
      Total(current) && (s.Some? ==> Total(s.value)) && (x.Some? ==> Total(x.value)) && (e.Some? ==> Total(e.value))
  }

  lemma {:induction false} TreeTotal(f: Filter, pods: seq<Pod>)
    requires Total(f)
    ensures Results(f, pods) != {}
    decreases f
  {
    if f.Tree? {
      TreeTotal(f.current, pods);
      var kept :| kept in Results(f.current, pods);
      var next := Next(f, kept != []);
      if next.Some? {
        TreeTotal(next.value, if kept != [] then kept else pods);
      }
      var r :| r in Continue(f, kept, pods);
      assert r in Results(f, pods);
    }
  }

  // ---- The choice of the next filter

  /** After a filter that kept `kept`: a filter for just this case goes before the one for either case, and gets
      what was kept, or all pods if that is nothing; without a next filter the result stands. */
  lemma NextFilter(f: Filter, pods: seq<Pod>, kept: seq<Pod>, r: seq<Pod>)
    requires f.Tree? && Results(f.current, pods) == {kept}
    ensures r in Results(f, pods) <==>
              if kept != [] then
                if f.onSuccess.Some? then r in Results(f.onSuccess.value, kept)
                else if f.onEither.Some? then r in Results(f.onEither.value, kept)
                else r == kept
              else
                if f.onFailure.Some? then r in Results(f.onFailure.value, pods)
                else if f.onEither.Some? then r in Results(f.onEither.value, pods)
                else r == []
  {
    assert kept in Results(f.current, pods);
    assert r in Results(f, pods) <==> r in Continue(f, kept, pods);
  }
}
