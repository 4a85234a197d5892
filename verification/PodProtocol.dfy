/** Keeping the set of ready pods that match the pool's selector. */
module PodProtocol {
  import opened Options

  type Labels = map<string, string>

  datatype Pod = Pod(labels: Labels, ready: bool, address: string)

  type Api = map<string, Pod>

  /** `stored` holds the address of every pod the datastore knows. */
  datatype State = State(api: Api, selector: Option<Labels>, stored: map<string, string>, pending: set<string>)

  predicate Matches(selector: Labels, labels: Labels) {
    forall k :: k in selector ==> k in labels && labels[k] == selector[k]
  }

  /** Without a pool no pod matches. */
  predicate PoolLabelsMatch(selector: Option<Labels>, labels: Labels) {
    selector.Some? && Matches(selector.value, labels)
  }

  function Lookup(stored: map<string, string>, n: string): Option<string> {
    if n in stored then Some(stored[n]) else None
  }

  /** What should be stored for a pod: its address, if it is ready and matches. */
  function Wanted(api: Api, selector: Option<Labels>, n: string): Option<string> {
    if n in api && api[n].ready && PoolLabelsMatch(selector, api[n].labels) then Some(api[n].address) else None
  }

  // ---- The protocol

  datatype Event =
    | Create(n: string, pod: Pod)
    | Update(n: string, pod: Pod)
    | Delete(n: string)
    | Reconcile(n: string)
    | PoolSet(selector: Labels)
    | Clear

  function Raise(s: State, n: string, relevant: bool): set<string> {
    if relevant then s.pending + {n} else s.pending
  }

  /** A reconcile reads the pod and stores, updates or removes it. Without a pool it does nothing. */
  function ReconcilePod(s: State, n: string): map<string, string> {
    if s.selector.None? then s.stored
    else match Wanted(s.api, s.selector, n)
      case Some(address) => s.stored[n := address]
      case None => s.stored - {n}
  }

  /** A full resync: the listed pods that are ready, and no others. */
  function Resync(api: Api, selector: Labels): map<string, string> {
    map n | n in api && Wanted(api, Some(selector), n).Some? :: api[n].address
  }

  predicate Enabled(s: State, e: Event) {
    match e
    case Create(n, _) => n !in s.api
    case Update(n, _) => n in s.api
    case Delete(n) => n in s.api
    case _ => true
  }

  function Step(s: State, e: Event): State
    requires Enabled(s, e)
  {
    match e
    case Create(n, pod) =>
      s.(api := s.api[n := pod], pending := Raise(s, n, PoolLabelsMatch(s.selector, pod.labels)))
    case Update(n, pod) =>
      s.(api := s.api[n := pod],
         pending := Raise(s, n, PoolLabelsMatch(s.selector, s.api[n].labels) || PoolLabelsMatch(s.selector, pod.labels)))
    case Delete(n) =>
      s.(api := s.api - {n}, pending := Raise(s, n, PoolLabelsMatch(s.selector, s.api[n].labels)))
    case Reconcile(n) => s.(stored := ReconcilePod(s, n), pending := s.pending - {n})
    case PoolSet(selector) =>
      s.(selector := Some(selector), stored := if s.selector == Some(selector) then s.stored else Resync(s.api, selector))
    case Clear => s.(selector := None, stored := map[])
  }

  // ---- The invariant

  ghost predicate Exact(s: State, n: string) {
    Lookup(s.stored, n) == Wanted(s.api, s.selector, n)
  }

  /** Except for pods with a pending event the store is exact; without a pool it is empty. */
  ghost predicate Inv(s: State) {
    && (s.selector.None? ==> s.stored == map[])
    && forall n :: n !in s.pending ==> Exact(s, n)
  }

  lemma StepKeeps(s: State, e: Event)
    requires Inv(s) && Enabled(s, e)
    ensures Inv(Step(s, e))
  {
    var t := Step(s, e);
    forall n | n !in t.pending ensures Exact(t, n) {
      assert n !in s.pending ==> Exact(s, n);
    }
  }

  ghost predicate IsRun(ss: seq<State>, es: seq<Event>) {
    |ss| == |es| + 1 && forall i :: 0 <= i < |es| ==> Enabled(ss[i], es[i]) && ss[i + 1] == Step(ss[i], es[i])
  }

  const EMPTY: State := State(map[], None, map[], {})

  /** In every reachable state; hence exact everywhere once no event is pending. */
  lemma {:induction false} EveryReachable(ss: seq<State>, es: seq<Event>, i: nat)
    requires IsRun(ss, es) && (ss[0] == EMPTY || Inv(ss[0])) && i < |ss|
    ensures Inv(ss[i])
    ensures ss[i].pending == {} ==> forall n :: Exact(ss[i], n)
    ensures ss[i].pending == {} ==> forall n :: n in ss[i].stored <==>
              (n in ss[i].api && ss[i].api[n].ready && ss[i].selector.Some?
               && Agrees(ss[i].api[n].labels, ss[i].selector.value))
    ensures ss[i].pending == {} ==>
              forall n :: n in ss[i].stored ==> n in ss[i].api && ss[i].stored[n] == ss[i].api[n].address
  {
    if i > 0 {
      EveryReachable(ss, es, i - 1);
      StepKeeps(ss[i - 1], es[i - 1]);
    }
    if ss[i].pending == {} {
      forall n | n in ss[i].stored ensures n in ss[i].api && ss[i].stored[n] == ss[i].api[n].address {
        assert Exact(ss[i], n);
      }
      forall n ensures n in ss[i].stored <==>
        (n in ss[i].api && ss[i].api[n].ready && ss[i].selector.Some?
         && Agrees(ss[i].api[n].labels, ss[i].selector.value))
      {
        assert Exact(ss[i], n);
      }
    }
  }

  /** Every label asked for is there with that value. */
  ghost predicate Agrees(labels: Labels, asked: Labels) {
    forall k :: k in asked ==> (k, asked[k]) in labels.Items
  }

  /** An actual change of selector makes every pod exact in one step, pending or not. */
  lemma SelectorChangeResyncs(s: State, selector: Labels, n: string)
    requires s.selector != Some(selector)
    ensures Exact(Step(s, PoolSet(selector)), n)
  {}

  /** Setting the pool again makes every pod exact precisely if the selector changes or every
      pending pod happens to be exact already: it is the change that triggers the resync. */
  lemma PoolSetExact(s: State, selector: Labels)
    requires Inv(s)
    ensures (forall n :: Exact(Step(s, PoolSet(selector)), n)) <==>
              s.selector != Some(selector) || forall n :: n in s.pending ==> Exact(s, n)
  {
    var t := Step(s, PoolSet(selector));
    if s.selector != Some(selector) {
      forall n ensures Exact(t, n) {
        SelectorChangeResyncs(s, selector, n);
      }
    } else {
      assert t == s;
    }
  }

  /** The new selector is stored before the pods are listed. If listing fails, setting the pool again
      changes nothing, so a pod without a pending event is right exactly when it is not ready or the
      two selectors agree on it. */
  lemma FailedListNotRetried(s: State, selector: Labels, n: string)
    requires Inv(s) && n !in s.pending
    ensures var failed := s.(selector := Some(selector));
            Exact(Step(failed, PoolSet(selector)), n) <==>
              (n in s.api && s.api[n].ready ==>
                 (PoolLabelsMatch(s.selector, s.api[n].labels) <==> Matches(selector, s.api[n].labels)))
  {
    assert Exact(s, n);
  }

  /** The same of the whole store when no event is pending. */
  lemma FailedListExact(s: State, selector: Labels)
    requires Inv(s) && s.pending == {}
    ensures var failed := s.(selector := Some(selector));
            (forall n :: Exact(Step(failed, PoolSet(selector)), n)) <==>
              forall n :: n in s.api && s.api[n].ready ==>
                (PoolLabelsMatch(s.selector, s.api[n].labels) <==> Matches(selector, s.api[n].labels))
  {
    var t := Step(s.(selector := Some(selector)), PoolSet(selector));
    forall n ensures Exact(t, n) <==>
      (n in s.api && s.api[n].ready ==>
         (PoolLabelsMatch(s.selector, s.api[n].labels) <==> Matches(selector, s.api[n].labels)))
    {
      FailedListNotRetried(s, selector, n);
    }
  }

  /** A pod is created, the pool is set and its list fails: the pod stays unknown after the retry. */
  lemma FailedListLosesPod()
    ensures var pod := Pod(map["app" := "vllm"], true, "10.0.0.1");
            var s := State(map["p" := pod], None, map[], {});
            var failed := s.(selector := Some(map["app" := "vllm"]));
            && IsRun([EMPTY, s], [Create("p", pod)])
            && !Exact(Step(failed, PoolSet(map["app" := "vllm"])), "p")
            && Step(failed, PoolSet(map["app" := "vllm"])).pending == {}
  {
    var pod := Pod(map["app" := "vllm"], true, "10.0.0.1");
    var s := State(map["p" := pod], None, map[], {});
    assert Step(EMPTY, Create("p", pod)) == s;
    assert Inv(s) && Matches(map["app" := "vllm"], pod.labels);
    FailedListNotRetried(s, map["app" := "vllm"], "p");
  }
}
