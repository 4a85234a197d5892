/** Keeping, for every model name, the oldest InferenceModel object that serves it.

The API server holds objects by name. Changes to objects of the pool raise events; reconciling an
event reads the object's current state and updates the local store. The store keeps one object for
each model name.
*/
module ModelProtocol {
  import opened Options

  /** `spec` stands for what is served under the name: targets, weights, criticality. */
  datatype InfModel = InfModel(name: string, modelName: string, poolRef: string, created: int, deleting: bool,
      spec: string)

  type Api = map<string, InfModel>
  type Store = map<string, InfModel>  // by model name

  datatype State = State(api: Api, stored: Store, pending: set<string>)

  /** The object exists, is not being deleted, and belongs to the pool. */
  predicate Live(api: Api, pool: string, n: string) {
    n in api && !api[n].deleting && api[n].poolRef == pool
  }

  // ---- What the datastore operations do

  /** An older object of the same model name stays; the same object is always replaced. */
  function SetIfOlder(stored: Store, o: InfModel): Store {
    if o.modelName in stored && stored[o.modelName].name != o.name && stored[o.modelName].created < o.created then stored
    else stored[o.modelName := o]
  }

  /** Some entry that holds the object named `n` is removed, if there is one. */
  ghost predicate Deleted(stored: Store, n: string, stored': Store, removed: Option<InfModel>) {
    match removed
    case None => stored' == stored && forall m :: m in stored ==> stored[m].name != n
    case Some(e) => e.modelName in stored && stored[e.modelName] == e && e.name == n && stored' == stored - {e.modelName}
  }

  ghost predicate Candidate(api: Api, pool: string, m: string, n: string) {
    Live(api, pool, n) && api[n].modelName == m
  }

  /** An oldest candidate takes the model name; without a candidate nothing happens. */
  ghost predicate Resynced(api: Api, pool: string, stored: Store, m: string, stored': Store) {
    if exists n :: Candidate(api, pool, m, n) then
      exists n :: Candidate(api, pool, m, n) && stored' == stored[m := api[n]]
                  && forall x :: Candidate(api, pool, m, x) ==> api[n].created <= api[x].created
    else stored' == stored
  }

  ghost predicate Reconciled(api: Api, pool: string, stored: Store, n: string, stored': Store) {
    if Live(api, pool, n) then stored' == SetIfOlder(stored, api[n])
    else exists mid, removed :: Deleted(stored, n, mid, removed) &&
           if removed.Some? then Resynced(api, pool, mid, removed.value.modelName, stored') else stored' == mid
  }

  // ---- The protocol

  datatype Event =
    | Create(o: InfModel)
    | Update(o: InfModel)
    | Delete(n: string)
    | Reconcile(n: string)

  /** Model name and creation time of an object never change. */
  predicate SameIdentity(a: InfModel, b: InfModel) {
    a.name == b.name && a.modelName == b.modelName && a.created == b.created
  }

  function Raise(pending: set<string>, n: string, relevant: bool): set<string> {
    if relevant then pending + {n} else pending
  }

  /** One step, with objects created at any time under a name that is free. */
  ghost predicate AnyNext(pool: string, s: State, e: Event, s': State) {
    match e
    case Create(o) =>
      && o.name !in s.api
      && s' == State(s.api[o.name := o], s.stored, Raise(s.pending, o.name, o.poolRef == pool))
    case Update(o) =>
      && o.name in s.api && SameIdentity(o, s.api[o.name])
      && s' == State(s.api[o.name := o], s.stored,
                     Raise(s.pending, o.name, s.api[o.name].poolRef == pool || o.poolRef == pool))
    case Delete(n) =>
      && n in s.api
      && s' == State(s.api - {n}, s.stored, Raise(s.pending, n, s.api[n].poolRef == pool))
    case Reconcile(n) =>
      Reconciled(s.api, pool, s.stored, n, s'.stored) && s'.api == s.api && s'.pending == s.pending - {n}
  }

  /** One step. An object is recreated under an old name only after its deletion was reconciled. */
  ghost predicate Next(pool: string, s: State, e: Event, s': State) {
    AnyNext(pool, s, e, s') && (e.Create? ==> e.o.name !in s.pending)
  }

  // ---- Invariants

  ghost predicate Named(api: Api) {
    forall n :: n in api ==> api[n].name == n
  }

  /** The stored entry for `m` is filed correctly, and unless an event is pending it is the live
      object as it is now. */
  ghost predicate EntryOk(pool: string, s: State, m: string)
    requires m in s.stored
  {
    var e := s.stored[m];
    && e.modelName == m
    && (e.name in s.api ==> SameIdentity(e, s.api[e.name]))
    && (e.name !in s.pending ==> Live(s.api, pool, e.name) && s.api[e.name] == e)
  }

  ghost predicate EntriesOk(pool: string, s: State) {
    && (forall m :: m in s.stored ==> EntryOk(pool, s, m))
    && (forall m, k :: m in s.stored && k in s.stored && s.stored[m].name == s.stored[k].name ==> m == k)
  }

  /** A live object whose events are reconciled. */
  ghost predicate Settled(pool: string, s: State, n: string) {
    Live(s.api, pool, n) && n !in s.pending
  }

  ghost predicate ServedByOlder(s: State, n: string)
    requires n in s.api
  {
    s.api[n].modelName in s.stored && s.stored[s.api[n].modelName].created <= s.api[n].created
  }

  /** What is stored for a model name is never newer than a settled live object of that name. */
  ghost predicate OldestServed(pool: string, s: State) {
    forall n :: Settled(pool, s, n) ==> ServedByOlder(s, n)
  }

  ghost predicate Inv(pool: string, s: State) {
    Named(s.api) && EntriesOk(pool, s) && OldestServed(pool, s)
  }

  // ---- Preservation

  lemma ApiStepKeeps(pool: string, s: State, e: Event, s': State)
    requires Inv(pool, s) && Next(pool, s, e, s') && !e.Reconcile?
    ensures Inv(pool, s')
  {
    forall m | m in s'.stored ensures EntryOk(pool, s', m) {
      assert EntryOk(pool, s, m);
    }
    forall n | Settled(pool, s', n) ensures ServedByOlder(s', n) {
      assert Settled(pool, s, n) && ServedByOlder(s, n);
    }
  }

  lemma ReconcileLiveKeeps(pool: string, s: State, n: string, s': State)
    requires Inv(pool, s) && Next(pool, s, Reconcile(n), s') && Live(s.api, pool, n)
    ensures Inv(pool, s')
  {
    var o := s.api[n];
    var m := o.modelName;
    forall k | k in s.stored && s.stored[k].name == n ensures k == m {
      assert EntryOk(pool, s, k);
    }
    forall k | k in s'.stored ensures EntryOk(pool, s', k) {
      assert k in s.stored ==> EntryOk(pool, s, k);
    }
    forall x | Settled(pool, s', x) ensures ServedByOlder(s', x) {
      if x != n {
        assert Settled(pool, s, x) && ServedByOlder(s, x);
        assert m in s.stored ==> EntryOk(pool, s, m);
      }
    }
  }

  lemma DeletedLeaves(pool: string, s: State, n: string, mid: Store, removed: Option<InfModel>)
    requires EntriesOk(pool, s) && Deleted(s.stored, n, mid, removed)
    ensures forall k :: k in mid ==> k in s.stored && mid[k] == s.stored[k] && mid[k].name != n
  {}

  /** Filed correctly, every entry of a surviving object is under that object's model name. */
  lemma EntriesDiffer(pool: string, s: State, s': State, m: string)
    requires EntriesOk(pool, s) && forall k :: k in s'.stored ==> EntryOk(pool, s', k)
    requires forall k :: k in s'.stored && k != m ==> k in s.stored && s'.stored[k] == s.stored[k]
    requires m in s'.stored ==> (m in s.stored && s'.stored[m] == s.stored[m]) || s'.stored[m].name in s'.api
    ensures EntriesOk(pool, s')
  {
    forall k, l | k in s'.stored && l in s'.stored && s'.stored[k].name == s'.stored[l].name ensures k == l {
      assert EntryOk(pool, s', k) && EntryOk(pool, s', l);
    }
  }

  lemma ReconcileDeadEntries(pool: string, s: State, n: string, s': State)
    requires Inv(pool, s) && Next(pool, s, Reconcile(n), s') && !Live(s.api, pool, n)
    ensures EntriesOk(pool, s')
  {
    var mid, removed :| Deleted(s.stored, n, mid, removed) &&
      if removed.Some? then Resynced(s.api, pool, mid, removed.value.modelName, s'.stored) else s'.stored == mid;
    DeletedLeaves(pool, s, n, mid, removed);
    forall k | k in s'.stored ensures EntryOk(pool, s', k) {
      assert k in mid ==> EntryOk(pool, s, k);
    }
    EntriesDiffer(pool, s, s', if removed.Some? then removed.value.modelName else "");
  }

  lemma ReconcileDeadServed(pool: string, s: State, n: string, s': State)
    requires Inv(pool, s) && Next(pool, s, Reconcile(n), s') && !Live(s.api, pool, n)
    ensures OldestServed(pool, s')
  {
    var mid, removed :| Deleted(s.stored, n, mid, removed) &&
      if removed.Some? then Resynced(s.api, pool, mid, removed.value.modelName, s'.stored) else s'.stored == mid;
    forall x | Settled(pool, s', x) ensures ServedByOlder(s', x) {
      assert Settled(pool, s, x) && ServedByOlder(s, x);
      assert Candidate(s.api, pool, s.api[x].modelName, x);
    }
  }

  lemma StepKeeps(pool: string, s: State, e: Event, s': State)
    requires Inv(pool, s) && Next(pool, s, e, s')
    ensures Inv(pool, s')
  {
    if !e.Reconcile? {
      ApiStepKeeps(pool, s, e, s');
    } else if Live(s.api, pool, e.n) {
      ReconcileLiveKeeps(pool, s, e.n, s');
    } else {
      ReconcileDeadEntries(pool, s, e.n, s');
      ReconcileDeadServed(pool, s, e.n, s');
    }
  }

  // ---- Runs

  ghost predicate IsRun(pool: string, ss: seq<State>, es: seq<Event>) {
    |ss| == |es| + 1 && forall i :: 0 <= i < |es| ==> Next(pool, ss[i], es[i], ss[i + 1])
  }

  const EMPTY: State := State(map[], map[], {})

  lemma {:induction false} EveryReachable(pool: string, ss: seq<State>, es: seq<Event>, i: nat)
    requires IsRun(pool, ss, es) && (ss[0] == EMPTY || Inv(pool, ss[0])) && i < |ss|
    ensures Inv(pool, ss[i])
  {
    if i > 0 {
      EveryReachable(pool, ss, es, i - 1);
      StepKeeps(pool, ss[i - 1], es[i - 1], ss[i]);
    }
  }

  /** Once all events are drained: a model name is served exactly if a live object has it, and then
      by a live object with the earliest creation time, as it is now. */
  lemma DrainedServesOldest(pool: string, s: State, m: string)
    requires Inv(pool, s) && s.pending == {}
    ensures m in s.stored <==> exists n :: Candidate(s.api, pool, m, n)
    ensures m in s.stored <==>
              exists n :: n in s.api && !s.api[n].deleting && s.api[n].poolRef == pool && s.api[n].modelName == m
    ensures m in s.stored ==>
              && Candidate(s.api, pool, m, s.stored[m].name)
              && s.api[s.stored[m].name] == s.stored[m]
              && forall n :: Candidate(s.api, pool, m, n) ==> s.stored[m].created <= s.api[n].created
  {
    if m in s.stored {
      assert EntryOk(pool, s, m);
      assert Candidate(s.api, pool, m, s.stored[m].name);
    }
    forall n | Candidate(s.api, pool, m, n) ensures m in s.stored && s.stored[m].created <= s.api[n].created {
      assert Settled(pool, s, n) && ServedByOlder(s, n);
    }
  }

  /** Of two objects of the same age the one reconciled last is served; an object always replaces itself. */
  lemma LastOfEqualAge(stored: Store, o: InfModel)
    requires o.modelName in stored
    requires stored[o.modelName].created == o.created || stored[o.modelName].name == o.name
    ensures SetIfOlder(stored, o) == stored[o.modelName := o]
  {}

  // ---- Where the guarantee ends

  /** Every entry is under its model name, and no object has two. */
  ghost predicate Filed(stored: Store) {
    && (forall m :: m in stored ==> stored[m].modelName == m)
    && (forall m, k :: m in stored && k in stored && stored[m].name == stored[k].name ==> m == k)
  }

  /** No settled object of the model name of `n` is older. */
  ghost predicate NoneOlder(pool: string, s: State, n: string)
    requires n in s.api
  {
    forall x :: Settled(pool, s, x) && s.api[x].modelName == s.api[n].modelName ==> s.api[n].created <= s.api[x].created
  }

  /** An entry of the object `n` is under its present model name, and no settled object of that name is older. */
  ghost predicate MayReplace(pool: string, s: State, n: string)
    requires n in s.api
  {
    forall m :: m in s.stored && s.stored[m].name == n ==> m == s.api[n].modelName && NoneOlder(pool, s, n)
  }

  /** Names may be reused here, so that the entry of `n` may be that of an earlier object. Reconciling the
      live object `n` restores the invariant exactly when it may replace that entry. */
  lemma SetIfOlderExact(pool: string, s: State, n: string, s': State)
    requires Named(s.api) && OldestServed(pool, s) && Filed(s.stored) && Live(s.api, pool, n)
    requires forall m :: m in s.stored && s.stored[m].name != n ==> EntryOk(pool, s, m)
    requires AnyNext(pool, s, Reconcile(n), s')
    ensures Inv(pool, s') <==> MayReplace(pool, s, n)
  {
    if MayReplace(pool, s, n) {
      ReplacedKeeps(pool, s, n, s');
    } else {
      var m :| m in s.stored && s.stored[m].name == n && (m == s.api[n].modelName ==> !NoneOlder(pool, s, n));
      StaleBreaks(pool, s, n, s', m);
    }
  }

  lemma ReplacedKeeps(pool: string, s: State, n: string, s': State)
    requires Named(s.api) && OldestServed(pool, s) && Filed(s.stored) && Live(s.api, pool, n)
    requires forall m :: m in s.stored && s.stored[m].name != n ==> EntryOk(pool, s, m)
    requires AnyNext(pool, s, Reconcile(n), s') && MayReplace(pool, s, n)
    ensures Inv(pool, s')
  {
    var m := s.api[n].modelName;
    forall k | k in s'.stored ensures EntryOk(pool, s', k) {
      assert k in s.stored && s.stored[k].name != n ==> EntryOk(pool, s, k);
    }
    forall x | Settled(pool, s', x) ensures ServedByOlder(s', x) {
      assert x != n ==> Settled(pool, s, x) && ServedByOlder(s, x);
    }
  }

  lemma StaleBreaks(pool: string, s: State, n: string, s': State, m: string)
    requires Named(s.api) && OldestServed(pool, s) && Live(s.api, pool, n) && AnyNext(pool, s, Reconcile(n), s')
    requires m in s.stored && s.stored[m].name == n && s.stored[m].modelName == m
    requires m == s.api[n].modelName ==> !NoneOlder(pool, s, n)
    ensures !Inv(pool, s')
  {
    if m != s.api[n].modelName {
      assert m in s'.stored && !EntryOk(pool, s', m);
    } else {
      var x :| Settled(pool, s, x) && s.api[x].modelName == m && s.api[n].created > s.api[x].created;
      assert Settled(pool, s', x) && !ServedByOlder(s', x);
    }
  }

  /** Clearing the store keeps the guarantee exactly when no live object is settled: nothing but an
      event brings a model back. */
  lemma ClearExact(pool: string, s: State)
    ensures OldestServed(pool, s.(stored := map[])) <==> forall n :: !Settled(pool, s, n)
  {
    var t := s.(stored := map[]);
    assert forall n :: Settled(pool, t, n) <==> Settled(pool, s, n);
  }

  /** If listing fails after the entry was deleted, the retry finds no entry and does not list again. */
  lemma FailedListNotRetried(api: Api, pool: string, stored: Store, n: string, mid: Store, e: InfModel, stored': Store)
    requires forall m, k :: m in stored && k in stored && stored[m].name == stored[k].name ==> m == k
    requires Deleted(stored, n, mid, Some(e)) && !Live(api, pool, n)
    requires Reconciled(api, pool, mid, n, stored')
    ensures stored' == mid && e.modelName !in stored'
  {
    assert forall m :: m in mid ==> mid[m].name != n;
    var mid', removed :| Deleted(mid, n, mid', removed) &&
      if removed.Some? then Resynced(api, pool, mid', removed.value.modelName, stored') else stored' == mid';
  }

  /** After that the invariant holds exactly when no settled object has the model name of the entry. */
  lemma FailedListExact(pool: string, s: State, n: string, mid: Store, e: InfModel, s': State)
    requires Inv(pool, s) && !Live(s.api, pool, n) && Deleted(s.stored, n, mid, Some(e))
    requires Next(pool, s.(stored := mid), Reconcile(n), s')
    ensures Inv(pool, s') <==> forall x :: Settled(pool, s, x) ==> s.api[x].modelName != e.modelName
  {
    FailedListNotRetried(s.api, pool, s.stored, n, mid, e, s'.stored);
    forall k | k in s'.stored ensures EntryOk(pool, s', k) {
      assert EntryOk(pool, s, k);
    }
    assert EntriesOk(pool, s');
    assert forall x :: Settled(pool, s, x) <==> Settled(pool, s', x);
    forall x | Settled(pool, s, x) ensures ServedByOlder(s', x) <==> s.api[x].modelName != e.modelName {
      assert ServedByOlder(s, x);
    }
  }

  // ---- Runs on which it fails

  ghost predicate IsAnyRun(pool: string, ss: seq<State>, es: seq<Event>) {
    |ss| == |es| + 1 && forall i :: 0 <= i < |es| ==> AnyNext(pool, ss[i], es[i], ss[i + 1])
  }

  const OLD_A: InfModel := InfModel("a", "m", "pool", 1, false, "")
  const B: InfModel := InfModel("b", "m", "pool", 3, false, "")
  const NEW_A: InfModel := InfModel("a", "m", "pool", 5, false, "")

  /** Two objects of one model name, both reconciled: the older one is served. */
  const TWO_EVENTS: seq<Event> := [Create(OLD_A), Reconcile("a"), Create(B), Reconcile("b")]
  const TWO_STATES: seq<State> :=
    [EMPTY,
     State(map["a" := OLD_A], map[], {"a"}),
     State(map["a" := OLD_A], map["m" := OLD_A], {}),
     State(map["a" := OLD_A, "b" := B], map["m" := OLD_A], {"b"}),
     State(map["a" := OLD_A, "b" := B], map["m" := OLD_A], {})]

  lemma TwoIsRun()
    ensures IsRun("pool", TWO_STATES, TWO_EVENTS) && IsAnyRun("pool", TWO_STATES, TWO_EVENTS)
  {
    assert Live(TWO_STATES[1].api, "pool", "a") && Live(TWO_STATES[3].api, "pool", "b");
  }

  /** Deleted and created again before the deletion is reconciled, the object shadows an older one. */
  lemma RecreatedShadowsOlder()
    ensures var api := map["a" := NEW_A, "b" := B];
            var gone, again := State(map["b" := B], map["m" := OLD_A], {"a"}), State(api, map["m" := OLD_A], {"a"});
            var last := State(api, map["m" := NEW_A], {});
            && IsAnyRun("pool", TWO_STATES + [gone, again, last], TWO_EVENTS +
                [Delete("a"), Create(NEW_A), Reconcile("a")])
            && Settled("pool", last, "b") && B.created < last.stored["m"].created && !OldestServed("pool", last)
  {
    TwoIsRun();
    var s4, api := TWO_STATES[4], map["a" := NEW_A, "b" := B];
    var s5, s6 := State(map["b" := B], map["m" := OLD_A], {"a"}), State(api, map["m" := OLD_A], {"a"});
    var s7 := State(api, map["m" := NEW_A], {});
    assert s4.api - {"a"} == s5.api;
    assert s6.api == s5.api["a" := NEW_A];
    assert Live(s6.api, "pool", "a");
    assert AnyNext("pool", s4, Delete("a"), s5) && AnyNext("pool", s5, Create(NEW_A), s6);
    assert AnyNext("pool", s6, Reconcile("a"), s7);
    assert Settled("pool", s7, "b") && !ServedByOlder(s7, "b");
  }

  const MOVED_A: InfModel := InfModel("a", "k", "pool", 5, false, "")

  /** Created again under another model name, the object leaves its old entry behind: the deleted object is
      served for good although nothing has its model name. */
  lemma RecreatedLeavesEntry()
    ensures var api := map["a" := MOVED_A];
            var gone, again := State(map[], map["m" := OLD_A], {"a"}), State(api, map["m" := OLD_A], {"a"});
            var last := State(api, map["m" := OLD_A, "k" := MOVED_A], {});
            && IsAnyRun("pool", TWO_STATES[..3] + [gone, again, last],
                        TWO_EVENTS[..2] + [Delete("a"), Create(MOVED_A), Reconcile("a")])
            && !(exists n :: Candidate(last.api, "pool", "m", n)) && !Inv("pool", last)
  {
    TwoIsRun();
    var s2, api := TWO_STATES[2], map["a" := MOVED_A];
    var s3, s4 := State(map[], map["m" := OLD_A], {"a"}), State(api, map["m" := OLD_A], {"a"});
    var s5 := State(api, map["m" := OLD_A, "k" := MOVED_A], {});
    assert s2.api - {"a"} == s3.api;
    assert s4.api == s3.api["a" := MOVED_A];
    assert Live(s4.api, "pool", "a");
    assert s5.stored == s4.stored["k" := MOVED_A];
    assert AnyNext("pool", s2, Delete("a"), s3) && AnyNext("pool", s3, Create(MOVED_A), s4);
    assert AnyNext("pool", s4, Reconcile("a"), s5);
    assert !EntryOk("pool", s5, "m");
  }

  /** Cleared after a run that serves it, a live model stays unserved. */
  lemma ClearLosesModel()
    ensures IsRun("pool", TWO_STATES, TWO_EVENTS)
    ensures var cleared := TWO_STATES[4].(stored := map[]);
            Settled("pool", cleared, "a") && !OldestServed("pool", cleared)
  {
    TwoIsRun();
    assert Settled("pool", TWO_STATES[4], "a");
    ClearExact("pool", TWO_STATES[4]);
  }

  /** The older object is deleted, its entry goes, the list fails: after the retry the other one is unserved. */
  lemma FailedListLosesModel()
    ensures var gone := State(map["b" := B], map["m" := OLD_A], {"a"});
            var last := State(gone.api, map[], {});
            && IsRun("pool", TWO_STATES + [gone], TWO_EVENTS + [Delete("a")])
            && Deleted(gone.stored, "a", map[], Some(OLD_A))
            && Next("pool", gone.(stored := map[]), Reconcile("a"), last)
            && Settled("pool", last, "b") && !OldestServed("pool", last)
  {
    TwoIsRun();
    var s4, gone := TWO_STATES[4], State(map["b" := B], map["m" := OLD_A], {"a"});
    var last := State(gone.api, map[], {});
    assert s4.api - {"a"} == gone.api;
    assert Next("pool", s4, Delete("a"), gone);
    var nothing: Store := map[];
    assert gone.stored - {"m"} == nothing;
    assert Deleted(nothing, "a", nothing, None);
    assert Settled("pool", last, "b") && !ServedByOlder(last, "b");
  }
}
