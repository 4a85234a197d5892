/** The datastore and its reconcilers, as objects that change their fields. */
module Datastore {
  import M = ModelProtocol
  import P = PodProtocol
  import opened Options

  datatype Pool = Pool(name: string, selector: P.Labels)

  /** The API server as the controllers read it: always current, never failing. */
  class Client {
    var models: M.Api
    var pods: P.Api

    constructor ()
      ensures models == map[] && pods == map[]
    {
      models, pods := map[], map[];
    }

    /** The objects with a given model name, in any order. */
    method ListModels(modelName: string) returns (items: seq<M.InfModel>)
      ensures forall o :: o in items <==> exists n :: n in models && models[n] == o && o.modelName == modelName
    {
      items := [];
      var todo := models.Keys;
      while todo != {}
        invariant todo <= models.Keys
        invariant forall o :: o in items <==>
          exists n :: n in models && n !in todo && models[n] == o && o.modelName == modelName
        decreases todo
      {
        var n :| n in todo;
        if models[n].modelName == modelName {
          items := items + [models[n]];
        }
        todo := todo - {n};
      }
    }

    /** The pods that match a selector, by name. */
    method ListPods(selector: P.Labels) returns (items: seq<string>)
      ensures forall n :: n in items <==> n in pods && P.Matches(selector, pods[n].labels)
    {
      items := [];
      var todo := pods.Keys;
      while todo != {}
        invariant todo <= pods.Keys
        invariant forall n :: n in items <==> n in pods && n !in todo && P.Matches(selector, pods[n].labels)
        decreases todo
      {
        var n :| n in todo;
        if P.Matches(selector, pods[n].labels) {
          items := items + [n];
        }
        todo := todo - {n};
      }
    }
  }

  class Datastore {
    var pool: Option<Pool>
    var models: M.Store
    var pods: map<string, string>

    constructor ()
      ensures pool == None && models == map[] && pods == map[]
    {
      pool, models, pods := None, map[], map[];
    }

    /** The selector in force, as the pod protocol sees it. */
    ghost function Selector(): Option<P.Labels>
      reads this
    {
      if pool.Some? then Some(pool.value.selector) else None
    }

    method Clear()
      modifies this
      ensures pool == None && models == map[] && pods == map[]
    {
      pool := None;
      models := map[];
      pods := map[];
    }

    /** Stores the pool and resyncs the pods if the selector is new; no pool means clear. */
    method PoolSet(c: Client, p: Option<Pool>)
      modifies this
      ensures p.None? ==> pool == None && models == map[] && pods == map[]
      ensures p.Some? ==> pool == p && models == old(models)
      ensures p.Some? ==>
                pods == P.Step(P.State(c.pods, old(Selector()), old(pods), {}), P.PoolSet(p.value.selector)).stored
    {
      if p.None? {
        Clear();
        return;
      }
      var oldPool := pool;
      pool := p;
      if oldPool.None? || oldPool.value.selector != p.value.selector {
        PodResyncAll(c);
      }
    }

    predicate LabelsMatch(labels: P.Labels)
      reads this
      ensures LabelsMatch(labels) == P.PoolLabelsMatch(Selector(), labels)
    {
      pool.Some? && P.Matches(pool.value.selector, labels)
    }

    method PodUpdateOrAddIfNotExist(n: string, pod: P.Pod) returns (existed: bool)
      modifies this`pods
      ensures pods == old(pods)[n := pod.address] && existed == (n in old(pods))
    {
      existed := n in pods;
      pods := pods[n := pod.address];
    }

    method PodDelete(n: string)
      modifies this`pods
      ensures pods == old(pods) - {n}
    {
      pods := pods - {n};
    }

    /** Adds the ready pods of the list, then removes all others. */
    method PodResyncAll(c: Client)
      requires pool.Some?
      modifies this`pods
      ensures pods == P.Resync(c.pods, pool.value.selector)
    {
      var listed := c.ListPods(pool.value.selector);
      var active: set<string> := {};
      for i := 0 to |listed|
        invariant active == set n | n in listed[..i] && c.pods[n].ready
        invariant active <= pods.Keys && forall n :: n in active ==> pods[n] == c.pods[n].address
      {
        assert listed[..i + 1] == listed[..i] + [listed[i]];
        var pod := c.pods[listed[i]];
        if pod.ready {
          active := active + {listed[i]};
          var _ := PodUpdateOrAddIfNotExist(listed[i], pod);
        }
      }
      assert listed[..|listed|] == listed;
      RemoveInactive(active);
      assert forall n :: n in active <==> n in c.pods && P.Wanted(c.pods, Some(pool.value.selector), n).Some?;
    }

    method RemoveInactive(active: set<string>)
      requires active <= pods.Keys
      modifies this`pods
      ensures pods == map n | n in active :: old(pods)[n]
    {
      var todo := pods.Keys;
      while todo != {}
        invariant todo <= old(pods).Keys && pods.Keys == active + todo
        invariant forall n :: n in pods ==> pods[n] == old(pods)[n]
        decreases todo
      {
        var n :| n in todo;
        if n !in active {
          PodDelete(n);
        }
        todo := todo - {n};
      }
    }

    /** The result says whether the object was stored. */
    method ModelSetIfOlder(o: M.InfModel) returns (set_: bool)
      modifies this`models
      ensures models == M.SetIfOlder(old(models), o)
      ensures !set_ <==> o.modelName in old(models) && old(models)[o.modelName].name != o.name &&
                         old(models)[o.modelName].created < o.created
    {
      if o.modelName in models {
        var existing := models[o.modelName];
        var diffObj := o.name != existing.name;
        if diffObj && existing.created < o.created {
          return false;
        }
      }
      models := models[o.modelName := o];
      return true;
    }

    /** Searches the entries, in no particular order, for the object with this name. */
    method ModelDelete(n: string) returns (removed: Option<M.InfModel>)
      requires forall m :: m in models ==> models[m].modelName == m
      modifies this`models
      ensures M.Deleted(old(models), n, models, removed)
    {
      var todo := models.Keys;
      while todo != {}
        invariant todo <= models.Keys && models == old(models)
        invariant forall m :: m in models && m !in todo ==> models[m].name != n
        decreases todo
      {
        var k :| k in todo;
        var m := models[k];
        if m.name == n {
          models := models - {m.modelName};
          return Some(m);
        }
        todo := todo - {k};
      }
      return None;
    }

    /** Stores the oldest object of the pool that has the model name, if there is one. */
    method ModelResync(c: Client, modelName: string) returns (updated: bool)
      requires pool.Some? && M.Named(c.models)
      modifies this`models
      ensures M.Resynced(c.models, pool.value.name, old(models), modelName, models)
      ensures updated <==> exists n :: M.Candidate(c.models, pool.value.name, modelName, n)
    {
      var items := c.ListModels(modelName);
      ghost var api, p := c.models, pool.value.name;
      var oldest: Option<M.InfModel> := None;
      for i := 0 to |items|
        invariant oldest.Some? ==>
          M.Candidate(api, p, modelName, oldest.value.name) && api[oldest.value.name] == oldest.value
        invariant forall j :: 0 <= j < i && M.Candidate(api, p, modelName, items[j].name) ==>
                    oldest.Some? && oldest.value.created <= items[j].created
      {
        var m := items[i];
        assert m.name in api && api[m.name] == m by {
          assert m in items;
        }
        if m.modelName == modelName && m.poolRef == pool.value.name && !m.deleting {
          if oldest.None? || m.created < oldest.value.created {
            oldest := Some(m);
          }
        }
      }
      forall n | M.Candidate(api, p, modelName, n) ensures oldest.Some? && oldest.value.created <= api[n].created {
        assert api[n] in items;
        var j :| 0 <= j < |items| && items[j] == api[n];
        assert items[j].name == n;
      }
      if oldest.None? {
        return false;
      }
      models := models[modelName := oldest.value];
      assert M.Candidate(api, p, modelName, oldest.value.name);
      return true;
    }
  }

  /** A reconcile of a model object. With an entry to replace but no pool stored, the resync
      dereferences the missing pool: the result `crashed`. */
  method ReconcileModel(ds: Datastore, c: Client, poolName: string, n: string) returns (crashed: bool)
    requires M.Named(c.models)
    requires forall m :: m in ds.models ==> ds.models[m].modelName == m
    requires ds.pool.Some? ==> ds.pool.value.name == poolName
    modifies ds`models
    ensures forall m :: m in ds.models ==> ds.models[m].modelName == m
    ensures !crashed ==> M.Reconciled(c.models, poolName, old(ds.models), n, ds.models)
    ensures crashed ==> exists e :: M.Deleted(old(ds.models), n, ds.models, Some(e))
    ensures crashed <==> ds.pool.None? && !M.Live(c.models, poolName, n) &&
                         exists m :: m in old(ds.models) && old(ds.models)[m].name == n
  {
    if n !in c.models || c.models[n].deleting || c.models[n].poolRef != poolName {
      var removed := ds.ModelDelete(n);
      if removed.None? {
        return false;
      }
      if ds.pool.None? {
        return true;
      }
      ghost var mid := ds.models;
      var _ := ds.ModelResync(c, removed.value.modelName);
      assert M.Deleted(old(ds.models), n, mid, removed);
      return false;
    }
    var _ := ds.ModelSetIfOlder(c.models[n]);
    return false;
  }

  /** A model is stored before there is a pool, and deleted before there is one. */
  method MissingPoolCrash() returns (crashed: bool)
    ensures crashed
  {
    var ds := new Datastore();
    var c := new Client();
    c.models := map["a" := M.OLD_A];
    crashed := ReconcileModel(ds, c, "pool", "a");
    assert ds.models == map["m" := M.OLD_A];
    c.models := map[];
    crashed := ReconcileModel(ds, c, "pool", "a");
    assert M.OLD_A.name == "a";
  }

  method ReconcilePod(ds: Datastore, c: Client, n: string)
    modifies ds`pods
    ensures ds.pods == P.ReconcilePod(P.State(c.pods, ds.Selector(), old(ds.pods), {}), n)
  {
    if ds.pool.None? {
      return;
    }
    if n !in c.pods {
      ds.PodDelete(n);
      return;
    }
    var pod := c.pods[n];
    if !pod.ready || !ds.LabelsMatch(pod.labels) {
      ds.PodDelete(n);
    } else {
      var _ := ds.PodUpdateOrAddIfNotExist(n, pod);
    }
  }

  /** A reconcile of the pool: gone or going means clear. */
  method ReconcilePool(ds: Datastore, c: Client, found: Option<Pool>, deleting: bool)
    modifies ds
    ensures found.None? || deleting ==> ds.pool == None && ds.models == map[] && ds.pods == map[]
    ensures found.Some? && !deleting ==>
              && ds.pool == found && ds.models == old(ds.models)
              && ds.pods == P.Step(P.State(c.pods, old(ds.Selector()), old(ds.pods), {}),
                  P.PoolSet(found.value.selector)).stored
  {
    if found.None? || deleting {
      ds.Clear();
      return;
    }
    ds.PoolSet(c, found);
  }
}
