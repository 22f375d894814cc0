/** The informer registry itself: stop channels on the heap, one per watched cluster. Its methods
    are proved against the handlers of ClusterTable. */
module ClusterInformers {
  import opened Wrappers
  import opened ClusterTable

  /** A stop channel, with the cluster and the client configuration of the pod informer that was
      started with it. */
  class StopChannel {
    const cluster: int
    const config: ClientConfig
    var closed: bool

    constructor (cluster: int, config: ClientConfig)
      ensures this.cluster == cluster && this.config == config && !closed
    {
      this.cluster, this.config, closed := cluster, config, false;
    }

    /** Closing a closed channel panics. */
    method Close()
      requires !closed
      modifies this
      ensures closed
    {
      closed := true;
    }
  }

  lemma SomeMember<T>(s: set<T>) returns (x: T)
    requires s != {}
    ensures x in s
  {
    x :| x in s;
  }

  class K8sInformerImpl {
    var informerStopper: map<int, StopChannel>
    ghost var made: set<StopChannel>  // every channel ever created

    /** The registered channels are exactly the open ones, each under its own cluster: none is
        leaked, none is shared, and a registered channel can still be closed. */
    ghost predicate Valid()
      reads this, made
    {
      && (forall id | id in informerStopper ::
            var c := informerStopper[id]; c in made && c.cluster == id && !c.closed)
      && (forall c | c in made && !c.closed ::
            c.cluster in informerStopper && informerStopper[c.cluster] == c)
    }

    ghost function Watched(): Watch
      reads this
    {
      map id | id in informerStopper :: informerStopper[id].config
    }

    /** Only channels of cluster `id` may have been closed, none was reopened, new channels are new,
        and every other cluster keeps its channel. */
    twostate predicate OnlyTouches(id: int)
      reads this, made
    {
      && old(made) <= made && fresh(made - old(made))
      && (forall c | c in old(made) :: if c.cluster == id then old(c.closed) ==> c.closed else c.closed == old(c.closed))
      && informerStopper - {id} == old(informerStopper) - {id}
    }

    constructor ()
      ensures Valid() && Watched() == map[] && made == {}
    {
      informerStopper, made := map[], {};
    }

    method StartSystemWorkflowInformer(clusterId: int, rows: Rows, a: Answers) returns (err: Outcome)
      requires Valid()
      modifies this
      ensures Valid() && OnlyTouches(clusterId)
      ensures (Watched(), err) == Start(old(Watched()), rows, clusterId, a)
      ensures err == Done ==> clusterId in informerStopper && made == old(made) + {informerStopper[clusterId]} && fresh(informerStopper[clusterId])
      ensures err != Done ==> made == old(made) && informerStopper == old(informerStopper)
    {
      if !a.lookup || !IsActive(rows, clusterId) {
        return LookupFailed;
      }
      var clusterInfo := rows[clusterId];
      if clusterId in informerStopper {
        return AlreadyExists;
      }
      if !a.build {
        return ClientFailed;
      }
      var stopper := new StopChannel(clusterId, ConfigOf(clusterInfo));
      made := made + {stopper};
      informerStopper := informerStopper[clusterId := stopper];
      assert Watched() == old(Watched())[clusterId := ConfigOf(clusterInfo)];
      return Done;
    }

    method StopSystemWorkflowInformer(clusterId: int)
      requires Valid()
      modifies this, made
      ensures Valid() && OnlyTouches(clusterId) && made == old(made)
      ensures Watched() == Stop(old(Watched()), clusterId)
      ensures forall c | c in made :: c.closed == (old(c.closed) || c.cluster == clusterId)
    {
      if clusterId in informerStopper {
        var stopper := informerStopper[clusterId];
        stopper.Close();
        informerStopper := informerStopper - {clusterId};
      }
    }

    method SyncSystemWorkflowInformer(clusterId: int, rows: Rows, a: Answers) returns (err: Outcome)
      requires Valid()
      modifies this, made
      ensures Valid() && OnlyTouches(clusterId)
      ensures (Watched(), err) == Sync(old(Watched()), rows, clusterId, a)
      ensures a.lookup && IsActive(rows, clusterId) ==> forall c | c in old(made) && c.cluster == clusterId :: c.closed
      ensures !(a.lookup && IsActive(rows, clusterId)) ==> informerStopper == old(informerStopper)
      ensures err == Done <==> made != old(made)
    {
      if !a.lookup || !IsActive(rows, clusterId) {
        return LookupFailed;
      }
      StopSystemWorkflowInformer(clusterId);
      err := StartSystemWorkflowInformer(clusterId, rows, a.(lookup := a.again));
    }

    method StopAllSystemWorkflowInformer()
      requires Valid()
      modifies this, made
      ensures Valid() && Watched() == map[] && made == old(made)
      ensures forall c | c in made :: c.closed
    {
      var keys := informerStopper.Keys;
      while keys != {}
        invariant Valid() && made == old(made)
        invariant informerStopper.Keys == keys
      {
        ghost var any := SomeMember(keys);
        var clusterId :| clusterId in keys;
        StopSystemWorkflowInformer(clusterId);
        assert informerStopper.Keys == Watched().Keys;
        keys := keys - {clusterId};
      }
    }

    /** The startup loop, over the ids of the active rows when they could be listed. */
    method BuildInformerForAllClusters(listed: Option<seq<int>>, rows: Rows, a: nat -> Answers) returns (ok: bool)
      requires Valid()
      modifies this
      ensures Valid() && ok == listed.Some?
      ensures Watched() == if ok then StartAll(old(Watched()), rows, listed.value, a) else old(Watched())
      ensures old(made) <= made && fresh(made - old(made))
      ensures forall c | c in old(made) :: c.closed == old(c.closed)
    {
      if listed.None? {
        return false;
      }
      var models := listed.value;
      for i := 0 to |models|
        invariant Valid() && old(made) <= made && fresh(made - old(made))
        invariant Watched() == StartAll(old(Watched()), rows, models[..i], a)
      {
        var _ := StartSystemWorkflowInformer(models[i], rows, a(i));
        assert models[..i + 1][..i] == models[..i];
      }
      assert models[..|models|] == models;
      return true;
    }

    method HandleClusterDelete(clusterId: int, rows: Rows, a: Answers) returns (failed: bool)
      requires Valid()
      modifies this, made
      ensures Valid() && OnlyTouches(clusterId) && made == old(made)
      ensures (Watched(), if failed then LookupFailed else Done) == Delete(old(Watched()), rows, clusterId, a)
    {
      if !a.lookup || !IsInactive(rows, clusterId) {
        return true;
      }
      StopSystemWorkflowInformer(clusterId);
      return false;
    }

    method HandleClusterDeleteEvent(secret: Secret, rows: Rows, a: Answers) returns (handled: bool)
      requires Valid()
      modifies this, made
      ensures Valid() && OnlyTouches(ClusterId(secret)) && made == old(made)
      ensures Watched() == HandleNotification(old(Watched()), rows, Deleted(Some(secret)), a)
      ensures !handled <==> secret.kind == CLUSTER_MODIFY_EVENT_SECRET_TYPE &&
                            (DeleteEvent(secret).Some? ==> a.lookup && IsInactive(rows, ClusterId(secret)))
    {
      if secret.kind != CLUSTER_MODIFY_EVENT_SECRET_TYPE {
        return true;
      }
      var action := Lookup(secret.data, "action");
      var clusterId := ClusterId(secret);
      if action == "delete" {
        var failed := HandleClusterDelete(clusterId, rows, a);
        if failed {
          return true;
        }
      }
      return false;
    }

    method HandleClusterChangeEvent(secret: Secret, rows: Rows, a: Answers)
      requires Valid()
      modifies this, made
      ensures Valid() && OnlyTouches(ClusterId(secret))
      ensures Watched() == HandleNotification(old(Watched()), rows, Added(Some(secret)), a)
    {
      if secret.kind != CLUSTER_MODIFY_EVENT_SECRET_TYPE {
        return;
      }
      var action := Lookup(secret.data, "action");
      var clusterId := ClusterId(secret);
      if action == "add" {
        var _ := StartSystemWorkflowInformer(clusterId, rows, a);
      } else if action == "update" {
        var _ := SyncSystemWorkflowInformer(clusterId, rows, a);
      }
    }

    /** The three callbacks of the secret informer. */
    method OnNotification(n: Notification, rows: Rows, a: Answers)
      requires Valid()
      modifies this, made
      ensures Valid() && old(made) <= made && fresh(made - old(made))
      ensures Watched() == HandleNotification(old(Watched()), rows, n, a)
      ensures n.secret.Some? ==> OnlyTouches(ClusterId(n.secret.value))
      ensures n.secret.None? ==> informerStopper == old(informerStopper)
    {
      if n.secret.Some? {
        if n.Deleted? {
          var _ := HandleClusterDeleteEvent(n.secret.value, rows, a);
        } else {
          HandleClusterChangeEvent(n.secret.value, rows, a);
        }
      }
    }

    // ---------- Channel accounting ----------

    ghost function Made(id: int): set<StopChannel>
      reads this
    {
      set c | c in made && c.cluster == id
    }

    ghost function Closed(): set<StopChannel>
      reads this, made
    {
      set c | c in made && c.closed
    }

    /** For every cluster, channels created = channels closed + 1 if it is watched. */
    lemma ChannelsPerCluster(id: int)
      requires Valid()
      ensures |Made(id)| == |Made(id) * Closed()| + (if id in informerStopper then 1 else 0)
    {
      var shut := Made(id) * Closed();
      if id in informerStopper {
        assert Made(id) == shut + {informerStopper[id]};
      } else {
        assert Made(id) == shut;
      }
    }

    /** In all: channels created = channels closed + size of the map. */
    lemma ChannelsInTotal()
      requires Valid()
      ensures |made| == |Closed()| + |informerStopper|
    {
      var open := made - Closed();
      assert made == open + Closed();
      Registered(open, informerStopper.Keys);
    }

    lemma {:induction false} Registered(open: set<StopChannel>, ids: set<int>)
      requires Valid() && ids <= informerStopper.Keys
      requires open == set c | c in made && !c.closed && c.cluster in ids
      ensures |open| == |ids|
      decreases ids
    {
      if ids == {} {
        assert open == {};
      } else {
        var id := SomeMember(ids);
        var c := informerStopper[id];
        Registered(open - {c}, ids - {id});
      }
    }
  }

  /** One notification as it is handled: the table at that moment and how the outside answers. */
  datatype Delivery = Delivery(notification: Notification, rows: Rows, answers: Answers)

  function HandleAll(w: Watch, ds: seq<Delivery>): Watch {
    if ds == [] then w
    else
      var d := ds[|ds| - 1];
      HandleNotification(HandleAll(w, ds[..|ds| - 1]), d.rows, d.notification, d.answers)
  }

  /** The registry over the life of the program: startup, any notifications whatever, shutdown. At the
      end every channel ever created is closed; before that the registry was what the events
      made it. That no channel is closed twice is the precondition of Close. */
  method Lifetime(listed: Option<seq<int>>, rows: Rows, a: nat -> Answers, ds: seq<Delivery>)
    returns (impl: K8sInformerImpl, ghost served: Watch)
    ensures fresh(impl) && impl.Valid() && impl.Watched() == map[]
    ensures forall c | c in impl.made :: c.closed
    ensures served == HandleAll(if listed.Some? then StartAll(map[], rows, listed.value, a) else map[], ds)
  {
    impl := new K8sInformerImpl();
    var _ := impl.BuildInformerForAllClusters(listed, rows, a);
    ghost var started := impl.Watched();
    for i := 0 to |ds|
      invariant impl.Valid() && fresh(impl) && fresh(impl.made)
      invariant impl.Watched() == HandleAll(started, ds[..i])
    {
      impl.OnNotification(ds[i].notification, ds[i].rows, ds[i].answers);
      assert ds[..i + 1][..i] == ds[..i];
    }
    assert ds[..|ds|] == ds;
    served := impl.Watched();
    impl.StopAllSystemWorkflowInformer();
  }
}
