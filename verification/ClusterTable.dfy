/** The cluster table as the reconciler sees it, the events it is told about, and the effect
    of each handler on the set of watched clusters. */
module ClusterTable {
  import opened Wrappers
  import opened Decimal

  const DEFAULT_CLUSTER := "default_cluster"
  const CLUSTER_MODIFY_EVENT_SECRET_TYPE := "cluster.request/modify"

  datatype Cluster = Cluster(name: string, serverUrl: string, config: map<string, string>, active: bool)

  /** The table: the row whose primary key is the map key. */
  type Rows = map<int, Cluster>

  predicate IsActive(rows: Rows, id: int) {
    id in rows && rows[id].active
  }

  predicate IsInactive(rows: Rows, id: int) {
    id in rows && !rows[id].active
  }

  /** What a Kubernetes client is built from; the default cluster has one fixed configuration. */
  datatype ClientConfig = InCluster | Remote(host: string, token: string)

  function Lookup(m: map<string, string>, key: string): string {
    if key in m then m[key] else ""
  }

  function ConfigOf(c: Cluster): ClientConfig {
    if c.name == DEFAULT_CLUSTER then InCluster else Remote(c.serverUrl, Lookup(c.config, "bearer_token"))
  }

  /** The watched clusters, each with the configuration its running informer was built from. */
  type Watch = map<int, ClientConfig>

  /** How the outside world answers one handler: its first table query, a second one if it makes
      one, and the building of a client. */
  datatype Answers = Answers(lookup: bool, again: bool, build: bool)

  datatype Outcome = Done | LookupFailed | AlreadyExists | ClientFailed

  // ---------- The effect of the handlers on the watched clusters ----------

  function Start(w: Watch, rows: Rows, id: int, a: Answers): (Watch, Outcome) {
    if !a.lookup || !IsActive(rows, id) then (w, LookupFailed)
    else if id in w then (w, AlreadyExists)
    else if !a.build then (w, ClientFailed)
    else (w[id := ConfigOf(rows[id])], Done)
  }

  function Stop(w: Watch, id: int): Watch {
    w - {id}
  }

  function Sync(w: Watch, rows: Rows, id: int, a: Answers): (Watch, Outcome) {
    if !a.lookup || !IsActive(rows, id) then (w, LookupFailed)
    else Start(Stop(w, id), rows, id, a.(lookup := a.again))
  }

  function Delete(w: Watch, rows: Rows, id: int, a: Answers): (Watch, Outcome) {
    if !a.lookup || !IsInactive(rows, id) then (w, LookupFailed) else (Stop(w, id), Done)
  }

  /** The startup loop: one start for each listed row, whatever the earlier ones returned. */
  function StartAll(w: Watch, rows: Rows, ids: seq<int>, a: nat -> Answers): Watch {
    if ids == [] then w
    else
      var before := StartAll(w, rows, ids[..|ids| - 1], a);
      Start(before, rows, ids[|ids| - 1], a(|ids| - 1)).0
  }

  // ---------- Events ----------

  datatype Event = Add(id: int) | Update(id: int) | Remove(id: int)

  function Handle(w: Watch, rows: Rows, e: Event, a: Answers): Watch {
    match e
    case Add(id) => Start(w, rows, id, a).0
    case Update(id) => Sync(w, rows, id, a).0
    case Remove(id) => Delete(w, rows, id, a).0
  }

  /** A secret of the management cluster; only its type and two entries of its data matter. */
  datatype Secret = Secret(kind: string, data: map<string, string>)

  /** What the secret informer delivers. The object of a deletion may be a tombstone, which is
      no secret; such an object is dropped. */
  datatype Notification = Added(secret: Option<Secret>) | Updated(secret: Option<Secret>) | Deleted(secret: Option<Secret>)

  function ClusterId(s: Secret): int {
    Atoi(Lookup(s.data, "cluster_id"))
  }

  function ChangeEvent(s: Secret): Option<Event> {
    if s.kind != CLUSTER_MODIFY_EVENT_SECRET_TYPE then None
    else if Lookup(s.data, "action") == "add" then Some(Add(ClusterId(s)))
    else if Lookup(s.data, "action") == "update" then Some(Update(ClusterId(s)))
    else None
  }

  function DeleteEvent(s: Secret): Option<Event> {
    if s.kind == CLUSTER_MODIFY_EVENT_SECRET_TYPE && Lookup(s.data, "action") == "delete"
    then Some(Remove(ClusterId(s))) else None
  }

  function EventOf(n: Notification): Option<Event> {
    match n
    case Added(Some(s)) => ChangeEvent(s)
    case Updated(Some(s)) => ChangeEvent(s)
    case Deleted(Some(s)) => DeleteEvent(s)
    case _ => None
  }

  function HandleNotification(w: Watch, rows: Rows, n: Notification, a: Answers): Watch {
    match EventOf(n)
    case Some(e) => Handle(w, rows, e, a)
    case None => w
  }

  /** The secret by which the orchestrator asks for an action on a cluster. */
  function RequestSecret(action: string, id: int): Secret {
    Secret("cluster.request/modify", map["action" := action, "cluster_id" := Itoa(id)])
  }

  /** A request reaches its handler with its own cluster id exactly when the notification has the
      right kind: add and update act while the secret exists, delete only once it is deleted. */
  lemma RequestsArrive(action: string, id: int, n: Notification)
    requires -0x8000_0000_0000_0000 <= id < 0x8000_0000_0000_0000
    requires n.secret == Some(RequestSecret(action, id))
    ensures EventOf(n) == Some(Add(id)) <==> action == "add" && !n.Deleted?
    ensures EventOf(n) == Some(Update(id)) <==> action == "update" && !n.Deleted?
    ensures EventOf(n) == Some(Remove(id)) <==> action == "delete" && n.Deleted?
    ensures EventOf(n).Some? ==> EventOf(n).value.id == id
  {
    AtoiOfItoa(id);
    var s := RequestSecret(action, id);
    assert Lookup(s.data, "cluster_id") == Itoa(id) && Lookup(s.data, "action") == action;
  }

  // ---------- Single handlers ----------

  /** The client is built for the row's own address with its own token, or in the cluster itself. */
  ghost predicate BuiltFor(config: ClientConfig, row: Cluster) {
    if row.name == "default_cluster" then config == InCluster
    else config.Remote? && config.host == row.serverUrl &&
         config.token == if "bearer_token" in row.config then row.config["bearer_token"] else ""
  }

  /** A start has four outcomes, and only one of them changes anything. */
  lemma StartOutcomes(w: Watch, rows: Rows, id: int, a: Answers)
    ensures var (v, err) := Start(w, rows, id, a);
      && v - {id} == w - {id}
      && (err == LookupFailed <==> !(a.lookup && id in rows && rows[id].active))
      && (err == AlreadyExists <==> a.lookup && id in rows && rows[id].active && id in w)
      && (err == Done <==> v != w)
      && (err == Done <==> a.lookup && id in rows && rows[id].active && id !in w && a.build)
      && (err == Done ==> id in v && BuiltFor(v[id], rows[id]))
  {
    if id !in w && IsActive(rows, id) {
      assert id in w[id := ConfigOf(rows[id])];
    }
  }

  /** What an action asked for cluster `id` comes to. Removal happens when the secret is deleted and the
      inactive row is found; addition starts an active cluster that is not watched; an update
      replaces, or drops if it can no longer be started, what an active cluster runs. Nothing else has
      an effect, and no other cluster is touched. */
  ghost predicate ComesTo(w: Watch, v: Watch, rows: Rows, deleted: bool, action: string, id: int, a: Answers) {
    && v - {id} == w - {id}
    && if deleted then
         if action == "delete" && a.lookup && id in rows && !rows[id].active then id !in v else v == w
       else if !(a.lookup && id in rows && rows[id].active) then v == w
       else if action == "add" && id !in w && a.build then id in v && BuiltFor(v[id], rows[id])
       else if action == "update" then
         if a.again && a.build then id in v && BuiltFor(v[id], rows[id]) else id !in v
       else v == w
  }

  /** An event is what its action asks for. */
  lemma EventComesTo(w: Watch, rows: Rows, e: Event, a: Answers)
    ensures var v := Handle(w, rows, e, a);
      match e
      case Add(id) => ComesTo(w, v, rows, false, "add", id, a)
      case Update(id) => ComesTo(w, v, rows, false, "update", id, a)
      case Remove(id) => ComesTo(w, v, rows, true, "delete", id, a)
  {
    StartOutcomes(w, rows, e.id, a);
    StartOutcomes(Stop(w, e.id), rows, e.id, a.(lookup := a.again));
  }

  /** Every secret has the effect its type, action and cluster id ask for; missing entries read as empty
      text, and what is no secret or no request has no effect. */
  lemma NotificationOutcomes(w: Watch, rows: Rows, n: Notification, a: Answers)
    ensures var v := HandleNotification(w, rows, n, a);
      match n.secret
      case None => v == w
      case Some(s) =>
        var action := if "action" in s.data then s.data["action"] else "";
        var id := Atoi(if "cluster_id" in s.data then s.data["cluster_id"] else "");
        if s.kind == "cluster.request/modify" then ComesTo(w, v, rows, n.Deleted?, action, id, a) else v == w
  {
    if EventOf(n).Some? {
      EventComesTo(w, rows, EventOf(n).value, a);
    }
  }

  /** So a request does to the cluster it names what it asks for. */
  lemma RequestOutcomes(w: Watch, rows: Rows, action: string, id: int, n: Notification, a: Answers)
    requires -0x8000_0000_0000_0000 <= id < 0x8000_0000_0000_0000
    requires n.secret == Some(RequestSecret(action, id))
    ensures ComesTo(w, HandleNotification(w, rows, n, a), rows, n.Deleted?, action, id, a)
  {
    AtoiOfItoa(id);
    NotificationOutcomes(w, rows, n, a);
  }

  /** No handler touches any other cluster. */
  lemma HandlerFrame(w: Watch, rows: Rows, e: Event, a: Answers, other: int)
    requires other != e.id
    ensures other in Handle(w, rows, e, a) <==> other in w
    ensures other in w ==> Handle(w, rows, e, a)[other] == w[other]
  {
  }

  /** An update has three outcomes: it fails before touching anything, it leaves the cluster
      unwatched, or the cluster is watched with its current configuration. */
  lemma SyncOutcomes(w: Watch, rows: Rows, id: int, a: Answers)
    ensures var (v, err) := Sync(w, rows, id, a);
      if !(a.lookup && IsActive(rows, id)) then v == w && err == LookupFailed
      else if a.again && a.build then id in v && v[id] == ConfigOf(rows[id]) && err == Done
      else id !in v && err == (if a.again then ClientFailed else LookupFailed)
    ensures Sync(w, rows, id, a).1 != AlreadyExists
  {
  }

  function Repeat(w: Watch, rows: Rows, e: Event, a: nat -> Answers, n: nat): Watch {
    if n == 0 then w else Handle(Repeat(w, rows, e, a, n - 1), rows, e, a(n - 1))
  }

  /** Replaying an add event on a watched cluster any number of times changes nothing. */
  lemma {:induction false} AddIsIdempotent(w: Watch, rows: Rows, id: int, a: nat -> Answers, n: nat)
    requires id in w
    ensures Repeat(w, rows, Add(id), a, n) == w
  {
    if n > 0 {
      AddIsIdempotent(w, rows, id, a, n - 1);
    }
  }

  // ---------- Startup ----------

  ghost predicate Started(rows: Rows, ids: seq<int>, a: nat -> Answers, id: int) {
    id in rows && rows[id].active && exists i :: 0 <= i < |ids| && ids[i] == id && a(i).lookup && a(i).build
  }

  /** Startup leaves what is already watched alone, and adds exactly the listed clusters that are still
      active and got an answer and a client at one of their listings, each with its current
      configuration; duplicates in the list do no harm. */
  lemma {:induction false} StartupWatches(w: Watch, rows: Rows, ids: seq<int>, a: nat -> Answers, id: int)
    ensures var v := StartAll(w, rows, ids, a);
      && (id in v <==> id in w || Started(rows, ids, a, id))
      && (id in w ==> v[id] == w[id])
      && (id in v && id !in w ==> BuiltFor(v[id], rows[id]))
  {
    if ids != [] {
      var last := |ids| - 1;
      var shorter := ids[..last];
      StartupWatches(w, rows, shorter, a, id);
      StartOutcomes(StartAll(w, rows, shorter, a), rows, ids[last], a(last));
      if Started(rows, shorter, a, id) {
        var i :| 0 <= i < |shorter| && shorter[i] == id && a(i).lookup && a(i).build;
        assert ids[i] == id;
      }
      if Started(rows, ids, a, id) && !(ids[last] == id && a(last).lookup && a(last).build) {
        var i :| 0 <= i < |ids| && ids[i] == id && a(i).lookup && a(i).build;
        assert shorter[i] == id;
      }
    }
  }
}
