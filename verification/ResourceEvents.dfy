/** The resource controller's callbacks, which all write the same captured event record. */
module ResourceEvents {
  import opened Wrappers

  datatype Event = Event(key: string, eventType: string, namespace: string, resourceType: string)

  const NO_EVENT := Event("", "", "", "")

  /** A callback of the informer; the key is None when none can be derived from the object. */
  datatype Callback = Add(key: Option<string>) | Update(key: Option<string>) | Delete(key: Option<string>, namespace: string)

  function TypeOf(cb: Callback): string {
    match cb
    case Add(_) => "create"
    case Update(_) => "update"
    case Delete(_, _) => "delete"
  }

  function Overwrite(e: Event, cb: Callback, resourceType: string): Event {
    Event(if cb.key.Some? then cb.key.value else "", TypeOf(cb),
          if cb.Delete? then cb.namespace else e.namespace, resourceType)
  }

  /** The captured record after a history of callbacks. */
  function Record(history: seq<Callback>, resourceType: string): Event {
    if history == [] then NO_EVENT
    else Overwrite(Record(history[..|history| - 1], resourceType), history[|history| - 1], resourceType)
  }

  /** The events handed to the queue over a history. */
  function Enqueued(history: seq<Callback>, resourceType: string): seq<Event> {
    if history == [] then []
    else
      var before := Enqueued(history[..|history| - 1], resourceType);
      if history[|history| - 1].key.Some? then before + [Record(history, resourceType)] else before
  }

  class Callbacks {
    const resourceType: string
    var newEvent: Event
    var queued: seq<Event>
    ghost var history: seq<Callback>

    ghost predicate Valid()
      reads this
    {
      newEvent == Record(history, resourceType) && queued == Enqueued(history, resourceType)
    }

    constructor (resourceType: string)
      ensures Valid() && history == [] && this.resourceType == resourceType
    {
      this.resourceType, newEvent, queued, history := resourceType, NO_EVENT, [], [];
    }

    method Fill(key: Option<string>, eventType: string)
      modifies this`newEvent
      ensures newEvent == Event(if key.Some? then key.value else "", eventType, old(newEvent).namespace, resourceType)
    {
      newEvent := newEvent.(key := if key.Some? then key.value else "");
      newEvent := newEvent.(eventType := eventType);
      newEvent := newEvent.(resourceType := resourceType);
    }

    method On(cb: Callback)
      requires Valid()
      modifies this
      ensures Valid() && history == old(history) + [cb]
    {
      match cb {
        case Add(key) =>
          Fill(key, "create");
        case Update(key) =>
          Fill(key, "update");
        case Delete(key, namespace) =>
          Fill(key, "delete");
          newEvent := newEvent.(namespace := namespace);
      }
      if cb.key.Some? {
        queued := queued + [newEvent];
      }
      history := history + [cb];
      assert history[..|history| - 1] == old(history);
    }
  }

  // ---------- What the record holds ----------

  /** After any history the record's key, type and kind are those of the last callback; its namespace
      is that of the last deletion, whether or not that deletion was queued, and empty if there
      was none. */
  lemma {:induction false} RecordIs(history: seq<Callback>, resourceType: string, k: int)
    requires history != [] && -1 <= k < |history|
    requires k >= 0 ==> history[k].Delete?
    requires forall i | k < i < |history| :: !history[i].Delete?
    ensures var (e, last) := (Record(history, resourceType), history[|history| - 1]);
      && e.eventType == (if last.Add? then "create" else if last.Update? then "update" else "delete")
      && e.resourceType == resourceType && e.key == (if last.key.Some? then last.key.value else "")
      && e.namespace == if k >= 0 then history[k].namespace else ""
  {
    var before := history[..|history| - 1];
    if before != [] && k < |before| {
      RecordIs(before, resourceType, k);
    }
  }

  // ---------- What the handlers see of it ----------

  datatype Call =
    | ObjectCreated(key: string)
    | ObjectUpdated(kind: string, name: string)
    | ObjectDeleted(kind: string, name: string, namespace: string)

  /** The handler call for an event; None also when a created object is older than the server. */
  function HandlerCall(e: Event, createdAfterStart: bool): Option<Call> {
    if e.eventType == "create" then (if createdAfterStart then Some(ObjectCreated(e.key)) else None)
    else if e.eventType == "update" then Some(ObjectUpdated(e.resourceType, e.key))
    else if e.eventType == "delete" then Some(ObjectDeleted(e.resourceType, e.key, e.namespace))
    else None
  }

  /** The calls processItem makes; it fails, and makes none, exactly when the object cannot be fetched. */
  function HandlerCalls(e: Event, fetched: bool, createdAfterStart: bool): seq<Call> {
    if !fetched then []
    else
      match HandlerCall(e, createdAfterStart)
      case Some(call) => [call]
      case None => []
  }

  /** The queue a controller with one fresh record per callback would fill. */
  function Unshared(history: seq<Callback>, resourceType: string): seq<Event> {
    if history == [] then []
    else
      var before := Unshared(history[..|history| - 1], resourceType);
      var last := history[|history| - 1];
      if last.key.Some? then before + [Overwrite(NO_EVENT, last, resourceType)] else before
  }

  /** Entry by entry, before the queue merges equal ones, the handlers are called as if each callback had
      filled a record of its own. */
  lemma {:induction false} SharingIsHarmless(history: seq<Callback>, resourceType: string, i: nat, recent: bool)
    requires i < |Enqueued(history, resourceType)|
    ensures |Unshared(history, resourceType)| == |Enqueued(history, resourceType)|
    ensures HandlerCall(Enqueued(history, resourceType)[i], recent) == HandlerCall(Unshared(history, resourceType)[i], recent)
  {
    var before := history[..|history| - 1];
    if i < |Enqueued(before, resourceType)| {
      SharingIsHarmless(before, resourceType, i, recent);
    } else {
      SameLength(before, resourceType);
    }
  }

  lemma {:induction false} SameLength(history: seq<Callback>, resourceType: string)
    ensures |Unshared(history, resourceType)| == |Enqueued(history, resourceType)|
  {
    if history != [] {
      SameLength(history[..|history| - 1], resourceType);
    }
  }

  /** The callbacks for whose object a key could be derived, in order. */
  function Keyed(history: seq<Callback>): (keyed: seq<Callback>)
    ensures forall cb | cb in keyed :: cb.key.Some?
  {
    if history == [] then []
    else
      var last := history[|history| - 1];
      Keyed(history[..|history| - 1]) + if last.key.Some? then [last] else []
  }

  /** Exactly those are queued, in their order, and processing one calls the handler that belongs to its kind with
      its own key and namespace: none if the object cannot be fetched, nor for an old object that is added. */
  lemma {:induction false} HandlersHear(history: seq<Callback>, resourceType: string, i: nat, fetched: bool, recent: bool)
    ensures |Enqueued(history, resourceType)| == |Keyed(history)|
    ensures i < |Keyed(history)| ==>
      HandlerCalls(Enqueued(history, resourceType)[i], fetched, recent) ==
        if !fetched then []
        else
          match Keyed(history)[i]
          case Add(key) => if recent then [ObjectCreated(key.value)] else []
          case Update(key) => [ObjectUpdated(resourceType, key.value)]
          case Delete(key, namespace) => [ObjectDeleted(resourceType, key.value, namespace)]
  {
    if history != [] {
      HandlersHear(history[..|history| - 1], resourceType, i, fetched, recent);
    }
  }

  // ---------- What the queue can merge ----------

  /** The namespace of the last deletion, queued or not, empty if there was none. */
  function LastNamespace(history: seq<Callback>): string {
    if history == [] then ""
    else
      var last := history[|history| - 1];
      if last.Delete? then last.namespace else LastNamespace(history[..|history| - 1])
  }

  lemma {:induction false} RecordNamespace(history: seq<Callback>, resourceType: string)
    ensures Record(history, resourceType).namespace == LastNamespace(history)
  {
    if history != [] {
      RecordNamespace(history[..|history| - 1], resourceType);
    }
  }

  /** The shared record is the same after two histories if and only if their last callbacks would fill the
      same record of their own and their last deletions were in the same namespace. */
  lemma RecordsEqualExactly(h: seq<Callback>, g: seq<Callback>, resourceType: string)
    requires h != [] && g != []
    ensures Record(h, resourceType) == Record(g, resourceType) <==>
      Overwrite(NO_EVENT, h[|h| - 1], resourceType) == Overwrite(NO_EVENT, g[|g| - 1], resourceType) &&
      LastNamespace(h) == LastNamespace(g)
  {
    RecordNamespace(h, resourceType);
    RecordNamespace(g, resourceType);
  }

  /** How many callbacks it took to enqueue entry i. */
  function CallbacksUntil(history: seq<Callback>, resourceType: string, i: nat): (p: nat)
    requires i < |Enqueued(history, resourceType)|
    ensures 0 < p <= |history|
  {
    var before := history[..|history| - 1];
    if i < |Enqueued(before, resourceType)| then CallbacksUntil(before, resourceType, i) else |history|
  }

  lemma {:induction false} EntryIsRecord(history: seq<Callback>, resourceType: string, i: nat)
    requires i < |Enqueued(history, resourceType)|
    ensures |Unshared(history, resourceType)| == |Enqueued(history, resourceType)|
    ensures var p := CallbacksUntil(history, resourceType, i);
      && Enqueued(history, resourceType)[i] == Record(history[..p], resourceType)
      && Unshared(history, resourceType)[i] == Overwrite(NO_EVENT, history[p - 1], resourceType)
  {
    var before := history[..|history| - 1];
    SameLength(before, resourceType);
    SameLength(history, resourceType);
    if i < |Enqueued(before, resourceType)| {
      EntryIsRecord(before, resourceType, i);
      var p := CallbacksUntil(before, resourceType, i);
      assert before[..p] == history[..p];
    } else {
      assert history[..|history|] == history;
    }
  }

  lemma EntryOfPrefix(history: seq<Callback>, resourceType: string, i: nat)
    requires i < |Enqueued(history, resourceType)|
    ensures |Unshared(history, resourceType)| == |Enqueued(history, resourceType)|
    ensures var h := history[..CallbacksUntil(history, resourceType, i)];
      && Enqueued(history, resourceType)[i] == Record(h, resourceType)
      && Unshared(history, resourceType)[i] == Overwrite(NO_EVENT, h[|h| - 1], resourceType)
  {
    EntryIsRecord(history, resourceType, i);
  }

  /** Two entries that a queue would merge if each callback had its own record stay mergeable if and only if
      the last deletion before each was in the same namespace; sharing never merges any others. */
  lemma MergesExactly(history: seq<Callback>, resourceType: string, i: nat, j: nat)
    requires i < |Enqueued(history, resourceType)| && j < |Enqueued(history, resourceType)|
    ensures |Unshared(history, resourceType)| == |Enqueued(history, resourceType)|
    ensures var (q, u) := (Enqueued(history, resourceType), Unshared(history, resourceType));
      q[i] == q[j] <==>
        u[i] == u[j] &&
        LastNamespace(history[..CallbacksUntil(history, resourceType, i)]) ==
        LastNamespace(history[..CallbacksUntil(history, resourceType, j)])
  {
    EntryOfPrefix(history, resourceType, i);
    EntryOfPrefix(history, resourceType, j);
    var (p, r) := (CallbacksUntil(history, resourceType, i), CallbacksUntil(history, resourceType, j));
    RecordsEqualExactly(history[..p], history[..r], resourceType);
  }

  /** So the same update, repeated after an unrelated deletion, is a different event, and is handled twice
      where it could have been merged. */
  lemma SharingDefeatsDeduplication()
    ensures var q := Enqueued([Update(Some("a")), Delete(Some("b"), "n"), Update(Some("a"))], "pod");
      |q| == 3 && q[0] != q[2] && HandlerCall(q[0], true) == HandlerCall(q[2], true)
    ensures var u := Unshared([Update(Some("a")), Delete(Some("b"), "n"), Update(Some("a"))], "pod");
      |u| == 3 && u[0] == u[2]
  {
    var h := [Update(Some("a")), Delete(Some("b"), "n"), Update(Some("a"))];
    assert h[..2][..1] == h[..1] && h[..1][..0] == [];
    assert Record(h[..1], "pod") == Event("a", "update", "", "pod");
    assert Record(h[..2], "pod") == Event("b", "delete", "n", "pod");
    assert Enqueued(h[..1], "pod") == [Record(h[..1], "pod")];
    assert Enqueued(h[..2], "pod") == [Record(h[..1], "pod"), Record(h[..2], "pod")];
    assert Unshared(h[..1], "pod") == [Record(h[..1], "pod")];
    assert |Unshared(h[..2], "pod")| == 2;
  }
}
