/** The work queue with bounded retries. The queue is client-go's rate limiting queue, stated as a
    contract on its sets; the worker is the controller's. */
module RetryProtocol {
  import opened ResourceEvents

  const MAX_RETRIES := 5

  /** `queue` holds what a worker may take, `dirty` what needs processing, `processing` what workers
      have, `waiting` what is delayed by the rate limiter and `failures` its counters. */
  datatype Queue = Queue(
    queue: seq<Event>, dirty: set<Event>, processing: set<Event>,
    waiting: multiset<Event>, failures: multiset<Event>, shuttingDown: bool)

  const EMPTY_QUEUE := Queue([], {}, {}, multiset{}, multiset{}, false)

  function Insert(q: Queue, e: Event): Queue {
    if q.shuttingDown || e in q.dirty then q
    else q.(dirty := q.dirty + {e}, queue := if e in q.processing then q.queue else q.queue + [e])
  }

  function Get(q: Queue): (Queue, Event)
    requires q.queue != []
  {
    var e := q.queue[0];
    (q.(queue := q.queue[1..], dirty := q.dirty - {e}, processing := q.processing + {e}), e)
  }

  function AddRateLimited(q: Queue, e: Event): Queue {
    q.(failures := q.failures[e := q.failures[e] + 1], waiting := if q.shuttingDown then q.waiting else q.waiting + multiset{e})
  }

  function Forget(q: Queue, e: Event): Queue {
    q.(failures := q.failures[e := 0])
  }

  function Done(q: Queue, e: Event): Queue {
    q.(processing := q.processing - {e}, queue := if e in q.dirty then q.queue + [e] else q.queue)
  }

  predicate Retries(q: Queue, e: Event, ok: bool) {
    !ok && q.failures[e] < MAX_RETRIES
  }

  /** What follows the processing of an item. */
  function Finish(q: Queue, e: Event, ok: bool): Queue {
    Done(if Retries(q, e, ok) then AddRateLimited(q, e) else Forget(q, e), e)
  }

  /** The queue lists, once each, the dirty items no worker has; no counter exceeds the limit. */
  ghost predicate Valid(q: Queue) {
    && (forall i, j | 0 <= i < j < |q.queue| :: q.queue[i] != q.queue[j])
    && (forall e :: e in q.queue <==> e in q.dirty && e !in q.processing)
    && (forall e :: q.failures[e] <= 5)
  }

  lemma GetIsValid(q: Queue)
    requires Valid(q) && q.queue != []
    ensures Valid(Get(q).0) && q.queue[0] in q.dirty && q.queue[0] !in q.processing
  {
    var (r, e) := Get(q);
    forall x ensures x in r.queue <==> x in r.dirty && x !in r.processing {
      assert x in q.queue <==> x == e || x in r.queue;
    }
  }

  lemma FinishIsValid(q: Queue, e: Event, ok: bool)
    requires Valid(q) && e in q.processing
    ensures Valid(Finish(q, e, ok))
  {
    assert e !in q.queue;
  }

  /** After shutdown a round of a worker takes the first item off the queue for good. */
  lemma ShutdownRound(q: Queue, ok: bool)
    requires Valid(q) && q.shuttingDown && q.queue != []
    ensures var (r, e) := Get(q);
      var f := Finish(r, e, ok);
      Valid(f) && f.shuttingDown && f.processing == q.processing && f.queue == q.queue[1..]
  {
    GetIsValid(q);
    FinishIsValid(Get(q).0, Get(q).1, ok);
  }

  // ---------- Runs: any number of workers, events arriving at any time ----------

  /** The queue with its bookkeeping: events enqueued, items started, retries refused because of a
      shutdown. */
  datatype Tally = Tally(q: Queue, enqueued: nat, started: nat, refused: multiset<Event>)

  const START := Tally(EMPTY_QUEUE, 0, 0, multiset{})

  datatype Step =
    | Enqueue(e: Event)          // a callback adds an event
    | Deliver(e: Event)          // a delay expires
    | Merge(e: Event)            // two delays of one item become one
    | Begin                      // a worker takes an item and starts processing it
    | End(e: Event, ok: bool)    // it is done
    | ShutDown

  predicate Can(q: Queue, step: Step) {
    match step
    case Enqueue(_) => true
    case Deliver(e) => e in q.waiting && !q.shuttingDown
    case Merge(e) => q.waiting[e] >= 2
    case Begin => q.queue != []
    case End(e, _) => e in q.processing
    case ShutDown => true
  }

  function Do(q: Queue, step: Step): Queue
    requires Can(q, step)
  {
    match step
    case Enqueue(e) => Insert(q, e)
    case Deliver(e) => Insert(q.(waiting := q.waiting - multiset{e}), e)
    case Merge(e) => q.(waiting := q.waiting - multiset{e})
    case Begin => Get(q).0
    case End(e, ok) => Finish(q, e, ok)
    case ShutDown => q.(shuttingDown := true)
  }

  predicate Enabled(t: Tally, step: Step) {
    Can(t.q, step)
  }

  function Apply(t: Tally, step: Step): Tally
    requires Enabled(t, step)
  {
    Tally(
      Do(t.q, step),
      if step.Enqueue? then t.enqueued + 1 else t.enqueued,
      if step.Begin? then t.started + 1 else t.started,
      if step.End? && Retries(t.q, step.e, step.ok) && t.q.shuttingDown then t.refused + multiset{step.e} else t.refused)
  }

  ghost predicate IsRun(t: Tally, steps: seq<Step>)
    decreases |steps|
  {
    steps == [] || (Enabled(t, steps[0]) && IsRun(Apply(t, steps[0]), steps[1..]))
  }

  ghost function Final(t: Tally, steps: seq<Step>): Tally
    requires IsRun(t, steps)
    decreases |steps|
  {
    if steps == [] then t else Final(Apply(t, steps[0]), steps[1..])
  }

  /** Every place an item can be. */
  ghost function Places(t: Tally): multiset<Event> {
    multiset(t.q.dirty) + multiset(t.q.processing) + t.q.waiting + t.refused
  }

  /** Six starts for each pending occurrence, five for one being processed, less the failures used up. */
  ghost function Potential(t: Tally): int {
    (MAX_RETRIES + 1) * (|t.q.dirty| + |t.q.waiting| + |t.refused|) + MAX_RETRIES * |t.q.processing| - |t.q.failures|
  }

  ghost predicate Accounted(t: Tally) {
    && Valid(t.q)
    && (forall e | e in t.q.failures :: e in Places(t))
    && (!t.q.shuttingDown ==> t.refused == multiset{})
  }

  lemma InsertIsValid(q: Queue, e: Event)
    requires Valid(q)
    ensures Valid(Insert(q, e))
    ensures Insert(q, e).processing == q.processing && Insert(q, e).waiting == q.waiting && Insert(q, e).failures == q.failures
    ensures Insert(q, e).dirty == if q.shuttingDown then q.dirty else q.dirty + {e}
  {
    var r := Insert(q, e);
    forall x ensures x in r.queue <==> x in r.dirty && x !in r.processing {
    }
  }

  lemma DeliverKeepsAccounted(t: Tally, e: Event)
    requires Accounted(t) && Enabled(t, Deliver(e))
    ensures Accounted(Apply(t, Deliver(e)))
  {
    var r := t.q.(waiting := t.q.waiting - multiset{e});
    var u := Apply(t, Deliver(e));
    InsertIsValid(r, e);
    forall x | x in u.q.failures
      ensures x in Places(u)
    {
      assert x in Places(t) && (x == e || r.waiting[x] == t.q.waiting[x]);
    }
  }

  lemma EndKeepsAccounted(t: Tally, e: Event, ok: bool)
    requires Accounted(t) && Enabled(t, End(e, ok))
    ensures Accounted(Apply(t, End(e, ok)))
  {
    var u := Apply(t, End(e, ok));
    FinishIsValid(t.q, e, ok);
    forall x | x in u.q.failures
      ensures x in Places(u)
    {
      if x != e {
        assert x in t.q.failures && x in Places(t);
        assert t.q.waiting[x] <= u.q.waiting[x] && t.refused[x] <= u.refused[x];
      }
    }
  }

  lemma BeginKeepsAccounted(t: Tally)
    requires Accounted(t) && Enabled(t, Begin)
    ensures Accounted(Apply(t, Begin))
  {
    var u := Apply(t, Begin);
    GetIsValid(t.q);
    forall x | x in u.q.failures
      ensures x in Places(u)
    {
      assert x in Places(t);
    }
  }

  lemma StepKeepsAccounted(t: Tally, step: Step)
    requires Accounted(t) && Enabled(t, step)
    ensures Accounted(Apply(t, step))
  {
    match step {
      case Enqueue(e) =>
        InsertIsValid(t.q, e);
        assert forall x | x in t.q.failures :: x in Places(t);
      case Deliver(e) => DeliverKeepsAccounted(t, e);
      case Merge(e) =>
        forall x | x in t.q.failures
          ensures x in Places(Apply(t, step))
        {
          assert x in Places(t);
        }
      case Begin => BeginKeepsAccounted(t);
      case End(e, ok) => EndKeepsAccounted(t, e, ok);
      case ShutDown => assert Places(Apply(t, step)) == Places(t);
    }
  }

  lemma InsertAddsOne(q: Queue, e: Event)
    ensures |Insert(q, e).dirty| <= |q.dirty| + 1
    ensures Insert(q, e) == q.(queue := Insert(q, e).queue, dirty := Insert(q, e).dirty)
  {
  }

  lemma EndPays(t: Tally, e: Event, ok: bool)
    requires Accounted(t) && Enabled(t, End(e, ok))
    ensures Potential(Apply(t, End(e, ok))) <= Potential(t)
  {
    assert |t.q.processing - {e}| == |t.q.processing| - 1;
    var u := Apply(t, End(e, ok));
    assert u.q.dirty == t.q.dirty;
    if Retries(t.q, e, ok) {
      assert |u.q.failures| == |t.q.failures| + 1;
      assert |u.q.waiting| + |u.refused| == |t.q.waiting| + |t.refused| + 1;
    } else {
      assert |u.q.failures| == |t.q.failures| - t.q.failures[e];
    }
  }

  /** Starting an item costs one unit of potential; nothing but a new event ever adds any, and a new
      event adds at most six. */
  lemma PotentialPays(t: Tally, step: Step)
    requires Accounted(t) && Enabled(t, step)
    ensures var (before, after) := (Potential(t), Potential(Apply(t, step)));
      match step
      case Begin => after == before - 1
      case Enqueue(_) => after <= before + 6
      case _ => after <= before
  {
    match step {
      case Enqueue(e) => InsertAddsOne(t.q, e);
      case Deliver(e) => InsertAddsOne(t.q.(waiting := t.q.waiting - multiset{e}), e);
      case Begin => GetIsValid(t.q);
      case End(e, ok) => EndPays(t, e, ok);
      case _ =>
    }
  }

  /** Counters of at most five per item that is somewhere weigh at most five per place. */
  lemma {:induction false} CountersAreCovered(failures: multiset<Event>, places: multiset<Event>)
    requires forall e :: failures[e] <= MAX_RETRIES
    requires forall e | e in failures :: e in places
    ensures |failures| <= MAX_RETRIES * |places|
    decreases |failures|
  {
    if failures != multiset{} {
      var e := SomeFailure(failures);
      CountersAreCovered(failures[e := 0], places - multiset{e});
    }
  }

  lemma SomeFailure<T>(m: multiset<T>) returns (e: T)
    requires m != multiset{}
    ensures e in m
  {
    e :| e in m;
  }

  lemma PotentialIsNatural(t: Tally)
    requires Accounted(t)
    ensures Potential(t) >= 0
  {
    CountersAreCovered(t.q.failures, Places(t));
  }

  lemma {:induction false} RunKeepsBudget(t: Tally, steps: seq<Step>)
    requires IsRun(t, steps) && Accounted(t)
    requires t.started + Potential(t) <= (MAX_RETRIES + 1) * t.enqueued
    ensures var u := Final(t, steps); Accounted(u) && u.started + Potential(u) <= (MAX_RETRIES + 1) * u.enqueued
    decreases |steps|
  {
    if steps != [] {
      StepKeepsAccounted(t, steps[0]);
      PotentialPays(t, steps[0]);
      RunKeepsBudget(Apply(t, steps[0]), steps[1..]);
    }
  }

  /** In every run, with any number of workers, events arriving and delays expiring at any time, even if
      the same event is pending more than once and shares one failure counter: processItem is
      called at most six times per enqueued event. */
  lemma RetryBound(steps: seq<Step>)
    requires IsRun(START, steps)
    ensures Final(START, steps).started <= 6 * Final(START, steps).enqueued
  {
    RunKeepsBudget(START, steps);
    PotentialIsNatural(Final(START, steps));
  }

  // ---------- Termination ----------

  /** What is left to do, in steps other than new events: starting, ending, delivering and merging. */
  ghost function Measure(t: Tally): int {
    3 * Potential(t) + 2 * |t.q.processing| + |t.q.waiting|
  }

  predicate IsWork(step: Step) {
    !step.Enqueue? && !step.ShutDown?
  }

  ghost function Work(steps: seq<Step>): nat {
    if steps == [] then 0 else (if IsWork(steps[0]) then 1 else 0) + Work(steps[1..])
  }

  ghost function Arrivals(steps: seq<Step>): nat {
    if steps == [] then 0 else (if steps[0].Enqueue? then 1 else 0) + Arrivals(steps[1..])
  }

  lemma DeliverMeasure(t: Tally, e: Event)
    requires Accounted(t) && Enabled(t, Deliver(e))
    ensures Measure(Apply(t, Deliver(e))) < Measure(t)
  {
    InsertAddsOne(t.q.(waiting := t.q.waiting - multiset{e}), e);
    PotentialPays(t, Deliver(e));
  }

  lemma EndMeasure(t: Tally, e: Event, ok: bool)
    requires Accounted(t) && Enabled(t, End(e, ok))
    ensures Measure(Apply(t, End(e, ok))) < Measure(t)
  {
    EndPays(t, e, ok);
    assert |t.q.processing - {e}| == |t.q.processing| - 1;
    assert |t.q.waiting + multiset{e}| == |t.q.waiting| + 1;
  }

  /** Every step of work decreases the measure, a new event adds at most eighteen to it, and a shutdown
      nothing. */
  lemma MeasureDecreases(t: Tally, step: Step)
    requires Accounted(t) && Enabled(t, step)
    ensures var (before, after) := (Measure(t), Measure(Apply(t, step)));
      if IsWork(step) then after < before else after <= before + (if step.Enqueue? then 18 else 0)
  {
    match step {
      case Enqueue(e) =>
        PotentialPays(t, step);
        InsertAddsOne(t.q, e);
      case Deliver(e) => DeliverMeasure(t, e);
      case Merge(e) => PotentialPays(t, step);
      case Begin =>
        PotentialPays(t, step);
        GetIsValid(t.q);
      case End(e, ok) => EndMeasure(t, e, ok);
      case ShutDown =>
    }
  }

  lemma {:induction false} WorkIsPaid(t: Tally, steps: seq<Step>)
    requires IsRun(t, steps) && Accounted(t)
    ensures Work(steps) + Measure(Final(t, steps)) <= Measure(t) + 18 * Arrivals(steps)
    ensures Accounted(Final(t, steps))
    decreases |steps|
  {
    if steps != [] {
      StepKeepsAccounted(t, steps[0]);
      MeasureDecreases(t, steps[0]);
      WorkIsPaid(Apply(t, steps[0]), steps[1..]);
    }
  }

  /** Termination, for all runs with any number of workers: a run with n new events has at most 18 * n other
      steps besides shutdowns, so without new events the workers come to rest. */
  lemma WorkIsBounded(steps: seq<Step>)
    requires IsRun(START, steps)
    ensures Work(steps) <= 18 * Arrivals(steps)
  {
    WorkIsPaid(START, steps);
    PotentialIsNatural(Final(START, steps));
  }

  ghost predicate AtRest(t: Tally) {
    forall step | IsWork(step) :: !Enabled(t, step)
  }

  lemma RestOfAccounted(t: Tally)
    requires Accounted(t) && AtRest(t)
    ensures t.q.queue == [] && t.q.dirty == {} && t.q.processing == {}
    ensures !t.q.shuttingDown ==> t.q.waiting == multiset{} && t.q.failures == multiset{}
  {
    assert !Enabled(t, Begin);
    forall e ensures e !in t.q.processing && e !in t.q.dirty {
      assert !Enabled(t, End(e, true));
    }
    if !t.q.shuttingDown {
      forall e ensures e !in t.q.waiting && e !in t.q.failures {
        assert !Enabled(t, Deliver(e));
        assert t.q.waiting[e] == 0;
        assert e in t.q.failures ==> e in Places(t);
      }
    }
  }

  /** Where a run comes to rest nothing is left to process, and before a shutdown nothing is delayed and all
      failure counters are back at zero. */
  lemma RestIsClean(steps: seq<Step>)
    requires IsRun(START, steps) && AtRest(Final(START, steps))
    ensures var q := Final(START, steps).q;
      && q.queue == [] && q.dirty == {} && q.processing == {}
      && (!q.shuttingDown ==> q.waiting == multiset{} && q.failures == multiset{})
  {
    WorkIsPaid(START, steps);
    RestOfAccounted(Final(START, steps));
  }

  /** The items workers take along the way, in order. */
  ghost function Begun(t: Tally, steps: seq<Step>): seq<Event>
    requires IsRun(t, steps)
    decreases |steps|
  {
    if steps == [] then []
    else (if steps[0].Begin? then [t.q.queue[0]] else []) + Begun(Apply(t, steps[0]), steps[1..])
  }

  lemma QueueIsServedFromTheFront(t: Tally, step: Step)
    requires Enabled(t, step)
    ensures if step.Begin? then Apply(t, step).q.queue == t.q.queue[1..] else t.q.queue <= Apply(t, step).q.queue
  {
  }

  /** First come, first served: whatever else happens, the items listed now are the next to be taken, in the order
      in which they are listed. */
  lemma {:induction false} ServedInTurn(t: Tally, steps: seq<Step>, i: nat)
    requires IsRun(t, steps) && i < |t.q.queue| && i < |Begun(t, steps)|
    ensures Begun(t, steps)[i] == t.q.queue[i]
    decreases |steps|
  {
    var u := Apply(t, steps[0]);
    QueueIsServedFromTheFront(t, steps[0]);
    if !steps[0].Begin? {
      assert u.q.queue[i] == t.q.queue[i];
      ServedInTurn(u, steps[1..], i);
    } else if i > 0 {
      ServedInTurn(u, steps[1..], i - 1);
    }
  }

  lemma DirtyUntilTaken(t: Tally, step: Step, e: Event)
    requires Enabled(t, step) && e in t.q.dirty
    ensures e in Apply(t, step).q.dirty || (step.Begin? && t.q.queue[0] == e)
  {
  }

  lemma {:induction false} DirtyIsTaken(t: Tally, steps: seq<Step>, e: Event)
    requires IsRun(t, steps) && e in t.q.dirty && e !in Final(t, steps).q.dirty
    ensures e in Begun(t, steps)
    decreases |steps|
  {
    DirtyUntilTaken(t, steps[0], e);
    if e in Apply(t, steps[0]).q.dirty {
      DirtyIsTaken(Apply(t, steps[0]), steps[1..], e);
    }
  }

  /** Nothing is lost: an event enqueued before a shutdown, at whatever point of whatever run, is taken by some
      worker afterwards if the run comes to rest, a shutdown in between included. */
  lemma EnqueuedIsProcessed(before: seq<Step>, e: Event, after: seq<Step>)
    requires IsRun(START, before) && !Final(START, before).q.shuttingDown
    requires IsRun(Apply(Final(START, before), Enqueue(e)), after)
    requires AtRest(Final(Apply(Final(START, before), Enqueue(e)), after))
    ensures e in Begun(Apply(Final(START, before), Enqueue(e)), after)
  {
    WorkIsPaid(START, before);
    var t := Apply(Final(START, before), Enqueue(e));
    StepKeepsAccounted(Final(START, before), Enqueue(e));
    WorkIsPaid(t, after);
    RestOfAccounted(Final(t, after));
    DirtyIsTaken(t, after, e);
  }

  // ---------- Failures ----------

  /** A success and a sixth failure in a row clear the counter and are the end of it; an earlier failure counts and
      is delayed, unless the queue is shut down. No other counter and no other item is affected. */
  lemma FinishOutcomes(q: Queue, e: Event, ok: bool)
    requires Valid(q) && e in q.processing
    ensures var r := Finish(q, e, ok);
      && r.processing == q.processing - {e} && r.dirty == q.dirty && r.shuttingDown == q.shuttingDown
      && r.queue == q.queue + (if e in q.dirty then [e] else [])
      && (forall x | x != e :: r.failures[x] == q.failures[x])
      && if ok || q.failures[e] == 5 then r.failures[e] == 0 && r.waiting == q.waiting
         else r.failures[e] == q.failures[e] + 1 &&
              r.waiting == if q.shuttingDown then q.waiting else q.waiting + multiset{e}
  {
  }

  /** How often `e` has failed in a row, from n times on: a success, or giving up at the sixth failure, starts anew. */
  ghost function Streak(steps: seq<Step>, e: Event, n: nat): nat
    decreases |steps|
  {
    if steps == [] then n
    else
      var step := steps[0];
      Streak(steps[1..], e, if step.End? && step.e == e then (if !step.ok && n < 5 then n + 1 else 0) else n)
  }

  /** The counter of an item is the number of its failures in a row, whatever happens to other items and however
      often it is enqueued meanwhile. */
  lemma {:induction false} CounterIsStreak(t: Tally, steps: seq<Step>, e: Event)
    requires IsRun(t, steps) && Accounted(t)
    ensures Final(t, steps).q.failures[e] == Streak(steps, e, t.q.failures[e])
    decreases |steps|
  {
    if steps != [] {
      var step := steps[0];
      if step.End? {
        FinishOutcomes(t.q, step.e, step.ok);
      }
      StepKeepsAccounted(t, step);
      CounterIsStreak(Apply(t, step), steps[1..], e);
    }
  }

  lemma {:induction false} ShutdownStays(t: Tally, steps: seq<Step>)
    requires IsRun(t, steps) && t.q.shuttingDown
    ensures Final(t, steps).q.shuttingDown
    decreases |steps|
  {
    if steps != [] {
      ShutdownStays(Apply(t, steps[0]), steps[1..]);
    }
  }

  /** The item is due: listed, needed again while it is being processed, or delayed. */
  predicate Due(q: Queue, e: Event) {
    e in q.dirty || e in q.waiting
  }

  lemma DueUntilTaken(t: Tally, step: Step, e: Event)
    requires Enabled(t, step) && Due(t.q, e) && !t.q.shuttingDown
    ensures Due(Apply(t, step).q, e) || (step.Begin? && t.q.queue[0] == e)
  {
  }

  lemma {:induction false} DueIsTaken(t: Tally, steps: seq<Step>, e: Event)
    requires IsRun(t, steps) && Due(t.q, e) && !Due(Final(t, steps).q, e) && !Final(t, steps).q.shuttingDown
    ensures e in Begun(t, steps)
    decreases |steps|
  {
    if t.q.shuttingDown {
      ShutdownStays(t, steps);
    } else {
      DueUntilTaken(t, steps[0], e);
      if Due(Apply(t, steps[0]).q, e) {
        DueIsTaken(Apply(t, steps[0]), steps[1..], e);
      }
    }
  }

  /** Up to its fifth failure in a row, an item that fails, at whatever point of whatever run, is taken again if the run
      then comes to rest without a shutdown. */
  lemma FailedIsRetried(before: seq<Step>, e: Event, after: seq<Step>)
    requires IsRun(START, before) && Enabled(Final(START, before), End(e, false)) && Streak(before, e, 0) < 5
    requires IsRun(Apply(Final(START, before), End(e, false)), after)
    requires var u := Final(Apply(Final(START, before), End(e, false)), after); AtRest(u) && !u.q.shuttingDown
    ensures e in Begun(Apply(Final(START, before), End(e, false)), after)
  {
    var s := Final(START, before);
    var t := Apply(s, End(e, false));
    WorkIsPaid(START, before);
    CounterIsStreak(START, before, e);
    FinishOutcomes(s.q, e, false);
    StepKeepsAccounted(s, End(e, false));
    if t.q.shuttingDown {
      ShutdownStays(t, after);
    }
    WorkIsPaid(t, after);
    RestOfAccounted(Final(t, after));
    DueIsTaken(t, after, e);
  }

  /** An event that is alone in the queue with `n` failures on its counter. */
  ghost predicate OnlyPending(t: Tally, e: Event, n: nat) {
    t.q == EMPTY_QUEUE.(queue := [e], dirty := {e}, failures := multiset{}[e := n])
  }

  lemma {:induction false} KeepsFailing(t: Tally, e: Event, n: nat) returns (steps: seq<Step>)
    requires n <= MAX_RETRIES && OnlyPending(t, e, n)
    ensures IsRun(t, steps)
    ensures var u := Final(t, steps);
      u.q == EMPTY_QUEUE && u.enqueued == t.enqueued && u.started == t.started + (MAX_RETRIES + 1 - n)
    decreases MAX_RETRIES - n
  {
    var begun := Apply(t, Begin);
    assert begun.q.queue == [] && begun.q.dirty == {} && begun.q.processing == {e};
    var ended := Apply(begun, End(e, false));
    assert ended.q.processing == {};
    if n == MAX_RETRIES {
      steps := [Begin, End(e, false)];
      assert ended.q.failures == multiset{};
      assert steps[1..][1..] == [];
      assert IsRun(begun, steps[1..]) && Final(begun, steps[1..]) == ended;
    } else {
      assert ended.q.waiting == multiset{e};
      var delivered := Apply(ended, Deliver(e));
      assert delivered.q.waiting == multiset{} && delivered.q.queue == [e];
      assert delivered.q.failures == multiset{}[e := n + 1];
      var rest := KeepsFailing(delivered, e, n + 1);
      steps := [Begin, End(e, false), Deliver(e)] + rest;
      assert steps[1..][1..][1..] == rest;
      assert IsRun(ended, steps[1..][1..]) && Final(ended, steps[1..][1..]) == Final(delivered, rest);
      assert IsRun(begun, steps[1..]) && Final(begun, steps[1..]) == Final(delivered, rest);
    }
  }

  /** The bound is reached: one event that always fails is processed exactly six times and then
      forgotten, leaving nothing behind. */
  lemma RetryBoundIsTight(e: Event) returns (steps: seq<Step>)
    ensures IsRun(START, steps)
    ensures var u := Final(START, steps); u.enqueued == 1 && u.started == 6 && u.q == EMPTY_QUEUE
  {
    var added := Apply(START, Enqueue(e));
    assert added.q.failures == multiset{}[e := 0];
    var rest := KeepsFailing(added, e, 0);
    steps := [Enqueue(e)] + rest;
    assert steps[1..] == rest;
  }

  // ---------- The worker ----------

  /** What the rest of the program does meanwhile: these steps, as far as each can be taken when its turn comes. An
      item in `held` is ended by nobody else. */
  function Interfere(q: Queue, steps: seq<Step>, held: set<Event>): Queue
    decreases |steps|
  {
    if steps == [] then q else Interfere(Meddle(q, steps[0], held), steps[1..], held)
  }

  predicate Meddles(q: Queue, step: Step, held: set<Event>) {
    Can(q, step) && (step.End? ==> step.e !in held)
  }

  function Meddle(q: Queue, step: Step, held: set<Event>): Queue {
    if Meddles(q, step, held) then Do(q, step) else q
  }

  ghost function Taken(q: Queue, steps: seq<Step>, held: set<Event>): seq<Step>
    decreases |steps|
  {
    if steps == [] then []
    else (if Meddles(q, steps[0], held) then [steps[0]] else []) + Taken(Meddle(q, steps[0], held), steps[1..], held)
  }

  lemma {:induction false} RunConcat(t: Tally, a: seq<Step>, b: seq<Step>)
    requires IsRun(t, a) && IsRun(Final(t, a), b)
    ensures IsRun(t, a + b) && Final(t, a + b) == Final(Final(t, a), b)
    decreases |a|
  {
    if a == [] {
      assert a + b == b;
    } else {
      var u := Apply(t, a[0]);
      assert (a + b)[0] == a[0] && (a + b)[1..] == a[1..] + b;
      assert Final(t, a) == Final(u, a[1..]);
      RunConcat(u, a[1..], b);
    }
  }

  lemma {:induction false} InterferenceIsRun(t: Tally, steps: seq<Step>, held: set<Event>)
    requires held <= t.q.processing
    ensures IsRun(t, Taken(t.q, steps, held))
    ensures var u := Final(t, Taken(t.q, steps, held));
      u.q == Interfere(t.q, steps, held) && held <= u.q.processing && u.started >= t.started
    decreases |steps|
  {
    if steps != [] {
      var (step, rest) := (steps[0], steps[1..]);
      if Meddles(t.q, step, held) {
        var u := Apply(t, step);
        InterferenceIsRun(u, rest, held);
        assert ([step] + Taken(u.q, rest, held))[1..] == Taken(u.q, rest, held);
      } else {
        InterferenceIsRun(t, rest, held);
        assert Taken(t.q, steps, held) == Taken(t.q, rest, held);
      }
    }
  }

  /** And everything the others can do is such an interference. */
  lemma {:induction false} RunIsInterference(t: Tally, steps: seq<Step>, held: set<Event>)
    requires IsRun(t, steps) && forall i | 0 <= i < |steps| && steps[i].End? :: steps[i].e !in held
    ensures Interfere(t.q, steps, held) == Final(t, steps).q
    decreases |steps|
  {
    if steps != [] {
      RunIsInterference(Apply(t, steps[0]), steps[1..], held);
    }
  }

  /** `trace` is a run from `start` to the queue `q` in which at least `n` items are started. */
  ghost predicate Leads(start: Tally, trace: seq<Step>, q: Queue, n: nat) {
    IsRun(start, trace) && Final(start, trace).q == q && start.started + n <= Final(start, trace).started
  }

  /** Extends the run by an interference. */
  lemma Interfered(start: Tally, trace: seq<Step>, q: Queue, n: nat, steps: seq<Step>, held: set<Event>) returns (longer: seq<Step>)
    requires Leads(start, trace, q, n) && held <= q.processing
    ensures Leads(start, longer, Interfere(q, steps, held), n) && held <= Interfere(q, steps, held).processing
  {
    InterferenceIsRun(Final(start, trace), steps, held);
    RunConcat(start, trace, Taken(q, steps, held));
    longer := trace + Taken(q, steps, held);
  }

  lemma Stepped(start: Tally, trace: seq<Step>, q: Queue, n: nat, step: Step) returns (longer: seq<Step>)
    requires Leads(start, trace, q, n) && Can(q, step)
    ensures Leads(start, longer, Do(q, step), if step.Begin? then n + 1 else n)
  {
    var t := Final(start, trace);
    assert IsRun(Apply(t, step), []) && [step][1..] == [];
    assert IsRun(t, [step]) && Final(t, [step]) == Apply(t, step);
    RunConcat(start, trace, [step]);
    longer := trace + [step];
  }

  /** What a round of the worker makes of the queue. */
  function RoundOf(q: Queue, during: seq<Step>, ok: bool): Queue
    requires q.queue != []
  {
    var (r, e) := Get(q);
    Finish(Interfere(r, during, {e}), e, ok)
  }

  /** Extends the run by a round of the worker. */
  lemma Rounded(start: Tally, trace: seq<Step>, q: Queue, n: nat, during: seq<Step>, ok: bool) returns (longer: seq<Step>)
    requires Leads(start, trace, q, n) && q.queue != []
    ensures Leads(start, longer, RoundOf(q, during, ok), n + 1)
  {
    var (r, e) := Get(q);
    longer := Stepped(start, trace, q, n, Begin);
    longer := Interfered(start, longer, r, n + 1, during, {e});
    longer := Stepped(start, longer, Interfere(r, during, {e}), n + 1, End(e, ok));
  }

  lemma {:induction false} EnqueuedAreArrivals(t: Tally, steps: seq<Step>)
    requires IsRun(t, steps)
    ensures Final(t, steps).enqueued == t.enqueued + Arrivals(steps)
    decreases |steps|
  {
    if steps != [] {
      EnqueuedAreArrivals(Apply(t, steps[0]), steps[1..]);
    }
  }

  lemma BoundFromStart(steps: seq<Step>)
    requires IsRun(START, steps)
    ensures Final(START, steps).started <= 6 * Arrivals(steps)
  {
    RetryBound(steps);
    EnqueuedAreArrivals(START, steps);
  }

  /** One round as the worker meets it: what happens before it and during it, and how its item fares. */
  datatype Round = Round(before: seq<Step>, during: seq<Step>, fetched: bool, recent: bool)

  ghost predicate Quiet(rounds: seq<Round>) {
    forall i | 0 <= i < |rounds| :: rounds[i].before == [] && rounds[i].during == []
  }

  /** The first n items of a shut down queue have been processed and are gone for good. */
  ghost predicate Drained(q: Queue, r: Queue, n: nat, was: seq<Event>, processed: seq<Event>) {
    && Valid(r) && r.shuttingDown && r.processing == q.processing
    && n <= |q.queue| && r.queue == q.queue[n..] && processed == was + q.queue[..n]
  }

  lemma DrainedRound(q: Queue, r: Queue, n: nat, was: seq<Event>, processed: seq<Event>, ok: bool)
    requires Drained(q, r, n, was, processed) && r.queue != []
    ensures Drained(q, RoundOf(r, [], ok), n + 1, was, processed + [r.queue[0]])
  {
    ShutdownRound(r, ok);
    assert q.queue[..n + 1] == q.queue[..n] + [q.queue[n]];
    assert q.queue[n..][1..] == q.queue[n + 1..];
  }

  lemma DrainedEnd(q: Queue, r: Queue, n: nat, was: seq<Event>, processed: seq<Event>)
    requires Drained(q, r, n, was, processed) && r.queue == []
    ensures processed == was + q.queue && r.dirty <= r.processing
  {
    assert q.queue[..n] == q.queue;
    assert forall e | e in r.dirty :: e !in r.queue;
  }

  class Controller {
    var queue: Queue
    var processed: seq<Event>  // the items processItem was called with
    var calls: seq<Call>       // the calls it made to the event handler

    constructor ()
      ensures queue == EMPTY_QUEUE && processed == [] && calls == []
    {
      queue, processed, calls := EMPTY_QUEUE, [], [];
    }

    method ProcessItem(newEvent: Event, fetched: bool, recent: bool) returns (ok: bool)
      modifies this`processed, this`calls
      ensures ok == fetched
      ensures processed == old(processed) + [newEvent]
      ensures calls == old(calls) + HandlerCalls(newEvent, fetched, recent)
    {
      processed := processed + [newEvent];
      if !fetched {
        return false;
      }
      match newEvent.eventType {
        case "create" =>
          if recent {
            calls := calls + [ObjectCreated(newEvent.key)];
            return true;
          }
        case "update" =>
          calls := calls + [ObjectUpdated(newEvent.resourceType, newEvent.key)];
          return true;
        case "delete" =>
          calls := calls + [ObjectDeleted(newEvent.resourceType, newEvent.key, newEvent.namespace)];
          return true;
        case _ =>
      }
      return true;
    }

    /** One round of the worker. Taking an item blocks until there is one or the queue shuts down; while the item
        is processed the rest of the program goes on. */
    method ProcessNextItem(during: seq<Step>, fetched: bool, recent: bool) returns (more: bool)
      requires queue.queue != [] || queue.shuttingDown
      modifies this
      ensures more == (old(queue).queue != [])
      ensures more ==> var (q, e) := Get(old(queue));
        && queue == Finish(Interfere(q, during, {e}), e, fetched)
        && processed == old(processed) + [e]
        && calls == old(calls) + HandlerCalls(e, fetched, recent)
      ensures !more ==> queue == old(queue) && processed == old(processed) && calls == old(calls)
    {
      if queue.queue == [] {
        return false;
      }
      var (q, newEvent) := Get(queue);
      queue := q;
      var ok := ProcessItem(newEvent, fetched, recent);
      queue := Interfere(queue, during, {newEvent});
      if ok {
        queue := Forget(queue, newEvent);
      } else if queue.failures[newEvent] < MAX_RETRIES {
        queue := AddRateLimited(queue, newEvent);
      } else {
        queue := Forget(queue, newEvent);
      }
      queue := Done(queue, newEvent);
      return true;
    }

    /** The worker's loop, with the rest of the program free to act before and during each round: callbacks, delays,
        other workers and shutdown. A round in which there is nothing to take leaves the worker blocked. What
        happens to the queue is a run; the worker ends only when the queue is empty and shut down; and if the
        queue is shut down at the start and nobody interferes, it processes what is listed, once each and in
        order, and ends, even if everything fails. */
    method RunWorker(rounds: seq<Round>) returns (quit: bool, ghost trace: seq<Step>)
      modifies this
      ensures |old(processed)| <= |processed|
      ensures Leads(Tally(old(queue), 0, 0, multiset{}), trace, queue, |processed| - |old(processed)|)
      ensures quit ==> queue.queue == [] && queue.shuttingDown
      ensures old(queue) == EMPTY_QUEUE ==> |processed| <= |old(processed)| + 6 * Arrivals(trace)
      ensures Valid(old(queue)) && old(queue).shuttingDown && Quiet(rounds) && |rounds| > |old(queue).queue| ==>
        && quit && processed == old(processed) + old(queue).queue
        && Valid(queue) && queue.processing == old(queue).processing && queue.dirty <= queue.processing
    {
      quit, trace := false, [];
      ghost var start := Tally(queue, 0, 0, multiset{});
      ghost var drains := Valid(queue) && queue.shuttingDown && Quiet(rounds);
      for i := 0 to |rounds|
        invariant |old(processed)| <= |processed| && !quit
        invariant Leads(start, trace, queue, |processed| - |old(processed)|)
        invariant drains ==> Drained(old(queue), queue, i, old(processed), processed)
      {
        var round := rounds[i];
        trace := Interfered(start, trace, queue, |processed| - |old(processed)|, round.before, {});
        queue := Interfere(queue, round.before, {});
        if queue.queue == [] && !queue.shuttingDown {
          continue;
        }
        ghost var (before, done) := (queue, processed);
        var more := ProcessNextItem(round.during, round.fetched, round.recent);
        if !more {
          if drains {
            DrainedEnd(old(queue), queue, i, old(processed), processed);
          }
          quit := true;
          break;
        }
        trace := Rounded(start, trace, before, |done| - |old(processed)|, round.during, round.fetched);
        if drains {
          DrainedRound(old(queue), before, i, old(processed), done, round.fetched);
        }
      }
      if old(queue) == EMPTY_QUEUE {
        BoundFromStart(trace);
      }
    }
  }
}
