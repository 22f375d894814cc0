/** Whole runs of the reconciler: the table changes, each change posts an event, events are
    handled in any order and any of them may be replayed at any time. Each handler is one
    atomic step. */
module Reconciler {
  import opened ClusterTable

  datatype State = State(rows: Rows, watch: Watch, pending: multiset<Event>)

  datatype Step =
    | Activate(id: int, row: Cluster)        // a new or inactive cluster becomes active; posts Add
    | Deactivate(id: int)                    // posts Remove
    | Reconfigure(id: int, row: Cluster)     // an active cluster changes; posts Update
    | EditInactive(id: int, row: Cluster)    // an inactive row changes; posts nothing
    | Process(event: Event, answers: Answers)
    | Replay(event: Event, answers: Answers)

  predicate Enabled(s: State, step: Step) {
    match step
    case Activate(id, row) => row.active && !IsActive(s.rows, id)
    case Deactivate(id) => IsActive(s.rows, id)
    case Reconfigure(id, row) => row.active && IsActive(s.rows, id)
    case EditInactive(id, row) => !row.active && IsInactive(s.rows, id)
    case Process(e, _) => e in s.pending
    case Replay(_, _) => true
  }

  function Apply(s: State, step: Step): State
    requires Enabled(s, step)
  {
    match step
    case Activate(id, row) => s.(rows := s.rows[id := row], pending := s.pending + multiset{Add(id)})
    case Deactivate(id) =>
      s.(rows := s.rows[id := s.rows[id].(active := false)], pending := s.pending + multiset{Remove(id)})
    case Reconfigure(id, row) => s.(rows := s.rows[id := row], pending := s.pending + multiset{Update(id)})
    case EditInactive(id, row) => s.(rows := s.rows[id := row])
    case Process(e, a) => s.(watch := Handle(s.watch, s.rows, e, a), pending := s.pending - multiset{e})
    case Replay(e, a) => s.(watch := Handle(s.watch, s.rows, e, a))
  }

  /** A run: steps that are enabled one after the other. */
  ghost predicate IsRun(s: State, steps: seq<Step>)
    decreases |steps|
  {
    steps == [] || (Enabled(s, steps[0]) && IsRun(Apply(s, steps[0]), steps[1..]))
  }

  ghost function Final(s: State, steps: seq<Step>): State
    requires IsRun(s, steps)
    decreases |steps|
  {
    if steps == [] then s else Final(Apply(s, steps[0]), steps[1..])
  }

  lemma RunFrom(s: State, step: Step, t: State, rest: seq<Step>)
    requires Enabled(s, step) && t == Apply(s, step) && IsRun(t, rest)
    ensures IsRun(s, [step] + rest) && Final(s, [step] + rest) == Final(t, rest)
  {
    assert ([step] + rest)[1..] == rest;
  }

  /** Nothing is watched yet and the startup loop still has to start every active row; each such
      start is the same call an add event makes. */
  ghost predicate Booting(s: State) {
    s.watch == map[] && forall id | IsActive(s.rows, id) :: Add(id) in s.pending
  }

  // ---------- Which clusters are watched ----------

  predicate StartPending(s: State, id: int) {
    Add(id) in s.pending || Update(id) in s.pending
  }

  ghost predicate ActiveCovered(s: State) {
    forall id | IsActive(s.rows, id) && id !in s.watch :: StartPending(s, id)
  }

  ghost predicate InactiveCovered(s: State) {
    forall id | id in s.watch && !IsActive(s.rows, id) :: IsInactive(s.rows, id) && Remove(id) in s.pending
  }

  /** An active, unwatched cluster loses its last pending start. */
  predicate LosesStart(s: State, e: Event, a: Answers, consumed: bool) {
    && !e.Remove?
    && IsActive(s.rows, e.id)
    && (if e.Add? then e.id !in s.watch && !(a.lookup && a.build)
        else if a.lookup then !(a.again && a.build) else e.id !in s.watch)
    && !StartPending(if consumed then s.(pending := s.pending - multiset{e}) else s, e.id)
  }

  /** A watched, inactive cluster loses its last pending removal because its row was not found. */
  predicate LosesRemoval(s: State, e: Event, a: Answers, consumed: bool) {
    && e.Remove?
    && e.id in s.watch && IsInactive(s.rows, e.id) && !a.lookup
    && consumed && s.pending[e] == 1
  }

  predicate IsHandling(step: Step) {
    step.Process? || step.Replay?
  }

  predicate Loses(s: State, step: Step) {
    IsHandling(step) &&
    (LosesStart(s, step.event, step.answers, step.Process?) || LosesRemoval(s, step.event, step.answers, step.Process?))
  }

  lemma HandlingKeepsActiveCovered(s: State, e: Event, a: Answers, t: State, consumed: bool)
    requires ActiveCovered(s) && (consumed ==> e in s.pending)
    requires t == State(s.rows, Handle(s.watch, s.rows, e, a), if consumed then s.pending - multiset{e} else s.pending)
    ensures ActiveCovered(t) <==> !LosesStart(s, e, a, consumed)
  {
    if LosesStart(s, e, a, consumed) {
      assert IsActive(t.rows, e.id) && e.id !in t.watch && !StartPending(t, e.id);
    } else {
      forall id | IsActive(t.rows, id) && id !in t.watch
        ensures StartPending(t, id)
      {
        if id != e.id {
          HandlerFrame(s.watch, s.rows, e, a, id);
          assert StartPending(s, id);
        }
      }
    }
  }

  /** One step keeps every active cluster watched or about to be started, except in exactly the
      case where a handler fails and no second event would make up for it. */
  lemma StepKeepsActiveCovered(s: State, step: Step)
    requires Enabled(s, step) && ActiveCovered(s)
    ensures ActiveCovered(Apply(s, step)) <==>
      !(IsHandling(step) && LosesStart(s, step.event, step.answers, step.Process?))
  {
    var t := Apply(s, step);
    if IsHandling(step) {
      HandlingKeepsActiveCovered(s, step.event, step.answers, t, step.Process?);
    } else {
      forall id | IsActive(t.rows, id) && id !in t.watch
        ensures StartPending(t, id)
      {
        assert IsActive(s.rows, id) ==> StartPending(s, id);
      }
    }
  }

  lemma HandlingKeepsInactiveCovered(s: State, e: Event, a: Answers, t: State, consumed: bool)
    requires InactiveCovered(s) && (consumed ==> e in s.pending)
    requires t == State(s.rows, Handle(s.watch, s.rows, e, a), if consumed then s.pending - multiset{e} else s.pending)
    ensures InactiveCovered(t) <==> !LosesRemoval(s, e, a, consumed)
  {
    if LosesRemoval(s, e, a, consumed) {
      assert e.id in t.watch && !IsActive(t.rows, e.id) && Remove(e.id) !in t.pending;
    } else {
      forall id | id in t.watch && !IsActive(t.rows, id)
        ensures IsInactive(t.rows, id) && Remove(id) in t.pending
      {
        if id != e.id {
          HandlerFrame(s.watch, s.rows, e, a, id);
        }
        assert id in s.watch;
      }
    }
  }

  /** One step keeps every watched cluster active or about to be removed, except in exactly the case where
      the last pending removal does not find its row. */
  lemma StepKeepsInactiveCovered(s: State, step: Step)
    requires Enabled(s, step) && InactiveCovered(s)
    ensures InactiveCovered(Apply(s, step)) <==>
      !(IsHandling(step) && LosesRemoval(s, step.event, step.answers, step.Process?))
  {
    var t := Apply(s, step);
    if IsHandling(step) {
      HandlingKeepsInactiveCovered(s, step.event, step.answers, t, step.Process?);
    } else {
      forall id | id in t.watch && !IsActive(t.rows, id)
        ensures IsInactive(t.rows, id) && Remove(id) in t.pending
      {
        assert !IsActive(s.rows, id) ==> IsInactive(s.rows, id) && Remove(id) in s.pending;
      }
    }
  }

  predicate Succeeds(a: Answers) {
    a.lookup && a.again && a.build
  }

  ghost predicate AllSucceed(steps: seq<Step>) {
    forall i | 0 <= i < |steps| && IsHandling(steps[i]) :: Succeeds(steps[i].answers)
  }

  /** Only the table has to answer; clients may fail to build at any time. */
  ghost predicate RemovalsAreLookedUp(steps: seq<Step>) {
    forall i | 0 <= i < |steps| && steps[i].Process? && steps[i].event.Remove? :: steps[i].answers.lookup
  }

  ghost predicate Covered(s: State) {
    ActiveCovered(s) && InactiveCovered(s)
  }

  ghost predicate CoveredThroughout(s: State, steps: seq<Step>)
    requires IsRun(s, steps)
    decreases |steps|
  {
    Covered(s) && (steps != [] ==> CoveredThroughout(Apply(s, steps[0]), steps[1..]))
  }

  ghost predicate NeverLoses(s: State, steps: seq<Step>)
    requires IsRun(s, steps)
    decreases |steps|
  {
    steps != [] ==> !Loses(s, steps[0]) && NeverLoses(Apply(s, steps[0]), steps[1..])
  }

  /** Over whole runs, with handlers failing as they like: every disagreement between the table and
      the watched clusters has its correcting event pending at every moment if and only if no
      step is one of the losing ones. */
  lemma {:induction false} CoverageExactly(s: State, steps: seq<Step>)
    requires IsRun(s, steps) && Covered(s)
    ensures CoveredThroughout(s, steps) <==> NeverLoses(s, steps)
    decreases |steps|
  {
    if steps != [] {
      StepKeepsActiveCovered(s, steps[0]);
      StepKeepsInactiveCovered(s, steps[0]);
      var t := Apply(s, steps[0]);
      if Covered(t) {
        CoverageExactly(t, steps[1..]);
      } else {
        assert !CoveredThroughout(t, steps[1..]);
      }
    }
  }

  lemma {:induction false} SuccessNeverLoses(s: State, steps: seq<Step>)
    requires IsRun(s, steps) && AllSucceed(steps)
    ensures NeverLoses(s, steps)
    decreases |steps|
  {
    if steps != [] {
      SuccessNeverLoses(Apply(s, steps[0]), steps[1..]);
    }
  }

  lemma {:induction false} CoveredAtTheEnd(s: State, steps: seq<Step>)
    requires IsRun(s, steps) && CoveredThroughout(s, steps)
    ensures Covered(Final(s, steps))
    decreases |steps|
  {
    if steps != [] {
      CoveredAtTheEnd(Apply(s, steps[0]), steps[1..]);
    }
  }

  lemma {:induction false} RunKeepsInactiveCovered(s: State, steps: seq<Step>)
    requires IsRun(s, steps) && InactiveCovered(s) && RemovalsAreLookedUp(steps)
    ensures InactiveCovered(Final(s, steps))
    decreases |steps|
  {
    if steps != [] {
      StepKeepsInactiveCovered(s, steps[0]);
      RunKeepsInactiveCovered(Apply(s, steps[0]), steps[1..]);
    }
  }

  /** Convergence: from startup on, after any run in which every handler succeeds, a cluster whose
      membership differs from its active flag has an event pending that will correct it; once
      no event is pending the watched clusters are exactly the active ones. */
  lemma Convergence(s: State, steps: seq<Step>)
    requires Booting(s) && IsRun(s, steps) && AllSucceed(steps)
    ensures var t := Final(s, steps);
      && Covered(t)
      && (t.pending == multiset{} ==> forall id :: id in t.watch <==> IsActive(t.rows, id))
  {
    SuccessNeverLoses(s, steps);
    CoverageExactly(s, steps);
    CoveredAtTheEnd(s, steps);
    var t := Final(s, steps);
    if t.pending == multiset{} {
      forall id ensures id in t.watch <==> IsActive(t.rows, id) {
        assert !StartPending(t, id) && Remove(id) !in t.pending;
      }
    }
  }

  /** Safety without any luck in building clients: once drained, no inactive cluster is watched. */
  lemma DrainedWatchesOnlyActive(s: State, steps: seq<Step>)
    requires Booting(s) && IsRun(s, steps) && RemovalsAreLookedUp(steps)
    ensures var t := Final(s, steps);
      t.pending == multiset{} ==> forall id | id in t.watch :: IsActive(t.rows, id)
  {
    RunKeepsInactiveCovered(s, steps);
  }

  ghost predicate LeavesInactive(step: Step, id: int) {
    (step.Activate? ==> step.id != id) &&
    (IsHandling(step) ==> step.event != Remove(id))
  }

  lemma StepLeavesWatched(s: State, step: Step, id: int)
    requires Enabled(s, step) && LeavesInactive(step, id) && id in s.watch && IsInactive(s.rows, id)
    ensures var t := Apply(s, step); IsInactive(t.rows, id) && id in t.watch && t.watch[id] == s.watch[id]
  {
    if IsHandling(step) && step.event.id != id {
      HandlerFrame(s.watch, s.rows, step.event, step.answers, id);
    }
  }

  /** A missed removal is not made up for by anything but another removal: however long the run and
      whatever is replayed, the inactive cluster stays watched with its old configuration. */
  lemma {:induction false} MissedRemovalPersists(s: State, steps: seq<Step>, id: int)
    requires IsRun(s, steps) && id in s.watch && IsInactive(s.rows, id)
    requires forall i | 0 <= i < |steps| :: LeavesInactive(steps[i], id)
    ensures var t := Final(s, steps); IsInactive(t.rows, id) && id in t.watch && t.watch[id] == s.watch[id]
    decreases |steps|
  {
    if steps != [] {
      StepLeavesWatched(s, steps[0], id);
      MissedRemovalPersists(Apply(s, steps[0]), steps[1..], id);
    }
  }

  /** A cluster that is started and then deactivated, with its removal still pending. */
  lemma StartedAndDeactivated(row: Cluster, ok: Answers, rest: seq<Step>)
    requires row.active && Succeeds(ok)
    requires IsRun(State(map[7 := row.(active := false)], map[7 := ConfigOf(row)], multiset{Remove(7)}), rest)
    ensures var s := State(map[7 := row], map[], multiset{Add(7)});
      var t := State(map[7 := row.(active := false)], map[7 := ConfigOf(row)], multiset{Remove(7)});
      var steps := [Process(Add(7), ok)] + ([Deactivate(7)] + rest);
      IsRun(s, steps) && Final(s, steps) == Final(t, rest)
  {
    var s := State(map[7 := row], map[], multiset{Add(7)});
    var t := State(map[7 := row], map[7 := ConfigOf(row)], multiset{});
    var u := State(map[7 := row.(active := false)], map[7 := ConfigOf(row)], multiset{Remove(7)});
    assert Apply(t, Deactivate(7)) == u;
    RunFrom(t, Deactivate(7), u, rest);
    assert Apply(s, Process(Add(7), ok)) == t;
    RunFrom(s, Process(Add(7), ok), t, [Deactivate(7)] + rest);
  }

  /** Such a run: cluster 7 is started and deactivated, and its removal does not find the row. Nothing is left
      pending, and the cluster is still watched. */
  lemma RemovalCanBeMissed(row: Cluster, ok: Answers, miss: Answers) returns (s: State, steps: seq<Step>)
    requires row.active && Succeeds(ok) && !miss.lookup
    ensures Booting(s) && IsRun(s, steps)
    ensures var t := Final(s, steps); t.pending == multiset{} && IsInactive(t.rows, 7) && 7 in t.watch
  {
    s := State(map[7 := row], map[], multiset{Add(7)});
    var t := State(map[7 := row.(active := false)], map[7 := ConfigOf(row)], multiset{Remove(7)});
    var last := t.(pending := multiset{});
    assert Apply(t, Process(Remove(7), miss)) == last;
    RunFrom(t, Process(Remove(7), miss), last, []);
    StartedAndDeactivated(row, ok, [Process(Remove(7), miss)]);
    steps := [Process(Add(7), ok)] + ([Deactivate(7)] + [Process(Remove(7), miss)]);
  }

  ghost function Handlings(events: seq<Event>, a: Answers): seq<Step> {
    seq(|events|, i requires 0 <= i < |events| => Process(events[i], a))
  }

  /** From any covered state, handling what is pending in any order whatsoever drains the events
      and leaves exactly the active clusters watched. */
  lemma {:induction false} DrainsInAnyOrder(s: State, events: seq<Event>, a: Answers)
    requires Covered(s) && multiset(events) == s.pending && Succeeds(a)
    ensures IsRun(s, Handlings(events, a))
    ensures forall id :: id in Final(s, Handlings(events, a)).watch <==> IsActive(s.rows, id)
    decreases |events|
  {
    if events == [] {
      forall id ensures id in s.watch <==> IsActive(s.rows, id) {
        assert !StartPending(s, id) && Remove(id) !in s.pending;
      }
    } else {
      var step := Process(events[0], a);
      assert events == [events[0]] + events[1..];
      assert multiset(events[1..]) == s.pending - multiset{events[0]};
      StepKeepsActiveCovered(s, step);
      StepKeepsInactiveCovered(s, step);
      DrainsInAnyOrder(Apply(s, step), events[1..], a);
      assert Handlings(events, a)[1..] == Handlings(events[1..], a);
    }
  }

  // ---------- Which configuration is used ----------

  predicate FreshAt(s: State, id: int)
    requires id in s.watch
  {
    if IsActive(s.rows, id) then s.watch[id] == ConfigOf(s.rows[id]) || Update(id) in s.pending
    else IsInactive(s.rows, id) && Remove(id) in s.pending
  }

  /** Each informer runs with the current configuration of its cluster, or will be replaced, or
      will be stopped. */
  ghost predicate Fresh(s: State) {
    forall id | id in s.watch :: FreshAt(s, id)
  }

  /** The one thing a table change can do wrong: a cluster comes back, with another configuration,
      before its old informer was stopped, and no update is on its way. */
  predicate RevivesStale(s: State, step: Step) {
    && step.Activate?
    && step.id in s.watch
    && s.watch[step.id] != ConfigOf(step.row)
    && Update(step.id) !in s.pending
  }

  /** The one thing a handler can do wrong: its row is not found although it is there, and the
      event that would have corrected the informer is gone. */
  predicate MissesRow(s: State, step: Step) {
    && step.Process?
    && !step.answers.lookup
    && step.event.id in s.watch
    && s.pending[step.event] == 1
    && (if step.event.Update? then IsActive(s.rows, step.event.id) && s.watch[step.event.id] != ConfigOf(s.rows[step.event.id])
        else step.event.Remove? && IsInactive(s.rows, step.event.id))
  }

  lemma TableChangeKeepsFresh(s: State, step: Step)
    requires Enabled(s, step) && !IsHandling(step) && Fresh(s)
    ensures Fresh(Apply(s, step)) <==> !RevivesStale(s, step)
  {
    var t := Apply(s, step);
    if RevivesStale(s, step) {
      assert !FreshAt(t, step.id);
    } else {
      forall id | id in t.watch
        ensures FreshAt(t, id)
      {
        assert FreshAt(s, id);
      }
    }
  }

  lemma HandlingKeepsFresh(s: State, step: Step)
    requires Enabled(s, step) && IsHandling(step) && Fresh(s)
    ensures Fresh(Apply(s, step)) <==> !MissesRow(s, step)
  {
    var t := Apply(s, step);
    var e := step.event;
    if MissesRow(s, step) {
      assert !FreshAt(t, e.id);
    } else {
      forall id | id in t.watch
        ensures FreshAt(t, id)
      {
        if id != e.id {
          HandlerFrame(s.watch, s.rows, e, step.answers, id);
        }
        assert id in s.watch ==> FreshAt(s, id);
      }
    }
  }

  lemma StepKeepsFresh(s: State, step: Step)
    requires Enabled(s, step) && Fresh(s)
    ensures Fresh(Apply(s, step)) <==> !RevivesStale(s, step) && !MissesRow(s, step)
  {
    if IsHandling(step) {
      HandlingKeepsFresh(s, step);
    } else {
      TableChangeKeepsFresh(s, step);
    }
  }

  ghost predicate FreshThroughout(s: State, steps: seq<Step>)
    requires IsRun(s, steps)
    decreases |steps|
  {
    Fresh(s) && (steps != [] ==> FreshThroughout(Apply(s, steps[0]), steps[1..]))
  }

  ghost predicate NeverGoesStale(s: State, steps: seq<Step>)
    requires IsRun(s, steps)
    decreases |steps|
  {
    steps != [] ==>
      !RevivesStale(s, steps[0]) && !MissesRow(s, steps[0]) && NeverGoesStale(Apply(s, steps[0]), steps[1..])
  }

  /** Freshness over whole runs, whether or not clients can be built: it holds at every moment if
      and only if neither of the two things ever happens. */
  lemma {:induction false} FreshnessExactly(s: State, steps: seq<Step>)
    requires IsRun(s, steps) && Fresh(s)
    ensures FreshThroughout(s, steps) <==> NeverGoesStale(s, steps)
    ensures FreshThroughout(s, steps) ==> Fresh(Final(s, steps))
    decreases |steps|
  {
    if steps != [] {
      StepKeepsFresh(s, steps[0]);
      var t := Apply(s, steps[0]);
      if Fresh(t) {
        FreshnessExactly(t, steps[1..]);
      } else {
        assert !FreshThroughout(t, steps[1..]);
      }
    }
  }

  /** Every cluster id is activated as a new row only: deactivated ids stay inactive. */
  ghost predicate NoReactivation(s: State, steps: seq<Step>)
    requires IsRun(s, steps)
    decreases |steps|
  {
    steps != [] ==>
    ((steps[0].Activate? ==> steps[0].id !in s.rows) && NoReactivation(Apply(s, steps[0]), steps[1..]))
  }

  lemma {:induction false} NoReactivationNeverGoesStale(s: State, steps: seq<Step>)
    requires IsRun(s, steps) && Fresh(s) && NoReactivation(s, steps)
    requires forall i | 0 <= i < |steps| && steps[i].Process? :: steps[i].answers.lookup
    ensures NeverGoesStale(s, steps)
    decreases |steps|
  {
    if steps != [] {
      assert !RevivesStale(s, steps[0]) by {
        if steps[0].Activate? && steps[0].id in s.watch {
          assert FreshAt(s, steps[0].id);
        }
      }
      StepKeepsFresh(s, steps[0]);
      NoReactivationNeverGoesStale(Apply(s, steps[0]), steps[1..]);
    }
  }

  /** The drained state of a run in which everything succeeds and no cluster comes back is the
      table itself: each active cluster watched with its current configuration, nothing else. */
  lemma DrainedStateIsTheTable(s: State, steps: seq<Step>)
    requires Booting(s) && IsRun(s, steps) && AllSucceed(steps) && NoReactivation(s, steps)
    ensures var t := Final(s, steps);
      t.pending == multiset{} ==>
        t.watch == map id | id in t.rows && t.rows[id].active :: ConfigOf(t.rows[id])
  {
    Convergence(s, steps);
    NoReactivationNeverGoesStale(s, steps);
    FreshnessExactly(s, steps);
    var t := Final(s, steps);
    if t.pending == multiset{} {
      var table := map id | id in t.rows && t.rows[id].active :: ConfigOf(t.rows[id]);
      forall id
        ensures id in t.watch <==> id in table
        ensures id in t.watch ==> t.watch[id] == table[id]
      {
        assert id in t.watch ==> FreshAt(t, id);
      }
    }
  }

  /** The watched clusters are what the table asks for. */
  ghost predicate IsTheTable(s: State) {
    && (forall id :: id in s.watch <==> IsActive(s.rows, id))
    && (forall id | id in s.watch :: s.watch[id] == ConfigOf(s.rows[id]))
  }

  lemma ReplayChangesNothing(s: State, e: Event, a: Answers)
    requires IsTheTable(s) && Succeeds(a)
    ensures Enabled(s, Replay(e, a)) && Apply(s, Replay(e, a)) == s
  {
    var w := Handle(s.watch, s.rows, e, a);
    assert w.Keys == s.watch.Keys;
    assert forall id | id in w :: w[id] == s.watch[id];
  }

  ghost function Replays(events: seq<Event>, a: Answers): seq<Step> {
    seq(|events|, i requires 0 <= i < |events| => Replay(events[i], a))
  }

  /** A resync is harmless: once the watched clusters are those of the table, any events whatever may be replayed, any
      number of times and in any order, and everything stays as it is. */
  lemma {:induction false} ResyncIsHarmless(s: State, events: seq<Event>, a: Answers)
    requires IsTheTable(s) && Succeeds(a)
    ensures IsRun(s, Replays(events, a)) && Final(s, Replays(events, a)) == s
    decreases |events|
  {
    if events != [] {
      ReplayChangesNothing(s, events[0], a);
      assert Replays(events, a)[1..] == Replays(events[1..], a);
      ResyncIsHarmless(s, events[1..], a);
    }
  }

  ghost predicate IsAbout(step: Step, id: int) {
    match step
    case Activate(x, _) => x == id
    case Deactivate(x) => x == id
    case Reconfigure(x, _) => x == id
    case EditInactive(x, _) => x == id
    case Process(e, _) => e == Update(id)
    case Replay(e, _) => e == Update(id)
  }

  ghost predicate StaleAt(s: State, id: int, config: ClientConfig) {
    IsActive(s.rows, id) && id in s.watch && s.watch[id] == config && config != ConfigOf(s.rows[id])
  }

  lemma StepLeavesStale(s: State, step: Step, id: int, config: ClientConfig)
    requires Enabled(s, step) && !IsAbout(step, id) && StaleAt(s, id, config)
    ensures StaleAt(Apply(s, step), id, config)
  {
    if IsHandling(step) && step.event.id != id {
      HandlerFrame(s.watch, s.rows, step.event, step.answers, id);
    }
  }

  /** Nothing but an update event for the cluster, or a change of its row, ends such a state: however long the
      run, whatever else changes and whatever else is handled or replayed, its add and remove events
      included, the cluster stays active and watched with its old configuration. */
  lemma {:induction false} StaleInformerPersists(s: State, steps: seq<Step>, id: int, config: ClientConfig)
    requires IsRun(s, steps) && StaleAt(s, id, config)
    requires forall i | 0 <= i < |steps| :: !IsAbout(steps[i], id)
    ensures StaleAt(Final(s, steps), id, config)
    decreases |steps|
  {
    if steps != [] {
      StepLeavesStale(s, steps[0], id, config);
      StaleInformerPersists(Apply(s, steps[0]), steps[1..], id, config);
    }
  }

  /** A run that does go stale: cluster 7 is watched, is deactivated, comes back at another address
      before its removal is handled, and both events are then handled in order. */
  lemma ReactivationGoesStale() returns (s: State, steps: seq<Step>)
    ensures Booting(s) && IsRun(s, steps) && AllSucceed(steps)
    ensures var t := Final(s, steps);
      t.pending == multiset{} && IsActive(t.rows, 7) && 7 in t.watch && t.watch[7] != ConfigOf(t.rows[7])
  {
    var before := Cluster("c", "https://old", map[], true);
    var after := Cluster("c", "https://new", map[], true);
    assert "https://old"[8] == 'o' && "https://new"[8] == 'n';
    s, steps := ReactivationRun(before, after, Answers(true, true, true));
  }

  /** Watching 7 by its old row, with its new row active and both events pending. */
  function Revived(before: Cluster, after: Cluster): State {
    State(map[7 := after], map[7 := ConfigOf(before)], multiset{Remove(7), Add(7)})
  }

  lemma RevivedStaysStale(before: Cluster, after: Cluster, ok: Answers)
    requires after.active && Succeeds(ok)
    ensures var (s, steps) := (Revived(before, after), [Process(Remove(7), ok), Process(Add(7), ok)]);
      IsRun(s, steps) && Final(s, steps) == s.(pending := multiset{})
  {
    var s := Revived(before, after);
    var (t, u) := (s.(pending := multiset{Add(7)}), s.(pending := multiset{}));
    assert Apply(s, Process(Remove(7), ok)) == t;
    assert Apply(t, Process(Add(7), ok)) == u;
    RunFrom(t, Process(Add(7), ok), u, []);
    RunFrom(s, Process(Remove(7), ok), t, [Process(Add(7), ok)]);
  }

  lemma ReactivationRun(before: Cluster, after: Cluster, ok: Answers) returns (s: State, steps: seq<Step>)
    requires before.active && after.active && Succeeds(ok)
    ensures Booting(s) && IsRun(s, steps) && AllSucceed(steps)
    ensures Final(s, steps) == Revived(before, after).(pending := multiset{})
  {
    s := State(map[7 := before], map[], multiset{Add(7)});
    var u := State(map[7 := before.(active := false)], map[7 := ConfigOf(before)], multiset{Remove(7)});
    var rest := [Process(Remove(7), ok), Process(Add(7), ok)];
    RevivedStaysStale(before, after, ok);
    assert Apply(u, Activate(7, after)) == Revived(before, after);
    RunFrom(u, Activate(7, after), Revived(before, after), rest);
    StartedAndDeactivated(before, ok, [Activate(7, after)] + rest);
    steps := [Process(Add(7), ok)] + ([Deactivate(7)] + ([Activate(7, after)] + rest));
  }
}
