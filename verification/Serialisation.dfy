/** What the handlers rely on when they run on several goroutines: starting and stopping an informer
    each read the registry first and write it later, and nothing is locked in between. Here the
    two halves are separate steps of any number of goroutines. */
module Serialisation {
  /** A goroutine between its two halves: it found no channel for the cluster and will register a new
      one, or it found this channel and will close and delete it. */
  datatype Halfway = Starting(id: int) | Stopping(id: int, channel: nat)

  /** `open` gives each open channel its cluster; channels are numbered as they are made. */
  datatype State = State(registered: map<int, nat>, open: map<nat, int>, next: nat, halfway: multiset<Halfway>, panicked: bool)

  const INITIAL := State(map[], map[], 0, multiset{}, false)

  datatype Step = ReadForStart(id: int) | ReadForStop(id: int) | Write(who: Halfway)

  predicate Enabled(s: State, step: Step) {
    !s.panicked &&
    match step
    case ReadForStart(id) => id !in s.registered
    case ReadForStop(id) => id in s.registered
    case Write(who) => who in s.halfway
  }

  function Apply(s: State, step: Step): State
    requires Enabled(s, step)
  {
    match step
    case ReadForStart(id) => s.(halfway := s.halfway + multiset{Starting(id)})
    case ReadForStop(id) => s.(halfway := s.halfway + multiset{Stopping(id, s.registered[id])})
    case Write(who) =>
      var t := s.(halfway := s.halfway - multiset{who});
      match who
      case Starting(id) => t.(registered := s.registered[id := s.next], open := s.open[s.next := id], next := s.next + 1)
      case Stopping(id, c) =>
        if c !in s.open then t.(panicked := true)  // closing a closed channel
        else t.(registered := s.registered - {id}, open := s.open - {c})
  }

  /** The registered channels are exactly the open ones, each under its own cluster, and no channel was
      closed twice. */
  ghost predicate Good(s: State) {
    && !s.panicked
    && (forall id | id in s.registered :: s.registered[id] in s.open && s.open[s.registered[id]] == id)
    && (forall c | c in s.open :: s.open[c] in s.registered && s.registered[s.open[c]] == c)
  }

  /** Channel numbers are never reused, and a goroutine holds a channel of its own cluster. */
  ghost predicate Numbered(s: State) {
    && (forall c | c in s.open :: c < s.next)
    && (forall p | p in s.halfway && p.Stopping? :: p.channel < s.next && (p.channel in s.open ==> s.open[p.channel] == p.id))
  }

  /** What the goroutine read is still true. */
  predicate Current(s: State, p: Halfway) {
    match p
    case Starting(id) => id !in s.registered
    case Stopping(id, c) => id in s.registered && s.registered[id] == c
  }

  lemma StepKeepsNumbered(s: State, step: Step)
    requires Numbered(s) && Good(s) && Enabled(s, step)
    ensures Numbered(Apply(s, step))
  {
    var t := Apply(s, step);
    forall p | p in t.halfway && p.Stopping?
      ensures p.channel < t.next && (p.channel in t.open ==> t.open[p.channel] == p.id)
    {
      assert p in s.halfway || step == ReadForStop(p.id);
    }
  }

  /** One step keeps the registry right if and only if it does not write on the strength of a reading
      that has become false. */
  lemma StepKeepsGood(s: State, step: Step)
    requires Numbered(s) && Good(s) && Enabled(s, step)
    ensures Good(Apply(s, step)) <==> (step.Write? ==> Current(s, step.who))
  {
    var t := Apply(s, step);
    if step.Write? && !Current(s, step.who) && step.who.Starting? {
      var leaked := s.registered[step.who.id];
      assert leaked in t.open && t.registered[t.open[leaked]] != leaked;
    }
  }

  ghost predicate IsRun(s: State, steps: seq<Step>)
    decreases |steps|
  {
    steps == [] || (Enabled(s, steps[0]) && IsRun(Apply(s, steps[0]), steps[1..]))
  }

  ghost predicate GoodThroughout(s: State, steps: seq<Step>)
    requires IsRun(s, steps)
    decreases |steps|
  {
    Good(s) && (steps != [] ==> GoodThroughout(Apply(s, steps[0]), steps[1..]))
  }

  ghost predicate WritesAreCurrent(s: State, steps: seq<Step>)
    requires IsRun(s, steps)
    decreases |steps|
  {
    steps != [] ==>
      (steps[0].Write? ==> Current(s, steps[0].who)) && WritesAreCurrent(Apply(s, steps[0]), steps[1..])
  }

  /** Over any interleaving: no channel is leaked, shared or closed twice at any moment if and only if
      every write still finds what its goroutine had read. */
  lemma {:induction false} GoodExactly(s: State, steps: seq<Step>)
    requires IsRun(s, steps) && Good(s) && Numbered(s)
    ensures GoodThroughout(s, steps) <==> WritesAreCurrent(s, steps)
    decreases |steps|
  {
    if steps != [] {
      StepKeepsGood(s, steps[0]);
      StepKeepsNumbered(s, steps[0]);
      var t := Apply(s, steps[0]);
      if Good(t) {
        GoodExactly(t, steps[1..]);
      } else {
        assert !GoodThroughout(t, steps[1..]);
      }
    }
  }

  /** At most one goroutine is halfway for each cluster. */
  ghost predicate Exclusive(s: State) {
    && (forall p, q | p in s.halfway && q in s.halfway && p.id == q.id :: p == q)
    && (forall p | p in s.halfway :: s.halfway[p] == 1)
  }

  ghost predicate ExclusiveThroughout(s: State, steps: seq<Step>)
    requires IsRun(s, steps)
    decreases |steps|
  {
    Exclusive(s) && (steps != [] ==> ExclusiveThroughout(Apply(s, steps[0]), steps[1..]))
  }

  ghost predicate AllCurrent(s: State) {
    forall p | p in s.halfway :: Current(s, p)
  }

  lemma ExclusionKeepsCurrent(s: State, step: Step)
    requires Enabled(s, step) && Exclusive(s) && AllCurrent(s)
    ensures AllCurrent(Apply(s, step))
  {
    var t := Apply(s, step);
    forall p | p in t.halfway
      ensures Current(t, p)
    {
      if step.Write? {
        assert p in s.halfway && Current(s, p) && Current(s, step.who);
        assert p.id != step.who.id;
      } else if p in s.halfway {
        assert Current(s, p);
      }
    }
  }

  lemma {:induction false} ExclusionSuffices(s: State, steps: seq<Step>)
    requires IsRun(s, steps) && ExclusiveThroughout(s, steps) && AllCurrent(s)
    ensures WritesAreCurrent(s, steps)
    decreases |steps|
  {
    if steps != [] {
      ExclusionKeepsCurrent(s, steps[0]);
      ExclusionSuffices(Apply(s, steps[0]), steps[1..]);
    }
  }

  /** Excluding goroutines per cluster is enough: then every interleaving keeps the registry right. */
  lemma ExclusiveRunsAreGood(steps: seq<Step>)
    requires IsRun(INITIAL, steps) && ExclusiveThroughout(INITIAL, steps)
    ensures GoodThroughout(INITIAL, steps)
  {
    ExclusionSuffices(INITIAL, steps);
    GoodExactly(INITIAL, steps);
  }

  ghost function Final(s: State, steps: seq<Step>): State
    requires IsRun(s, steps)
    decreases |steps|
  {
    if steps == [] then s else Final(Apply(s, steps[0]), steps[1..])
  }

  lemma RunFrom(s: State, step: Step, t: State, rest: seq<Step>)
    requires Enabled(s, step) && t == Apply(s, step) && IsRun(t, rest)
    ensures IsRun(s, [step] + rest) && Final(s, [step] + rest) == Final(t, rest)
  {
    assert ([step] + rest)[1..] == rest;
  }

  /** Without it, two starts that overlap leak a channel: it stays open and is no longer registered. */
  lemma OverlappingStartsLeak(id: int)
    ensures var steps := [ReadForStart(id), ReadForStart(id), Write(Starting(id)), Write(Starting(id))];
      IsRun(INITIAL, steps) && var t := Final(INITIAL, steps); 0 in t.open && t.registered == map[id := 1]
  {
    var (read, write) := (ReadForStart(id), Write(Starting(id)));
    var s1 := Apply(INITIAL, read);
    var s2 := Apply(s1, read);
    var s3 := Apply(s2, write);
    RunFrom(s3, write, Apply(s3, write), []);
    RunFrom(s2, write, s3, [write]);
    RunFrom(s1, read, s2, [write, write]);
    RunFrom(INITIAL, read, s1, [read, write, write]);
    assert [read] + [read, write, write] == [read, read, write, write];
  }

  /** And two stops that overlap close the same channel twice. */
  lemma OverlappingStopsPanic(id: int)
    ensures var steps := [ReadForStart(id), Write(Starting(id)),
                          ReadForStop(id), ReadForStop(id), Write(Stopping(id, 0)), Write(Stopping(id, 0))];
      IsRun(INITIAL, steps) && Final(INITIAL, steps).panicked
  {
    var s := State(map[id := 0], map[0 := id], 1, multiset{}, false);
    var (read, write) := (ReadForStop(id), Write(Stopping(id, 0)));
    var s1 := Apply(s, read);
    var s2 := Apply(s1, read);
    var s3 := Apply(s2, write);
    RunFrom(s3, write, Apply(s3, write), []);
    RunFrom(s2, write, s3, [write]);
    RunFrom(s1, read, s2, [write, write]);
    RunFrom(s, read, s1, [read, write, write]);
    var begun := Apply(INITIAL, ReadForStart(id));
    assert Apply(begun, Write(Starting(id))) == s;
    RunFrom(begun, Write(Starting(id)), s, [read, read, write, write]);
    RunFrom(INITIAL, ReadForStart(id), begun, [Write(Starting(id)), read, read, write, write]);
    assert [Write(Starting(id))] + [read, read, write, write] == [Write(Starting(id)), read, read, write, write];
  }

  // ---------- Handlers as atomic steps ----------

  function ReadOf(who: Halfway): Step {
    match who
    case Starting(id) => ReadForStart(id)
    case Stopping(id, _) => ReadForStop(id)
  }

  /** The same writes in the same order, each right after its own reading. */
  function Serial(steps: seq<Step>): seq<Step> {
    if steps == [] then []
    else if steps[0].Write? then [ReadOf(steps[0].who), steps[0]] + Serial(steps[1..])
    else Serial(steps[1..])
  }

  lemma SerialWrite(s: State, t: State, who: Halfway, rest: seq<Step>)
    requires Enabled(s, Write(who)) && Current(s, who) && t == s.(halfway := multiset{})
    requires var after := Apply(s, Write(who)).(halfway := multiset{}); IsRun(after, rest)
    ensures var after := Apply(s, Write(who)).(halfway := multiset{});
      && IsRun(t, [ReadOf(who), Write(who)] + rest)
      && Final(t, [ReadOf(who), Write(who)] + rest) == Final(after, rest)
  {
    var after := Apply(s, Write(who)).(halfway := multiset{});
    var read := Apply(t, ReadOf(who));
    assert read == t.(halfway := multiset{who});
    assert read.halfway - multiset{who} == multiset{};
    RunFrom(read, Write(who), after, rest);
    RunFrom(t, ReadOf(who), read, [Write(who)] + rest);
    assert [ReadOf(who), Write(who)] + rest == [ReadOf(who)] + ([Write(who)] + rest);
  }

  /** Reduction: if every write still finds what was read, the interleaving has the effect of running the
      handlers one after the other, in the order of their writes. */
  lemma {:induction false} CurrentRunsSerialise(s: State, steps: seq<Step>)
    requires IsRun(s, steps) && WritesAreCurrent(s, steps)
    ensures var t := s.(halfway := multiset{});
      IsRun(t, Serial(steps)) && Final(t, Serial(steps)) == Final(s, steps).(halfway := multiset{})
    decreases |steps|
  {
    if steps != [] {
      var after := Apply(s, steps[0]);
      CurrentRunsSerialise(after, steps[1..]);
      if steps[0].Write? {
        SerialWrite(s, s.(halfway := multiset{}), steps[0].who, Serial(steps[1..]));
      } else {
        assert after.(halfway := multiset{}) == s.(halfway := multiset{});
      }
    }
  }

  /** So excluding goroutines per cluster makes starts and stops atomic as far as the registry can tell. */
  lemma ExclusiveRunsSerialise(steps: seq<Step>)
    requires IsRun(INITIAL, steps) && ExclusiveThroughout(INITIAL, steps)
    ensures IsRun(INITIAL, Serial(steps))
    ensures Final(INITIAL, Serial(steps)) == Final(INITIAL, steps).(halfway := multiset{})
  {
    ExclusionSuffices(INITIAL, steps);
    CurrentRunsSerialise(INITIAL, steps);
  }
}
