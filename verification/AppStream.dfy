/** The filter on Argo application updates, and what a subscriber still knows behind it. */
module AppStream {
  import opened Wrappers

  /** `history` lists the deployments of the application. */
  datatype App = App(name: string, history: seq<int>, revision: string, health: string, sync: string)

  /** What the subscriber tracks about an application. */
  datatype Tracked = Tracked(revision: string, health: string, sync: string)

  function Track(app: App): Tracked {
    Tracked(app.revision, app.health, app.sync)
  }

  datatype Message = AppUpdated(app: App) | AppDeleted(app: App)

  predicate Deployed(app: App) {
    app.history != []
  }

  predicate ShouldPublish(before: App, after: App) {
    Deployed(after) &&
    (!Deployed(before) || before.revision != after.revision || before.health != after.health || before.sync != after.sync)
  }

  /** The callbacks receive untyped objects; one that is no application is None. */
  function UpdateMessages(before: Option<App>, after: Option<App>, accepted: bool): seq<Message> {
    if before.Some? && after.Some? && ShouldPublish(before.value, after.value) && accepted then [AppUpdated(after.value)] else []
  }

  function DeleteMessages(final: Option<App>, accepted: bool): seq<Message> {
    if final.Some? && accepted then [AppDeleted(final.value)] else []
  }

  class Informer {
    const hasClient: bool
    var published: seq<Message>

    constructor (hasClient: bool)
      ensures this.hasClient == hasClient && published == []
    {
      this.hasClient, published := hasClient, [];
    }

    method Send(m: Message, accepted: bool)
      modifies this
      ensures published == old(published) + if hasClient && accepted then [m] else []
    {
      if !hasClient {
        return;
      }
      if accepted {
        published := published + [m];
      }
    }

    method OnUpdate(before: Option<App>, after: Option<App>, accepted: bool)
      modifies this
      ensures published == old(published) + UpdateMessages(before, after, hasClient && accepted)
      ensures before.None? || after.None? || !hasClient || !accepted ==> published == old(published)
    {
      if before.Some? {
        var oldApp := before.value;
        if after.Some? {
          var newApp := after.value;
          if |newApp.history| > 0 {
            if |oldApp.history| == 0 {
              Send(AppUpdated(newApp), accepted);
            } else if oldApp.revision != newApp.revision || oldApp.health != newApp.health || newApp.sync != oldApp.sync {
              Send(AppUpdated(newApp), accepted);
            }
          }
        }
      }
    }

    method OnDelete(final: Option<App>, accepted: bool)
      modifies this
      ensures published == old(published) + DeleteMessages(final, hasClient && accepted)
      ensures published == old(published) + if final.Some? && hasClient && accepted then [AppDeleted(final.value)] else []
    {
      if final.Some? {
        Send(AppDeleted(final.value), accepted);
      }
    }
  }

  // ---------- Runs over many interleaved applications ----------

  /** Where the log stood, and what the application looked like, when it was added. */
  datatype Mark = Mark(from: nat, added: Tracked)

  datatype State = State(cache: map<string, App>, marks: map<string, Mark>, log: seq<Message>)

  const EMPTY := State(map[], map[], [])

  datatype Step =
    | Added(app: App)
    | Changed(app: App, accepted: bool)
    | Removed(name: string, final: Option<App>, accepted: bool)

  /** The informer's contract: an application is added once, then changes from its cached object, and
      is removed by name, with its final object or a tombstone. */
  predicate Enabled(s: State, step: Step) {
    match step
    case Added(app) => app.name !in s.cache
    case Changed(app, _) => app.name in s.cache
    case Removed(name, final, _) => name in s.cache && (final.Some? ==> final.value.name == name)
  }

  function Apply(s: State, step: Step): State
    requires Enabled(s, step)
  {
    match step
    case Added(app) => State(s.cache[app.name := app], s.marks[app.name := Mark(|s.log|, Track(app))], s.log)
    case Changed(app, accepted) =>
      State(s.cache[app.name := app], s.marks, s.log + UpdateMessages(Some(s.cache[app.name]), Some(app), accepted))
    case Removed(name, final, accepted) =>
      State(s.cache - {name}, s.marks - {name}, s.log + DeleteMessages(final, accepted))
  }

  ghost predicate Valid(s: State) {
    s.cache.Keys == s.marks.Keys && forall name | name in s.marks :: s.marks[name].from <= |s.log|
  }

  /** The last update of `name` in the log from position `from` on. */
  function LastSent(log: seq<Message>, from: nat, name: string): Option<Tracked>
    requires from <= |log|
  {
    if from == |log| then None
    else
      var m := log[|log| - 1];
      if m.AppUpdated? && m.app.name == name then Some(Track(m.app)) else LastSent(log[..|log| - 1], from, name)
  }

  /** What a subscriber who knew the application when it was added has been told since. */
  ghost function Told(s: State, name: string): Tracked
    requires Valid(s) && name in s.cache
  {
    match LastSent(s.log, s.marks[name].from, name)
    case Some(t) => t
    case None => s.marks[name].added
  }

  ghost predicate Lossless(s: State) {
    Valid(s) && forall name | name in s.cache && s.cache[name].history != [] :: Track(s.cache[name]) == Told(s, name)
  }

  predicate IsUpdateOf(m: Message, name: string) {
    m.AppUpdated? && m.app.name == name
  }

  /** Spelled out: the last update of `name` since it was added shows its present revision, health and sync status;
      without an update since, these are as they were when it was added. */
  ghost predicate UpToDate(s: State, name: string)
    requires Valid(s) && name in s.cache
  {
    var (app, mark) := (s.cache[name], s.marks[name]);
    if forall i | mark.from <= i < |s.log| :: !IsUpdateOf(s.log[i], name) then
      mark.added.revision == app.revision && mark.added.health == app.health && mark.added.sync == app.sync
    else
      exists i :: mark.from <= i < |s.log| && IsUpdateOf(s.log[i], name) &&
        (forall j | i < j < |s.log| :: !IsUpdateOf(s.log[j], name)) &&
        var m := s.log[i]; m.app.revision == app.revision && m.app.health == app.health && m.app.sync == app.sync
  }

  lemma {:induction false} LastSentIs(log: seq<Message>, from: nat, name: string) returns (i: int)
    requires from <= |log|
    ensures from - 1 <= i < |log| && forall j | i < j < |log| :: !IsUpdateOf(log[j], name)
    ensures i >= from ==> IsUpdateOf(log[i], name)
    ensures LastSent(log, from, name) == if i < from then None else Some(Track(log[i].app))
  {
    if from == |log| {
      i := from - 1;
    } else {
      var last := |log| - 1;
      if IsUpdateOf(log[last], name) {
        i := last;
      } else {
        i := LastSentIs(log[..last], from, name);
      }
    }
  }

  lemma UpToDateExactly(s: State, name: string)
    requires Valid(s) && name in s.cache
    ensures UpToDate(s, name) <==> Track(s.cache[name]) == Told(s, name)
  {
    var i := LastSentIs(s.log, s.marks[name].from, name);
  }

  /** A subscriber is told everything it tracks about the deployed applications if and only if it is up to date in
      this sense about each of them. */
  lemma LosslessIsUpToDate(s: State)
    requires Valid(s)
    ensures Lossless(s) <==> forall name | name in s.cache && s.cache[name].history != [] :: UpToDate(s, name)
  {
    forall name | name in s.cache
      ensures UpToDate(s, name) <==> Track(s.cache[name]) == Told(s, name)
    {
      UpToDateExactly(s, name);
    }
  }

  lemma ValidStep(s: State, step: Step)
    requires Valid(s) && Enabled(s, step)
    ensures Valid(Apply(s, step))
  {
  }

  /** A step says nothing about the applications it is not about. */
  lemma ToldFrame(s: State, step: Step, name: string)
    requires Valid(s) && Enabled(s, step) && name in s.cache
    requires name != (if step.Removed? then step.name else step.app.name)
    ensures Valid(Apply(s, step)) && Told(Apply(s, step), name) == Told(s, name)
  {
    var t := Apply(s, step);
    if t.log != s.log {
      assert t.log[..|t.log| - 1] == s.log;
    }
  }

  /** An update that passes the filter, is refused by the broker, and is news to the subscriber. */
  ghost predicate Misses(s: State, step: Step)
    requires Valid(s) && Enabled(s, step)
  {
    step.Changed? && !step.accepted &&
    ShouldPublish(s.cache[step.app.name], step.app) && Track(step.app) != Told(s, step.app.name)
  }

  lemma ToldAfterChange(s: State, app: App, accepted: bool)
    requires Valid(s) && app.name in s.cache
    ensures var t := Apply(s, Changed(app, accepted));
      Valid(t) && Told(t, app.name) ==
        if accepted && ShouldPublish(s.cache[app.name], app) then Track(app) else Told(s, app.name)
  {
    var t := Apply(s, Changed(app, accepted));
    if t.log != s.log {
      assert t.log[..|t.log| - 1] == s.log;
    }
  }

  /** One step keeps the subscriber up to date unless a piece of news is refused. */
  lemma StepKeepsLossless(s: State, step: Step)
    requires Lossless(s) && Enabled(s, step)
    ensures Lossless(Apply(s, step)) <==> !Misses(s, step)
  {
    var t := Apply(s, step);
    var subject := if step.Removed? then step.name else step.app.name;
    if step.Changed? {
      ToldAfterChange(s, step.app, step.accepted);
    }
    forall name | name in t.cache && Deployed(t.cache[name]) && name != subject
      ensures Valid(t) && Track(t.cache[name]) == Told(t, name)
    {
      ToldFrame(s, step, name);
    }
    if Misses(s, step) {
      assert Track(t.cache[subject]) != Told(t, subject);
    }
  }

  /** In a lossless state the local comparison of old and new is as good as comparing with what the
      subscriber has last been told; it repeats itself only for a new deployment. */
  lemma FilterIsExact(s: State, app: App)
    requires Lossless(s) && app.name in s.cache
    ensures var before := s.cache[app.name];
      && (before.history != [] && app.history != [] ==> (ShouldPublish(before, app) <==> Track(app) != Told(s, app.name)))
      && (before.history == [] && app.history != [] ==> ShouldPublish(before, app))
      && (app.history == [] ==> !ShouldPublish(before, app))
  {
    assert Deployed(s.cache[app.name]) ==> Track(s.cache[app.name]) == Told(s, app.name);
  }

  ghost predicate IsRun(s: State, steps: seq<Step>)
    decreases |steps|
  {
    steps == [] || (Enabled(s, steps[0]) && IsRun(Apply(s, steps[0]), steps[1..]))
  }

  ghost function Final(s: State, steps: seq<Step>): State
    requires IsRun(s, steps)
    decreases |steps|
  {
    if steps == [] then s else Final(Apply(s, steps[0]), steps[1..])
  }

  ghost predicate LosslessThroughout(s: State, steps: seq<Step>)
    requires IsRun(s, steps)
    decreases |steps|
  {
    Lossless(s) && (steps != [] ==> LosslessThroughout(Apply(s, steps[0]), steps[1..]))
  }

  ghost predicate NeverMisses(s: State, steps: seq<Step>)
    requires Valid(s) && IsRun(s, steps)
    decreases |steps|
  {
    steps != [] ==>
      (ValidStep(s, steps[0]); !Misses(s, steps[0]) && NeverMisses(Apply(s, steps[0]), steps[1..]))
  }

  /** Over every run of interleaved applications: whenever an application has a deployment, its revision,
      health and sync status are what the subscriber was last told, at every moment, if and only
      if no news is ever refused. */
  lemma {:induction false} LosslessExactly(s: State, steps: seq<Step>)
    requires IsRun(s, steps) && Lossless(s)
    ensures LosslessThroughout(s, steps) <==> NeverMisses(s, steps)
    decreases |steps|
  {
    if steps != [] {
      StepKeepsLossless(s, steps[0]);
      var t := Apply(s, steps[0]);
      if Lossless(t) {
        LosslessExactly(t, steps[1..]);
      } else {
        assert !LosslessThroughout(t, steps[1..]);
      }
    }
  }

  /** No message repeats what the subscriber was already told, except for an application that had lost its
      deployments in between. */
  ghost predicate NeverRepeats(s: State, steps: seq<Step>)
    requires Valid(s) && IsRun(s, steps)
    decreases |steps|
  {
    steps != [] ==>
      (ValidStep(s, steps[0]);
       && (steps[0].Changed? && Apply(s, steps[0]).log != s.log && Track(steps[0].app) == Told(s, steps[0].app.name) ==>
             s.cache[steps[0].app.name].history == [])
       && NeverRepeats(Apply(s, steps[0]), steps[1..]))
  }

  lemma {:induction false} LosslessNeverRepeats(s: State, steps: seq<Step>)
    requires IsRun(s, steps) && Lossless(s) && NeverMisses(s, steps)
    ensures NeverRepeats(s, steps)
    decreases |steps|
  {
    if steps != [] {
      StepKeepsLossless(s, steps[0]);
      if steps[0].Changed? {
        FilterIsExact(s, steps[0].app);
      }
      LosslessNeverRepeats(Apply(s, steps[0]), steps[1..]);
    }
  }

  // ---------- What is said ----------

  /** A change adds at most one message, which carries the new object: exactly when that has a deployment, and it is
      the first one or revision, health or sync status differ from the cached object. */
  lemma ChangeIsTold(s: State, app: App, accepted: bool)
    requires Enabled(s, Changed(app, accepted))
    ensures var (before, log) := (s.cache[app.name], Apply(s, Changed(app, accepted)).log);
      log ==
        if accepted && app.history != [] &&
           (before.history == [] || before.revision != app.revision || before.health != app.health || before.sync != app.sync)
        then s.log + [AppUpdated(app)] else s.log
  {
  }

  /** The step is the delivery of the very object the message carries. */
  predicate Tells(step: Step, m: Message) {
    match m
    case AppUpdated(app) => step == Changed(app, true) && app.history != []
    case AppDeleted(app) => step == Removed(app.name, Some(app), true)
  }

  lemma StepTells(s: State, step: Step)
    requires Enabled(s, step)
    ensures var log := Apply(s, step).log;
      log == s.log || (|log| == |s.log| + 1 && log[..|s.log|] == s.log && Tells(step, log[|s.log|]))
  {
    if step.Changed? {
      ChangeIsTold(s, step.app, step.accepted);
    }
  }

  /** The steps that gave rise to the messages of a run, one for each and in the same order. */
  ghost predicate Explains(ks: seq<nat>, steps: seq<Step>, log: seq<Message>) {
    && |ks| == |log|
    && (forall i | 0 <= i < |ks| :: ks[i] < |steps| && Tells(steps[ks[i]], log[i]))
    && (forall i, j | 0 <= i < j < |ks| :: ks[i] < ks[j])
  }

  lemma ExplainsLater(ks: seq<nat>, steps: seq<Step>, log: seq<Message>, step: Step) returns (later: seq<nat>)
    requires Explains(ks, steps, log)
    ensures Explains(later, [step] + steps, log) && forall i | 0 <= i < |later| :: later[i] > 0
  {
    later := seq(|ks|, i requires 0 <= i < |ks| => ks[i] + 1);
  }

  lemma ExplainsFirst(ks: seq<nat>, steps: seq<Step>, log: seq<Message>, m: Message)
    requires Explains(ks, steps, log) && (forall i | 0 <= i < |ks| :: ks[i] > 0)
    requires steps != [] && Tells(steps[0], m)
    ensures Explains([0] + ks, steps, [m] + log)
  {
  }

  lemma {:induction false} LogGrows(s: State, steps: seq<Step>)
    requires IsRun(s, steps)
    ensures s.log <= Final(s, steps).log
    decreases |steps|
  {
    if steps != [] {
      StepTells(s, steps[0]);
      LogGrows(Apply(s, steps[0]), steps[1..]);
    }
  }

  /** What is said from the state s on. */
  ghost function Said(s: State, steps: seq<Step>): seq<Message>
    requires IsRun(s, steps)
  {
    LogGrows(s, steps);
    Final(s, steps).log[|s.log|..]
  }

  lemma SaidFirst(s: State, steps: seq<Step>)
    requires IsRun(s, steps) && steps != []
    ensures var (t, rest) := (Apply(s, steps[0]), steps[1..]);
      if t.log == s.log then Said(s, steps) == Said(t, rest)
      else Said(s, steps) == [t.log[|s.log|]] + Said(t, rest) && Tells(steps[0], t.log[|s.log|])
  {
    StepTells(s, steps[0]);
    LogGrows(s, steps);
    LogGrows(Apply(s, steps[0]), steps[1..]);
  }

  /** No message is made up, repeated or out of order: over any run, the messages are those of distinct steps in the
      order of these, each carrying the object its step delivered. */
  lemma {:induction false} MessagesAreDelivered(s: State, steps: seq<Step>) returns (ks: seq<nat>)
    requires IsRun(s, steps)
    ensures s.log <= Final(s, steps).log && Explains(ks, steps, Final(s, steps).log[|s.log|..])
    decreases |steps|
  {
    LogGrows(s, steps);
    if steps == [] {
      ks := [];
    } else {
      var t := Apply(s, steps[0]);
      SaidFirst(s, steps);
      ks := MessagesAreDelivered(t, steps[1..]);
      ks := ExplainsLater(ks, steps[1..], Said(t, steps[1..]), steps[0]);
      assert [steps[0]] + steps[1..] == steps;
      if t.log != s.log {
        ExplainsFirst(ks, steps, Said(t, steps[1..]), t.log[|s.log|]);
        ks := [0] + ks;
      }
      assert Explains(ks, steps, Said(s, steps));
    }
  }

  // ---------- Deletions ----------

  /** The last message about `name`: what the subscriber goes by. */
  function LastMention(log: seq<Message>, name: string): Option<Message> {
    if log == [] then None
    else
      var m := log[|log| - 1];
      if m.app.name == name then Some(m) else LastMention(log[..|log| - 1], name)
  }

  /** The subscriber holds an application of this name to exist. */
  predicate Held(log: seq<Message>, name: string) {
    match LastMention(log, name)
    case Some(AppUpdated(_)) => true
    case _ => false
  }

  /** Every application the subscriber holds to exist does exist. */
  ghost predicate NoGhosts(s: State) {
    forall name | Held(s.log, name) :: name in s.cache
  }

  /** A removal that the subscriber needs to hear of and does not: the object was a tombstone, or the message
      was refused. */
  ghost predicate LeavesGhost(s: State, step: Step) {
    step.Removed? && Held(s.log, step.name) && !(step.final.Some? && step.accepted)
  }

  lemma {:induction false} LastMentionIsSaid(log: seq<Message>, name: string) returns (i: nat)
    requires LastMention(log, name).Some?
    ensures i < |log| && LastMention(log, name) == Some(log[i]) && log[i].app.name == name
  {
    var last := |log| - 1;
    if log[last].app.name == name {
      i := last;
    } else {
      i := LastMentionIsSaid(log[..last], name);
    }
  }

  /** After any run, an application the subscriber holds to exist is held as an object the informer delivered, with a
      deployment. */
  lemma HeldIsDelivered(steps: seq<Step>, name: string)
    requires IsRun(EMPTY, steps) && Held(Final(EMPTY, steps).log, name)
    ensures var app := LastMention(Final(EMPTY, steps).log, name).value.app;
      app.name == name && app.history != [] && Changed(app, true) in steps
  {
    var log := Final(EMPTY, steps).log;
    var ks := MessagesAreDelivered(EMPTY, steps);
    assert log[|EMPTY.log|..] == log;
    var i := LastMentionIsSaid(log, name);
    assert Tells(steps[ks[i]], log[i]);
  }

  lemma MentionAfterStep(s: State, step: Step, name: string)
    requires Enabled(s, step)
    ensures var log := Apply(s, step).log;
      LastMention(log, name) ==
        if |log| > |s.log| && log[|s.log|].app.name == name then Some(log[|s.log|]) else LastMention(s.log, name)
  {
    var log := Apply(s, step).log;
    if log != s.log {
      assert log[..|log| - 1] == s.log;
    }
  }

  lemma StepLeavesNoGhost(s: State, step: Step)
    requires NoGhosts(s) && Enabled(s, step)
    ensures NoGhosts(Apply(s, step)) <==> !LeavesGhost(s, step)
  {
    var t := Apply(s, step);
    if LeavesGhost(s, step) {
      MentionAfterStep(s, step, step.name);
      assert Held(t.log, step.name);
    } else {
      forall name | Held(t.log, name)
        ensures name in t.cache
      {
        MentionAfterStep(s, step, name);
      }
    }
  }

  ghost predicate NoGhostsThroughout(s: State, steps: seq<Step>)
    requires IsRun(s, steps)
    decreases |steps|
  {
    NoGhosts(s) && (steps != [] ==> NoGhostsThroughout(Apply(s, steps[0]), steps[1..]))
  }

  ghost predicate RemovalsAreHeard(s: State, steps: seq<Step>)
    requires IsRun(s, steps)
    decreases |steps|
  {
    steps != [] ==> !LeavesGhost(s, steps[0]) && RemovalsAreHeard(Apply(s, steps[0]), steps[1..])
  }

  /** Over every run, the subscriber never holds on to an application that is gone if and only if every removal
      of an application it had been told about arrives with its final object and is accepted. */
  lemma {:induction false} NoGhostsExactly(s: State, steps: seq<Step>)
    requires IsRun(s, steps) && NoGhosts(s)
    ensures NoGhostsThroughout(s, steps) <==> RemovalsAreHeard(s, steps)
    decreases |steps|
  {
    if steps != [] {
      StepLeavesNoGhost(s, steps[0]);
      var t := Apply(s, steps[0]);
      if NoGhosts(t) {
        NoGhostsExactly(t, steps[1..]);
      } else {
        assert !NoGhostsThroughout(t, steps[1..]);
      }
    }
  }

  ghost predicate DeletedAfter(log: seq<Message>, from: nat, name: string) {
    exists i :: from <= i < |log| && log[i].AppDeleted? && log[i].app.name == name
  }

  /** While an application is there, no deletion of it has been sent since it was added. */
  ghost predicate LivesUndeleted(s: State) {
    Valid(s) && forall name | name in s.marks :: !DeletedAfter(s.log, s.marks[name].from, name)
  }

  lemma StepKeepsUndeleted(s: State, step: Step)
    requires LivesUndeleted(s) && Enabled(s, step)
    ensures LivesUndeleted(Apply(s, step))
  {
    var t := Apply(s, step);
    forall name | name in t.marks
      ensures !DeletedAfter(t.log, t.marks[name].from, name)
    {
      assert name in s.marks && t.marks[name] == s.marks[name] ==> !DeletedAfter(s.log, s.marks[name].from, name);
    }
  }

  lemma {:induction false} RunKeepsUndeleted(s: State, steps: seq<Step>)
    requires LivesUndeleted(s) && IsRun(s, steps)
    ensures LivesUndeleted(Final(s, steps))
    decreases |steps|
  {
    if steps != [] {
      StepKeepsUndeleted(s, steps[0]);
      RunKeepsUndeleted(Apply(s, steps[0]), steps[1..]);
    }
  }

  /** Steps about other applications do not mention this one. */
  lemma {:induction false} OthersKeepSilent(s: State, steps: seq<Step>, name: string)
    requires IsRun(s, steps)
    requires forall i | 0 <= i < |steps| :: name != (if steps[i].Removed? then steps[i].name else steps[i].app.name)
    ensures var t := Final(s, steps);
      && s.log <= t.log && LastMention(t.log, name) == LastMention(s.log, name)
      && (forall i | |s.log| <= i < |t.log| :: t.log[i].app.name != name)
    decreases |steps|
  {
    if steps != [] {
      MentionAfterStep(s, steps[0], name);
      OthersKeepSilent(Apply(s, steps[0]), steps[1..], name);
    }
  }

  /** After any run, an application is removed and not mentioned again by the informer. Its deletion follows the
      point where it was added if and only if its final object was delivered and accepted; otherwise
      the subscriber still goes by the last message from before. */
  lemma RemovalIsTold(before: seq<Step>, name: string, final: Option<App>, accepted: bool, after: seq<Step>)
    requires IsRun(EMPTY, before) && Enabled(Final(EMPTY, before), Removed(name, final, accepted))
    requires IsRun(Apply(Final(EMPTY, before), Removed(name, final, accepted)), after)
    requires forall i | 0 <= i < |after| :: name != (if after[i].Removed? then after[i].name else after[i].app.name)
    ensures var s := Final(EMPTY, before);
      var t := Final(Apply(s, Removed(name, final, accepted)), after);
      && name in s.marks
      && (DeletedAfter(t.log, s.marks[name].from, name) <==> final.Some? && accepted)
      && LastMention(t.log, name) == if final.Some? && accepted then Some(AppDeleted(final.value)) else LastMention(s.log, name)
  {
    RunKeepsUndeleted(EMPTY, before);
    var s := Final(EMPTY, before);
    var step := Removed(name, final, accepted);
    var u := Apply(s, step);
    MentionAfterStep(s, step, name);
    OthersKeepSilent(u, after, name);
    var t := Final(u, after);
    if final.Some? && accepted {
      assert t.log[|s.log|] == u.log[|s.log|] == AppDeleted(final.value);
    } else {
      assert !DeletedAfter(s.log, s.marks[name].from, name);
      assert forall i | 0 <= i < |s.log| :: t.log[i] == s.log[i];
    }
  }

  lemma RunFrom(s: State, step: Step, t: State, rest: seq<Step>)
    requires Enabled(s, step) && t == Apply(s, step) && IsRun(t, rest)
    ensures IsRun(s, [step] + rest) && Final(s, [step] + rest) == Final(t, rest)
  {
    assert ([step] + rest)[1..] == rest;
  }

  /** A run that leaves such a ghost: an application is added, deployed and told about, and its removal arrives
      as a tombstone. */
  lemma TombstoneLeavesGhost(app: App) returns (steps: seq<Step>)
    requires Deployed(app)
    ensures IsRun(EMPTY, steps)
    ensures var t := Final(EMPTY, steps); Held(t.log, app.name) && app.name !in t.cache && !NoGhosts(t)
  {
    var undeployed := app.(history := []);
    var (add, change, remove) := (Added(undeployed), Changed(app, true), Removed(app.name, None, true));
    var s1 := Apply(EMPTY, add);
    var s2 := Apply(s1, change);
    var s3 := Apply(s2, remove);
    assert s2.log == [AppUpdated(app)] && s3.log == s2.log;
    assert Held(s3.log, app.name);
    RunFrom(s2, remove, s3, []);
    RunFrom(s1, change, s2, [remove]);
    RunFrom(EMPTY, add, s1, [change, remove]);
    steps := [add] + [change, remove];
  }

  // ---------- From the start ----------

  /** In particular, from the start, when every message is accepted. */
  lemma {:induction false} AcceptedNeverMisses(s: State, steps: seq<Step>)
    requires Valid(s) && IsRun(s, steps)
    requires forall i | 0 <= i < |steps| && steps[i].Changed? :: steps[i].accepted
    ensures NeverMisses(s, steps)
    decreases |steps|
  {
    if steps != [] {
      ValidStep(s, steps[0]);
      AcceptedNeverMisses(Apply(s, steps[0]), steps[1..]);
    }
  }

  lemma {:induction false} LosslessAtTheEnd(s: State, steps: seq<Step>)
    requires IsRun(s, steps) && LosslessThroughout(s, steps)
    ensures Lossless(Final(s, steps))
    decreases |steps|
  {
    if steps != [] {
      LosslessAtTheEnd(Apply(s, steps[0]), steps[1..]);
    }
  }

  lemma FilteredStreamLosesNothing(steps: seq<Step>)
    requires IsRun(EMPTY, steps)
    requires forall i | 0 <= i < |steps| && steps[i].Changed? :: steps[i].accepted
    ensures LosslessThroughout(EMPTY, steps) && NeverRepeats(EMPTY, steps)
    ensures var t := Final(EMPTY, steps);
      Valid(t) && forall name | name in t.cache && t.cache[name].history != [] :: UpToDate(t, name)
  {
    AcceptedNeverMisses(EMPTY, steps);
    LosslessExactly(EMPTY, steps);
    LosslessNeverRepeats(EMPTY, steps);
    LosslessAtTheEnd(EMPTY, steps);
    LosslessIsUpToDate(Final(EMPTY, steps));
  }
}
