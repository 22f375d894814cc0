/** When a pod finished, as far as its containers tell. Instants are integers and 0 is the zero
    time; `clock(i)` is what the clock shows if container i makes the code look at it. */
module FinishTimes {
  import opened Wrappers
  import opened PodVerdict

  /** The finish time a container counts with; a running container has none. */
  function Finish(c: ContainerStatus): Option<int> {
    if !c.state.running && c.state.terminated.Some? then Some(c.state.terminated.value.finishedAt) else None
  }

  function Latest(ctrs: Statuses, clock: nat -> int): int {
    if ctrs == [] then 0
    else
      var last := |ctrs| - 1;
      var before := Latest(ctrs[..last], clock);
      if ctrs[last].state.running then clock(last)
      else
        match ctrs[last].state.terminated
        case Some(t) => if t.finishedAt > before then t.finishedAt else before
        case None => before
  }

  method GetLatestFinishedAt(inits: Statuses, statuses: Statuses, clock: nat -> int) returns (latest: int)
    ensures latest == Latest(inits + statuses, clock)
  {
    latest := 0;
    var ctrs := inits + statuses;
    for i := 0 to |ctrs|
      invariant latest == Latest(ctrs[..i], clock)
    {
      var state := ctrs[i].state;
      if state.running {
        latest := clock(i);
      } else if state.terminated.Some? && state.terminated.value.finishedAt > latest {
        latest := state.terminated.value.finishedAt;
      }
      assert ctrs[..i + 1][..i] == ctrs[..i];
    }
    assert ctrs[..|ctrs|] == ctrs;
  }

  /** The position of the last running container, -1 if there is none. */
  function LastRunning(ctrs: Statuses): (k: int)
    ensures -1 <= k < |ctrs|
    ensures k >= 0 ==> ctrs[k].state.running
    ensures forall i | k < i < |ctrs| :: !ctrs[i].state.running
  {
    if ctrs == [] then -1
    else if ctrs[|ctrs| - 1].state.running then |ctrs| - 1
    else LastRunning(ctrs[..|ctrs| - 1])
  }

  function Base(ctrs: Statuses, clock: nat -> int): int {
    var k := LastRunning(ctrs);
    if k >= 0 then clock(k) else 0
  }

  ghost predicate FinishesAt(ctrs: Statuses, i: int, t: int) {
    0 <= i < |ctrs| && Finish(ctrs[i]) == Some(t)
  }

  /** The result is the largest of the last clock reading and the finish times recorded after the
      container that caused it; without a running container, of all finish times and zero. */
  lemma {:induction false} LatestIsMaximum(ctrs: Statuses, clock: nat -> int)
    ensures var (k, m) := (LastRunning(ctrs), Latest(ctrs, clock));
      && m >= Base(ctrs, clock)
      && (forall i, t | i > k && FinishesAt(ctrs, i, t) :: t <= m)
      && (m == Base(ctrs, clock) || exists i :: i > k && FinishesAt(ctrs, i, m))
  {
    if ctrs != [] {
      var last := |ctrs| - 1;
      var shorter := ctrs[..last];
      LatestIsMaximum(shorter, clock);
      if !ctrs[last].state.running {
        var (k, m) := (LastRunning(ctrs), Latest(ctrs, clock));
        var n := Latest(shorter, clock);
        assert forall i, t | i < last :: FinishesAt(ctrs, i, t) <==> FinishesAt(shorter, i, t);
        if m != n {
          assert FinishesAt(ctrs, last, m);
        } else if m != Base(ctrs, clock) {
          var i :| i > k && FinishesAt(shorter, i, m);
          assert FinishesAt(ctrs, i, m);
        }
      }
    }
  }

  /** The result bounds every finish time if and only if no finish time listed before the last running
      container is later than that container's clock reading and than all finish times after it. */
  lemma BoundsExactly(ctrs: Statuses, clock: nat -> int)
    ensures (forall i, t | FinishesAt(ctrs, i, t) :: t <= Latest(ctrs, clock)) <==>
      forall i, t | i < LastRunning(ctrs) && FinishesAt(ctrs, i, t) ::
        t <= clock(LastRunning(ctrs)) || exists j, u :: j > LastRunning(ctrs) && FinishesAt(ctrs, j, u) && t <= u
  {
    LatestIsMaximum(ctrs, clock);
    var (k, m) := (LastRunning(ctrs), Latest(ctrs, clock));
    if forall i, t | FinishesAt(ctrs, i, t) :: t <= m {
      forall i, t | i < k && FinishesAt(ctrs, i, t)
        ensures t <= clock(k) || exists j, u :: j > k && FinishesAt(ctrs, j, u) && t <= u
      {
        assert t <= m;
      }
    }
  }

  /** No container is still running, or none claims to have finished later than `now`. */
  ghost predicate NoneAfter(ctrs: Statuses, now: int) {
    (exists c :: c in ctrs && c.state.running) ==>
      forall c | c in ctrs && Finish(c).Some? :: Finish(c).value <= now
  }

  /** Every container that is not running and terminated, whatever its exit code, had finished by t. */
  ghost predicate AllFinishedBy(ctrs: Statuses, t: int) {
    forall c | c in ctrs && !c.state.running && c.state.terminated.Some? :: c.state.terminated.value.finishedAt <= t
  }

  /** If no finish time lies after the last reading, the result is that reading while any container is
      running, and otherwise the latest finish time, zero if there is none. */
  lemma LatestWithoutSkew(ctrs: Statuses, clock: nat -> int)
    requires LastRunning(ctrs) >= 0 ==> AllFinishedBy(ctrs, clock(LastRunning(ctrs)))
    ensures var m := Latest(ctrs, clock);
      && AllFinishedBy(ctrs, m)
      && (if LastRunning(ctrs) >= 0 then m == clock(LastRunning(ctrs))
          else m >= 0 && (m == 0 || exists c ::
                            c in ctrs && c.state.terminated.Some? && c.state.terminated.value.finishedAt == m))
  {
    LatestIsMaximum(ctrs, clock);
    var (k, m) := (LastRunning(ctrs), Latest(ctrs, clock));
    if k >= 0 {
      assert ctrs[k] in ctrs;
    }
    forall c | c in ctrs && !c.state.running && c.state.terminated.Some?
      ensures c.state.terminated.value.finishedAt <= m
    {
      var i :| 0 <= i < |ctrs| && ctrs[i] == c;
      assert FinishesAt(ctrs, i, c.state.terminated.value.finishedAt);
    }
    if m != Base(ctrs, clock) {
      var i :| i > k && FinishesAt(ctrs, i, m);
      assert ctrs[i] in ctrs;
    }
  }

  /** For a fixed reading the result does not depend on the order of the containers. */
  lemma LatestIgnoresOrder(a: Statuses, b: Statuses, now: int)
    requires multiset(a) == multiset(b) && NoneAfter(a, now)
    ensures Latest(a, _ => now) == Latest(b, _ => now)
  {
    SameMembers(a, b);
    var clock: nat -> int := _ => now;
    LatestWithoutSkew(a, clock);
    LatestWithoutSkew(b, clock);
    if LastRunning(a) >= 0 {
      assert a[LastRunning(a)] in b;
    }
    if LastRunning(b) >= 0 {
      assert b[LastRunning(b)] in a;
    }
  }

  lemma {:induction false} NoRunnerInTheRest(inits: Statuses, s: Statuses)
    requires forall c | c in s :: !c.state.running
    ensures LastRunning(inits + s) == LastRunning(inits)
  {
    if s == [] {
      assert inits + s == inits;
    } else {
      var last := |s| - 1;
      assert (inits + s)[..|inits + s| - 1] == inits + s[..last];
      assert (inits + s)[|inits + s| - 1] == s[last];
      NoRunnerInTheRest(inits, s[..last]);
    }
  }

  lemma NoRunner(ctrs: Statuses)
    requires forall c | c in ctrs :: !c.state.running
    ensures LastRunning(ctrs) == -1
  {
  }

  /** Without a running container neither the order nor the clock matters. */
  lemma LatestIgnoresClock(a: Statuses, b: Statuses, c1: nat -> int, c2: nat -> int)
    requires multiset(a) == multiset(b) && forall c | c in a :: !c.state.running
    ensures Latest(a, c1) == Latest(b, c2)
  {
    SameMembers(a, b);
    NoRunner(a);
    NoRunner(b);
    LatestWithoutSkew(a, c1);
    LatestWithoutSkew(b, c2);
  }

  lemma TakeOut(a: Statuses, c: ContainerStatus) returns (rest: Statuses)
    requires c in a
    ensures multiset(rest) + multiset{c} == multiset(a)
  {
    var i :| 0 <= i < |a| && a[i] == c;
    rest := a[..i] + a[i + 1..];
    assert a == a[..i] + [a[i]] + a[i + 1..];
  }

  ghost predicate SameContainers(a: Statuses, b: Statuses) {
    multiset(a) == multiset(b)
  }

  /** For a fixed reading, the result is the same in every order of the containers if and only if nothing is
      running or nothing claims to have finished after the reading. */
  lemma OrderFreeTimeExactly(a: Statuses, now: int)
    ensures (forall b | SameContainers(a, b) :: Latest(b, _ => now) == Latest(a, _ => now)) <==> NoneAfter(a, now)
  {
    if NoneAfter(a, now) {
      forall b | SameContainers(a, b)
        ensures Latest(b, _ => now) == Latest(a, _ => now)
      {
        LatestIgnoresOrder(a, b, now);
      }
    } else {
      var r :| r in a && r.state.running;
      var late :| late in a && Finish(late).Some? && Finish(late).value > now;
      var others := TakeOut(a, r);
      SameMembers(a, others + [r]);
      assert late in others;
      var rest := TakeOut(others, late);
      var (b, d) := (rest + [late] + [r], rest + [r] + [late]);
      assert b[..|b| - 1] == rest + [late] && d[..|d| - 1] == rest + [r] && (rest + [r])[..|rest|] == rest;
      var clock: nat -> int := _ => now;
      assert Latest(b, clock) == now;
      assert Latest(rest + [r], clock) == now && Latest(d, clock) == Finish(late).value;
      assert SameContainers(a, b) && SameContainers(a, d);
    }
  }

  /** Such a clock: a container that finished at 10 is listed before one that is running at 5. */
  lemma SkewErasesFinishTime() returns (ctrs: Statuses)
    ensures FinishesAt(ctrs, 0, 10) && Latest(ctrs, _ => 5) == 5
  {
    var finished := ContainerStatus("a", ContainerState(None, false, Some(Terminated(0, "", "", 10))));
    var running := ContainerStatus("b", ContainerState(None, true, None));
    ctrs := [finished, running];
    assert ctrs[..1] == [finished];
  }

  // ---------- The orders the sort can leave ----------

  /** A container of rank r is running, and none behind it in the ranking is. */
  ghost predicate RunsLast(ctrs: Statuses, r: nat) {
    && (exists c :: c in ctrs && c.state.running && Rank(c.name) == r)
    && (forall c | c in ctrs && c.state.running :: Rank(c.name) <= r)
  }

  /** No finish time in rank r is later than the reading and than every finish time behind it. */
  ghost predicate NoneAfterInRank(ctrs: Statuses, now: int, r: nat) {
    forall c | c in ctrs && Finish(c).Some? && Rank(c.name) == r ::
      Finish(c).value <= now ||
      exists d :: d in ctrs && Finish(d).Some? && Rank(d.name) > r && Finish(c).value <= Finish(d).value
  }

  lemma LastRunningIsLast(all: Statuses, p: nat)
    requires p < |all| && all[p].state.running
    ensures LastRunning(all) >= p
  {
  }

  lemma LastRunningFollows(inits: Statuses, s: Statuses, i: nat)
    requires i < |s| && s[i].state.running
    ensures var k := LastRunning(inits + s);
      k >= |inits| + i && (inits + s)[k] == s[k - |inits|] && s[k - |inits|].state.running
  {
    var (all, k) := (inits + s, LastRunning(inits + s));
    assert all[|inits| + i] == s[i];
    LastRunningIsLast(all, |inits| + i);
    assert all[k] == s[k - |inits|];
  }

  lemma LaterRunnerInRank(ctrs: Statuses, s: Statuses, i: nat, j: nat, r: nat)
    requires SortedPermutation(ctrs, s) && RunsLast(ctrs, r)
    requires i <= j < |s| && s[j].state.running && Rank(s[i].name) == r
    ensures Rank(s[j].name) == r
  {
    SameMembers(ctrs, s);
    assert s[j] in s;
  }

  lemma RunnerOfRank(ctrs: Statuses, s: Statuses, r: nat) returns (i: nat)
    requires SortedPermutation(ctrs, s) && RunsLast(ctrs, r)
    ensures i < |s| && s[i].state.running && Rank(s[i].name) == r
  {
    SameMembers(ctrs, s);
    var c :| c in ctrs && c.state.running && Rank(c.name) == r;
    i :| 0 <= i < |s| && s[i] == c;
  }

  /** The last running container of a sorted list is one of the last running rank. */
  lemma LastRunningIsInRank(inits: Statuses, ctrs: Statuses, s: Statuses, r: nat)
    requires SortedPermutation(ctrs, s) && RunsLast(ctrs, r)
    ensures var k := LastRunning(inits + s);
      k >= |inits| && (inits + s)[k] == s[k - |inits|] && Rank(s[k - |inits|].name) == r
  {
    var i := RunnerOfRank(ctrs, s, r);
    LastRunningFollows(inits, s, i);
    LaterRunnerInRank(ctrs, s, i, LastRunning(inits + s) - |inits|, r);
  }

  /** Everything behind the last running rank counts; of that rank only what the sort put last. */
  lemma SortedLatest(inits: Statuses, ctrs: Statuses, s: Statuses, now: int, r: nat)
    requires SortedPermutation(ctrs, s) && RunsLast(ctrs, r)
    ensures var m := Latest(inits + s, _ => now);
      && m >= now
      && (forall c | c in ctrs && Finish(c).Some? && Rank(c.name) > r :: Finish(c).value <= m)
      && (m == now || exists c :: c in ctrs && Finish(c) == Some(m) && Rank(c.name) >= r)
  {
    SameMembers(ctrs, s);
    var clock: nat -> int := _ => now;
    var (all, k, m) := (inits + s, LastRunning(inits + s), Latest(inits + s, _ => now));
    LastRunningIsInRank(inits, ctrs, s, r);
    LatestIsMaximum(all, clock);
    forall c | c in ctrs && Finish(c).Some? && Rank(c.name) > r
      ensures Finish(c).value <= m
    {
      var i :| 0 <= i < |s| && s[i] == c;
      assert all[k] == s[k - |inits|];
      assert FinishesAt(all, |inits| + i, Finish(c).value);
    }
    if m != now {
      var i :| i > k && FinishesAt(all, i, m);
      assert all[i] == s[i - |inits|] && all[k] == s[k - |inits|];
      assert s[i - |inits|] in s;
    }
  }

  lemma SortedLatestAtMost(inits: Statuses, ctrs: Statuses, s: Statuses, t: Statuses, now: int, r: nat)
    requires SortedPermutation(ctrs, s) && SortedPermutation(ctrs, t) && RunsLast(ctrs, r) && NoneAfterInRank(ctrs, now, r)
    ensures Latest(inits + s, _ => now) <= Latest(inits + t, _ => now)
  {
    SortedLatest(inits, ctrs, s, now, r);
    SortedLatest(inits, ctrs, t, now, r);
  }

  /** A sorted list in which a given container comes last of its rank. */
  lemma PutLast(ctrs: Statuses, c: ContainerStatus) returns (s: Statuses, l: nat)
    requires c in ctrs
    ensures SortedPermutation(ctrs, s) && l < |s| && s[l] == c
    ensures forall i | l < i < |s| :: Rank(s[i].name) > Rank(c.name)
  {
    var u := SortExists(ctrs);
    SameMembers(ctrs, u);
    var i :| 0 <= i < |u| && u[i] == c;
    l := i;
    while l + 1 < |u| && Rank(u[l + 1].name) == Rank(c.name)
      invariant i <= l < |u| && Rank(u[l].name) == Rank(c.name)
    {
      l := l + 1;
    }
    SwapKeepsSorted(u, i, l);
    s := u[l := u[i]][i := u[l]];
  }

  /** With c last of its rank and running, only what is behind that rank counts besides the reading. */
  lemma RunnerLast(inits: Statuses, ctrs: Statuses, s: Statuses, l: nat, now: int)
    requires SortedPermutation(ctrs, s) && l < |s| && s[l].state.running && RunsLast(ctrs, Rank(s[l].name))
    requires forall i | l < i < |s| :: Rank(s[i].name) > Rank(s[l].name)
    ensures var m := Latest(inits + s, _ => now);
      m == now || exists c :: c in ctrs && Finish(c) == Some(m) && Rank(c.name) > Rank(s[l].name)
  {
    SameMembers(ctrs, s);
    var all := inits + s;
    var (k, m) := (LastRunning(all), Latest(all, _ => now));
    LastRunningIsInRank(inits, ctrs, s, Rank(s[l].name));
    LatestIsMaximum(all, _ => now);
    assert all[|inits| + l] == s[l];
    assert k == |inits| + l by {
      assert all[k] == s[k - |inits|];
    }
    if m != now {
      var i :| i > k && FinishesAt(all, i, m);
      assert all[i] == s[i - |inits|] && s[i - |inits|] in s;
    }
  }

  /** With c last of its rank and finished, its finish time counts. */
  lemma FinisherLast(inits: Statuses, ctrs: Statuses, s: Statuses, l: nat, now: int)
    requires SortedPermutation(ctrs, s) && l < |s| && Finish(s[l]).Some? && RunsLast(ctrs, Rank(s[l].name))
    requires forall i | l < i < |s| :: Rank(s[i].name) > Rank(s[l].name)
    ensures Latest(inits + s, _ => now) >= Finish(s[l]).value
  {
    var all := inits + s;
    var k := LastRunning(all);
    LastRunningIsInRank(inits, ctrs, s, Rank(s[l].name));
    LatestIsMaximum(all, _ => now);
    assert all[|inits| + l] == s[l];
    assert k < |inits| + l by {
      assert all[k] == s[k - |inits|];
    }
    assert FinishesAt(all, |inits| + l, Finish(s[l]).value);
  }

  ghost predicate SameTimeInAllOrders(inits: Statuses, ctrs: Statuses, now: int) {
    forall s, t | SortedPermutation(ctrs, s) && SortedPermutation(ctrs, t) ::
      Latest(inits + s, _ => now) == Latest(inits + t, _ => now)
  }

  /** Over exactly the orders the sort can leave, for a fixed reading and while a regular container is running:
      the finish time is the same in all of them if and only if no finish time in the last running rank is
      later than the reading and than everything behind that rank. */
  lemma SortedTimeOrderFreeExactly(inits: Statuses, ctrs: Statuses, now: int, r: nat)
    requires RunsLast(ctrs, r)
    ensures SameTimeInAllOrders(inits, ctrs, now) <==> NoneAfterInRank(ctrs, now, r)
  {
    if NoneAfterInRank(ctrs, now, r) {
      forall s, t | SortedPermutation(ctrs, s) && SortedPermutation(ctrs, t)
        ensures Latest(inits + s, _ => now) == Latest(inits + t, _ => now)
      {
        SortedLatestAtMost(inits, ctrs, s, t, now, r);
        SortedLatestAtMost(inits, ctrs, t, s, now, r);
      }
    } else {
      var late :| late in ctrs && Finish(late).Some? && Rank(late.name) == r && Finish(late).value > now &&
        forall d | d in ctrs && Finish(d).Some? && Rank(d.name) > r :: Finish(late).value > Finish(d).value;
      var runner :| runner in ctrs && runner.state.running && Rank(runner.name) == r;
      var s, k := PutLast(ctrs, runner);
      var t, l := PutLast(ctrs, late);
      RunnerLast(inits, ctrs, s, k, now);
      FinisherLast(inits, ctrs, t, l, now);
      assert Latest(inits + s, _ => now) < Latest(inits + t, _ => now);
    }
  }

  lemma RestAtMost(inits: Statuses, s: Statuses, t: Statuses, now: int)
    requires multiset(s) == multiset(t) && forall c | c in s :: !c.state.running
    ensures Latest(inits + s, _ => now) <= Latest(inits + t, _ => now)
  {
    SameMembers(s, t);
    var clock: nat -> int := _ => now;
    var (a, b, m) := (inits + s, inits + t, Latest(inits + s, _ => now));
    NoRunnerInTheRest(inits, s);
    NoRunnerInTheRest(inits, t);
    LatestIsMaximum(a, clock);
    LatestIsMaximum(b, clock);
    assert Base(a, clock) == Base(b, clock);
    if m != Base(a, clock) {
      var i :| i > LastRunning(a) && FinishesAt(a, i, m);
      if i < |inits| {
        assert a[i] == b[i];
        assert FinishesAt(b, i, m);
      } else {
        assert a[i] == s[i - |inits|] && s[i - |inits|] in s;
        var j :| 0 <= j < |t| && t[j] == a[i];
        assert b[|inits| + j] == t[j];
        assert FinishesAt(b, |inits| + j, m);
      }
    }
  }

  /** While no regular container is running the sort never makes a difference, whatever the init containers do. */
  lemma SortedTimeOrderFree(inits: Statuses, ctrs: Statuses, now: int)
    requires forall c | c in ctrs :: !c.state.running
    ensures SameTimeInAllOrders(inits, ctrs, now)
  {
    forall s, t | SortedPermutation(ctrs, s) && SortedPermutation(ctrs, t)
      ensures Latest(inits + s, _ => now) == Latest(inits + t, _ => now)
    {
      SameMembers(ctrs, s);
      SameMembers(ctrs, t);
      RestAtMost(inits, s, t, now);
      RestAtMost(inits, t, s, now);
    }
  }
}
