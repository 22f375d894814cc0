/** Why a pod failed: the first decisive container in an order that an unstable sort leaves partly
    open. The theory of that choice, on sequences. */
module PodVerdict {
  import opened Wrappers
  import opened Decimal
  import opened FailureMessages

  const INIT_CONTAINER := "init"
  const MAIN_CONTAINER := "main"
  const WAIT_CONTAINER := "wait"

  datatype Terminated = Terminated(exitCode: int32, reason: string, message: string, finishedAt: int)
  datatype Waiting = Waiting(reason: string, message: string)

  /** The three parts are independent pointers in the Kubernetes API. */
  datatype ContainerState = ContainerState(waiting: Option<Waiting>, running: bool, terminated: Option<Terminated>)
  datatype ContainerStatus = ContainerStatus(name: string, state: ContainerState)

  /** Argo's node phases; a workflow phase is the same text. */
  datatype Phase = Pending | Running | Succeeded | Skipped | Failed | Error | Omitted

  datatype Verdict = Verdict(phase: Phase, message: string)

  type Statuses = seq<ContainerStatus>

  function Rank(name: string): nat {
    if name == MAIN_CONTAINER then 1 else if name == WAIT_CONTAINER then 2 else 3
  }

  predicate IsExecutor(name: string) {
    name == INIT_CONTAINER || name == MAIN_CONTAINER || name == WAIT_CONTAINER
  }

  /** The container settles the verdict: it never started, or it failed and is not a sidecar that
      was killed on purpose. */
  predicate Decisive(c: ContainerStatus) {
    c.state.waiting.Some? ||
    (c.state.terminated.Some? &&
     var code := c.state.terminated.value.exitCode;
     code != 0 && (IsExecutor(c.name) || (code != 137 && code != 143)))
  }

  function VerdictOf(c: ContainerStatus): Verdict
    requires Decisive(c)
  {
    if c.state.waiting.Some? then
      var w := c.state.waiting.value;
      Verdict(Error, WaitingMessage(c.name, w.reason, w.message))
    else
      var t := c.state.terminated.value;
      Verdict(if c.name == INIT_CONTAINER || c.name == WAIT_CONTAINER then Error else Failed,
              ExitMessage(t.reason, t.exitCode, t.message))
  }

  const SUCCESS := Verdict(Succeeded, "")

  ghost predicate AnyDecisive(ctrs: Statuses) {
    exists c :: c in ctrs && Decisive(c)
  }

  /** The verdict of the first decisive container. */
  function Scan(ctrs: Statuses): Verdict {
    if ctrs == [] then SUCCESS
    else if Decisive(ctrs[0]) then VerdictOf(ctrs[0])
    else Scan(ctrs[1..])
  }

  lemma {:induction false} ScanIsFirst(ctrs: Statuses, k: nat)
    requires k < |ctrs| && Decisive(ctrs[k])
    requires forall i | 0 <= i < k :: !Decisive(ctrs[i])
    ensures Scan(ctrs) == VerdictOf(ctrs[k])
  {
    if k > 0 {
      ScanIsFirst(ctrs[1..], k - 1);
    }
  }

  lemma {:induction false} ScanFindsFirst(ctrs: Statuses) returns (k: nat)
    requires AnyDecisive(ctrs)
    ensures k < |ctrs| && Decisive(ctrs[k]) && Scan(ctrs) == VerdictOf(ctrs[k])
    ensures forall i | 0 <= i < k :: !Decisive(ctrs[i])
  {
    if Decisive(ctrs[0]) {
      k := 0;
    } else {
      var c :| c in ctrs && Decisive(c);
      assert c in ctrs[1..];
      k := ScanFindsFirst(ctrs[1..]);
      k := k + 1;
    }
  }

  lemma {:induction false} ScanFindsNone(ctrs: Statuses)
    requires !AnyDecisive(ctrs)
    ensures Scan(ctrs) == SUCCESS
  {
    if ctrs != [] {
      assert ctrs[0] in ctrs;
      assert forall c | c in ctrs[1..] :: c in ctrs;
      ScanFindsNone(ctrs[1..]);
    }
  }

  lemma {:induction false} ScanConcat(a: Statuses, b: Statuses)
    ensures Scan(a + b) == if AnyDecisive(a) then Scan(a) else Scan(b)
  {
    if AnyDecisive(a) {
      var k := ScanFindsFirst(a);
      ScanIsFirst(a + b, k);
    } else if a == [] {
      assert a + b == b;
    } else {
      assert a[0] in a;
      assert (a + b)[1..] == a[1..] + b;
      ScanConcat(a[1..], b);
      assert forall c | c in a[1..] :: c in a;
    }
  }

  // ---------- SUCCESS ----------

  predicate Harmless(c: ContainerStatus) {
    c.state.waiting.None? &&
    (c.state.terminated.None? ||
     var code := c.state.terminated.value.exitCode;
     code == 0 || ((code == 137 || code == 143) && c.name !in {"init", "main", "wait"}))
  }

  /** The verdict is success exactly when no container is waiting and every non-zero exit is a kill
      of a container that is none of the executor's own. */
  lemma SucceedsExactly(ctrs: Statuses)
    ensures Scan(ctrs).phase == Succeeded <==> forall c | c in ctrs :: Harmless(c)
    ensures Scan(ctrs).phase == Succeeded <==> Scan(ctrs) == SUCCESS
  {
    if AnyDecisive(ctrs) {
      var k := ScanFindsFirst(ctrs);
      assert ctrs[k] in ctrs;
    } else {
      ScanFindsNone(ctrs);
    }
  }

  /** The first decisive container is what is reported. The phase says who is to blame: Failed for an exit of the
      main container or of a sidecar, Error for anything about starting up or about the executor. The text
      is that of its waiting state if it has one, else that of its exit. */
  lemma PhaseSaysWho(ctrs: Statuses, k: nat)
    requires k < |ctrs| && Decisive(ctrs[k]) && forall i | 0 <= i < k :: !Decisive(ctrs[i])
    ensures Scan(ctrs).phase == Failed <==> ctrs[k].state.waiting.None? && ctrs[k].name !in {"init", "wait"}
    ensures Scan(ctrs).phase == Error <==> Scan(ctrs).phase != Failed
    ensures Scan(ctrs).message ==
      match ctrs[k].state.waiting
      case Some(w) =>
        "Pod failed before " + ctrs[k].name + " container starts due to " + w.reason + ": " + w.message
      case None =>
        var t := ctrs[k].state.terminated.value;
        t.reason + " (exit code " + Itoa(t.exitCode) + ")" + (if t.message == "" then "" else ": " + t.message)
  {
    ScanIsFirst(ctrs, k);
  }

  // ---------- The order left open by the sort ----------

  ghost predicate Sorted(ctrs: Statuses) {
    forall i, j | 0 <= i < j < |ctrs| :: Rank(ctrs[i].name) <= Rank(ctrs[j].name)
  }

  /** All that sort.Slice promises: the order of equal ranks is arbitrary. */
  ghost predicate SortedPermutation(ctrs: Statuses, s: Statuses) {
    Sorted(s) && multiset(s) == multiset(ctrs)
  }

  /** The documented preference among regular containers: main, then wait, then all others alike. */
  predicate Preferred(name: string, other: string) {
    (name == "main" && other != "main") || (name == "wait" && other != "main" && other != "wait")
  }

  /** Decisive, with no decisive container preferred to it. */
  ghost predicate Foremost(ctrs: Statuses, c: ContainerStatus) {
    c in ctrs && Decisive(c) && forall d | d in ctrs && Decisive(d) :: !Preferred(d.name, c.name)
  }

  lemma RankIsPreference(name: string, other: string)
    ensures Rank(name) < Rank(other) <==> Preferred(name, other)
  {
  }

  /** The verdicts the documentation allows: init containers by position, then main, then wait, then
      any of the others. */
  ghost predicate Admissible(inits: Statuses, ctrs: Statuses, v: Verdict) {
    if AnyDecisive(inits) then v == Scan(inits)
    else if AnyDecisive(ctrs) then exists c :: Foremost(ctrs, c) && v == VerdictOf(c)
    else v == SUCCESS
  }

  lemma SameMembers(a: Statuses, b: Statuses)
    requires multiset(a) == multiset(b)
    ensures forall c :: c in a <==> c in b
  {
    forall c ensures c in a <==> c in b {
      assert c in a <==> c in multiset(a);
      assert c in b <==> c in multiset(b);
    }
  }

  lemma SwapKeepsSorted(s: Statuses, k: nat, i: nat)
    requires k <= i < |s| && Sorted(s) && Rank(s[k].name) == Rank(s[i].name)
    ensures var t := s[i := s[k]][k := s[i]]; Sorted(t) && multiset(t) == multiset(s)
  {
    var t := s[i := s[k]][k := s[i]];
    assert forall j | 0 <= j < |s| :: Rank(t[j].name) == Rank(s[j].name);
  }

  /** A decisive container of minimal rank can be brought to the front of its rank. */
  lemma BringForward(ctrs: Statuses, s: Statuses, c: ContainerStatus) returns (t: Statuses)
    requires SortedPermutation(ctrs, s) && Foremost(ctrs, c)
    ensures SortedPermutation(ctrs, t) && Scan(t) == VerdictOf(c)
  {
    SameMembers(ctrs, s);
    var i :| 0 <= i < |s| && s[i] == c;
    var k := ScanFindsFirst(s);
    assert s[k] in s;
    RankIsPreference(s[k].name, c.name);
    SwapKeepsSorted(s, k, i);
    t := s[i := s[k]][k := c];
    ScanIsFirst(t, k);
  }

  function OfRank(ctrs: Statuses, r: nat): (s: Statuses)
    ensures forall c | c in s :: Rank(c.name) == r
  {
    if ctrs == [] then []
    else if Rank(ctrs[0].name) == r then [ctrs[0]] + OfRank(ctrs[1..], r)
    else OfRank(ctrs[1..], r)
  }

  lemma {:induction false} BucketsPermute(ctrs: Statuses)
    ensures multiset(OfRank(ctrs, 1)) + multiset(OfRank(ctrs, 2)) + multiset(OfRank(ctrs, 3)) == multiset(ctrs)
  {
    if ctrs != [] {
      BucketsPermute(ctrs[1..]);
      assert ctrs == [ctrs[0]] + ctrs[1..];
    }
  }

  lemma SortExists(ctrs: Statuses) returns (s: Statuses)
    ensures SortedPermutation(ctrs, s)
  {
    var (a, b, c) := (OfRank(ctrs, 1), OfRank(ctrs, 2), OfRank(ctrs, 3));
    s := a + b + c;
    BucketsPermute(ctrs);
    forall i | 0 <= i < |s|
      ensures Rank(s[i].name) == if i < |a| then 1 else if i < |a| + |b| then 2 else 3
    {
      assert s[i] == if i < |a| then a[i] else if i < |a| + |b| then b[i - |a|] else c[i - |a| - |b|];
    }
  }

  lemma ScanIsAdmissible(inits: Statuses, ctrs: Statuses, s: Statuses)
    requires SortedPermutation(ctrs, s)
    ensures Admissible(inits, ctrs, Scan(inits + s))
  {
    SameMembers(ctrs, s);
    ScanConcat(inits, s);
    if AnyDecisive(inits) {
    } else if AnyDecisive(ctrs) {
      assert AnyDecisive(s);
      var k := ScanFindsFirst(s);
      forall d | d in ctrs && Decisive(d)
        ensures !Preferred(d.name, s[k].name)
      {
        var j :| 0 <= j < |s| && s[j] == d;
        RankIsPreference(d.name, s[k].name);
      }
      assert s[k] in s;
      assert Foremost(ctrs, s[k]);
    } else {
      assert !AnyDecisive(s);
      ScanFindsNone(s);
    }
  }

  /** The verdicts some sorted permutation leads to are exactly the admissible ones. */
  lemma PossibleVerdicts(inits: Statuses, ctrs: Statuses, v: Verdict)
    ensures (exists s :: SortedPermutation(ctrs, s) && Scan(inits + s) == v) <==> Admissible(inits, ctrs, v)
  {
    forall s | SortedPermutation(ctrs, s) && Scan(inits + s) == v
      ensures Admissible(inits, ctrs, v)
    {
      ScanIsAdmissible(inits, ctrs, s);
    }
    if Admissible(inits, ctrs, v) {
      var s := SortExists(ctrs);
      if !AnyDecisive(inits) && AnyDecisive(ctrs) {
        var c :| Foremost(ctrs, c) && v == VerdictOf(c);
        s := BringForward(ctrs, s, c);
      } else {
        ScanIsAdmissible(inits, ctrs, s);
      }
      ScanConcat(inits, s);
      assert SortedPermutation(ctrs, s) && Scan(inits + s) == v;
    }
  }

  /** A decisive container of this name has the verdict v. */
  ghost predicate Reports(ctrs: Statuses, name: string, v: Verdict) {
    exists c :: c in ctrs && c.name == name && Decisive(c) && v == VerdictOf(c)
  }

  ghost predicate Decides(ctrs: Statuses, name: string) {
    exists c :: c in ctrs && c.name == name && Decisive(c)
  }

  /** A decisive main container is reported, else a decisive wait container, else some decisive container, else
      success. */
  ghost predicate ReportsByName(ctrs: Statuses, v: Verdict) {
    if Decides(ctrs, "main") then Reports(ctrs, "main", v)
    else if Decides(ctrs, "wait") then Reports(ctrs, "wait", v)
    else if AnyDecisive(ctrs) then exists c :: c in ctrs && Decisive(c) && v == VerdictOf(c)
    else v == Verdict(Succeeded, "")
  }

  lemma ForemostByName(ctrs: Statuses, c: ContainerStatus, v: Verdict)
    requires Foremost(ctrs, c) && v == VerdictOf(c)
    ensures ReportsByName(ctrs, v)
  {
    assert c.name == "main" ==> Decides(ctrs, "main");
    assert AnyDecisive(ctrs);
  }

  lemma NoneByName(ctrs: Statuses, name: string)
    requires !AnyDecisive(ctrs)
    ensures !Decides(ctrs, name)
  {
  }

  lemma AdmissibleByName(inits: Statuses, ctrs: Statuses, v: Verdict)
    requires !AnyDecisive(inits) && Admissible(inits, ctrs, v)
    ensures ReportsByName(ctrs, v)
  {
    if AnyDecisive(ctrs) {
      var c :| Foremost(ctrs, c) && v == VerdictOf(c);
      ForemostByName(ctrs, c, v);
    } else {
      NoneByName(ctrs, "main");
      NoneByName(ctrs, "wait");
    }
  }

  /** By name, whatever the sort does: if no init container decides, main is reported before wait and wait before
      the rest. */
  lemma MainThenWaitThenRest(inits: Statuses, ctrs: Statuses, s: Statuses)
    requires SortedPermutation(ctrs, s) && !AnyDecisive(inits)
    ensures ReportsByName(ctrs, Scan(inits + s))
  {
    ScanIsAdmissible(inits, ctrs, s);
    AdmissibleByName(inits, ctrs, Scan(inits + s));
  }

  ghost predicate Settled(inits: Statuses, ctrs: Statuses) {
    AnyDecisive(inits) ||
    forall c, d | Foremost(ctrs, c) && Foremost(ctrs, d) :: VerdictOf(c) == VerdictOf(d)
  }

  ghost predicate OrderFree(inits: Statuses, ctrs: Statuses) {
    forall s, t | SortedPermutation(ctrs, s) && SortedPermutation(ctrs, t) :: Scan(inits + s) == Scan(inits + t)
  }

  /** The verdict does not depend on the sort's choice if and only if an init container settles it or
      the decisive containers of minimal rank all agree. */
  lemma OrderFreeExactly(inits: Statuses, ctrs: Statuses)
    ensures OrderFree(inits, ctrs) <==> Settled(inits, ctrs)
  {
    if Settled(inits, ctrs) {
      forall s, t | SortedPermutation(ctrs, s) && SortedPermutation(ctrs, t)
        ensures Scan(inits + s) == Scan(inits + t)
      {
        ScanIsAdmissible(inits, ctrs, s);
        ScanIsAdmissible(inits, ctrs, t);
      }
    }
    if OrderFree(inits, ctrs) && !AnyDecisive(inits) {
      forall c, d | Foremost(ctrs, c) && Foremost(ctrs, d)
        ensures VerdictOf(c) == VerdictOf(d)
      {
        var s := SortExists(ctrs);
        var t := BringForward(ctrs, s, c);
        var u := BringForward(ctrs, s, d);
        ScanConcat(inits, t);
        ScanConcat(inits, u);
      }
    }
  }

  function FailedSidecar(name: string, code: int32): ContainerStatus {
    ContainerStatus(name, ContainerState(None, false, Some(Terminated(code, "Error", "", 0))))
  }

  /** Two sidecars that exited with 1 and 2: the sort decides which one is reported. */
  lemma SortDecides()
    ensures var (a, b) := (FailedSidecar("a", 1), FailedSidecar("b", 2));
      && SortedPermutation([a, b], [a, b]) && SortedPermutation([a, b], [b, a])
      && Scan([a, b]) == Verdict(Failed, ExitMessage("Error", 1, ""))
      && Scan([b, a]) == Verdict(Failed, ExitMessage("Error", 2, ""))
      && Scan([a, b]) != Scan([b, a])
  {
    var (a, b) := (FailedSidecar("a", 1), FailedSidecar("b", 2));
    ScanIsFirst([a, b], 0);
    ScanIsFirst([b, a], 0);
    if ExitText("Error", 1) == ExitText("Error", 2) {
      ExitTextInjective("Error", 1, "Error", 2);
    }
  }

  ghost predicate UniqueNames(ctrs: Statuses) {
    forall i, j | 0 <= i < j < |ctrs| :: ctrs[i].name != ctrs[j].name
  }

  predicate DecisiveSidecar(c: ContainerStatus) {
    Decisive(c) && c.name != "main" && c.name != "wait"
  }

  /** With unique names, one failing sidecar at most is enough. */
  lemma UniqueNamesSettle(inits: Statuses, ctrs: Statuses)
    requires UniqueNames(ctrs)
    requires forall i, j | 0 <= i < |ctrs| && 0 <= j < |ctrs| && DecisiveSidecar(ctrs[i]) && DecisiveSidecar(ctrs[j]) :: i == j
    ensures OrderFree(inits, ctrs)
  {
    forall c, d | Foremost(ctrs, c) && Foremost(ctrs, d)
      ensures c == d
    {
      var i :| 0 <= i < |ctrs| && ctrs[i] == c;
      var j :| 0 <= j < |ctrs| && ctrs[j] == d;
      assert !Preferred(c.name, d.name) && !Preferred(d.name, c.name);
      if DecisiveSidecar(c) {
        assert DecisiveSidecar(ctrs[i]) && DecisiveSidecar(ctrs[j]);
      } else {
        assert ctrs[i].name == ctrs[j].name;
      }
    }
    OrderFreeExactly(inits, ctrs);
  }

  // ---------- Containers that do not matter ----------

  function Decisives(ctrs: Statuses): Statuses {
    if ctrs == [] then []
    else if Decisive(ctrs[0]) then [ctrs[0]] + Decisives(ctrs[1..])
    else Decisives(ctrs[1..])
  }

  lemma {:induction false} DecisivesMembers(ctrs: Statuses)
    ensures forall c :: c in Decisives(ctrs) <==> c in ctrs && Decisive(c)
    ensures Scan(ctrs) == Scan(Decisives(ctrs))
  {
    if ctrs != [] {
      DecisivesMembers(ctrs[1..]);
      assert ctrs == [ctrs[0]] + ctrs[1..];
      if Decisive(ctrs[0]) {
        assert Decisives(ctrs)[0] == ctrs[0];
      }
    }
  }

  lemma {:induction false} DecisivesInsert(a: Statuses, c: ContainerStatus, b: Statuses)
    requires !Decisive(c)
    ensures Decisives(a + [c] + b) == Decisives(a + b)
  {
    if a == [] {
      assert (a + [c] + b)[1..] == b && a + b == b;
    } else {
      assert (a + [c] + b)[1..] == a[1..] + [c] + b && (a + b)[1..] == a[1..] + b;
      DecisivesInsert(a[1..], c, b);
    }
  }

  /** Only the decisive containers count: the init ones in their order, the others in any order. */
  lemma VerdictFrame(inits: Statuses, ctrs: Statuses, inits': Statuses, ctrs': Statuses, v: Verdict)
    requires Decisives(inits) == Decisives(inits')
    requires multiset(Decisives(ctrs)) == multiset(Decisives(ctrs'))
    ensures Admissible(inits, ctrs, v) <==> Admissible(inits', ctrs', v)
  {
    DecisivesMembers(inits);
    DecisivesMembers(inits');
    DecisivesMembers(ctrs);
    DecisivesMembers(ctrs');
    SameMembers(Decisives(ctrs), Decisives(ctrs'));
    assert forall c :: c in inits && Decisive(c) <==> c in inits' && Decisive(c);
    assert forall c :: c in ctrs && Decisive(c) <==> c in ctrs' && Decisive(c);
    assert forall c :: Foremost(ctrs, c) <==> Foremost(ctrs', c);
  }

  /** Inserting or deleting a container that is not decisive, anywhere in either list, changes
      nothing. */
  lemma IrrelevantContainer(inits: Statuses, a: Statuses, c: ContainerStatus, b: Statuses, v: Verdict)
    requires !Decisive(c)
    ensures Admissible(inits, a + [c] + b, v) <==> Admissible(inits, a + b, v)
    ensures Admissible(a + [c] + b, inits, v) <==> Admissible(a + b, inits, v)
  {
    DecisivesInsert(a, c, b);
    VerdictFrame(inits, a + [c] + b, inits, a + b, v);
    VerdictFrame(a + [c] + b, inits, a + b, inits, v);
  }
}
