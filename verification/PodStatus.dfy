/** From a pod to the node status and workflow status that are published for it. */
module PodStatus {
  import opened Wrappers
  import opened Decimal
  import opened FailureMessages
  import opened PodVerdict
  import opened FinishTimes

  datatype Owner = Owner(kind: string, name: string)
  datatype Condition = Condition(reason: string, message: string)

  /** A pod without the statuses of its regular containers, which are sorted in place. */
  datatype PodInfo = PodInfo(
    name: string, labels: map<string, string>, owners: seq<Owner>,
    phase: string, message: string, conditions: seq<Condition>, inits: Statuses)

  datatype NodeStatus = NodeStatus(
    id: string, name: string, templateName: string, boundaryId: string,
    phase: Phase, message: string, exitCode: Option<string>, finishedAt: int)

  datatype WorkflowStatus = WorkflowStatus(phase: Phase, finishedAt: int, nodes: map<string, NodeStatus>, message: string)

  predicate Completed(p: Phase) {
    p == Succeeded || p == Failed || p == Error
  }

  function WithDetail(reason: string, message: string): string {
    if message != "" then reason + ": " + message else reason
  }

  function ConditionReason(conditions: seq<Condition>): string {
    if conditions == [] then ""
    else if conditions[0].reason == "Unschedulable" then WithDetail(conditions[0].reason, conditions[0].message)
    else ConditionReason(conditions[1..])
  }

  function PendingReason(ctrs: Statuses, conditions: seq<Condition>): string {
    if ctrs == [] then ConditionReason(conditions)
    else
      match ctrs[0].state.waiting
      case Some(w) => WithDetail(w.reason, w.message)
      case None => PendingReason(ctrs[1..], conditions)
  }

  function ExitCode(ctrs: Statuses): Option<int32> {
    if ctrs == [] then None
    else if ctrs[0].name == MAIN_CONTAINER && ctrs[0].state.terminated.Some? then Some(ctrs[0].state.terminated.value.exitCode)
    else ExitCode(ctrs[1..])
  }

  function ExitOutput(ctrs: Statuses): Option<string> {
    match ExitCode(ctrs)
    case Some(code) => Some(Itoa(code))
    case None => None
  }

  function FailedVerdict(info: PodInfo, ctrs: Statuses): Verdict {
    if info.message != "" then Verdict(Failed, info.message) else Scan(info.inits + ctrs)
  }

  function PhaseVerdict(info: PodInfo, ctrs: Statuses): Verdict {
    if info.phase == "Pending" then Verdict(Pending, PendingReason(ctrs, info.conditions))
    else if info.phase == "Succeeded" then SUCCESS
    else if info.phase == "Failed" then FailedVerdict(info, ctrs)
    else if info.phase == "Running" then Verdict(Running, "")
    else Verdict(Error, UnexpectedPhaseMessage(info.name, info.phase))
  }

  function NodeStatusOf(info: PodInfo, ctrs: Statuses, clock: nat -> int): NodeStatus {
    var v := PhaseVerdict(info, ctrs);
    NodeStatus("", "", "", "", v.phase, v.message, ExitOutput(ctrs),
               if Completed(v.phase) then Latest(info.inits + ctrs, clock) else 0)
  }

  datatype PodLookup = NotFound | LookupError | Found(deleting: bool)

  function CheckIfPodDeleted(node: NodeStatus, live: PodLookup): (NodeStatus, bool) {
    if (node.phase == Failed || node.phase == Error) && node.message == EXIT_CODE_143_ERROR &&
       (live == NotFound || live == Found(true))
    then (node.(message := POD_DELETED_MESSAGE), true) else (node, false)
  }

  function OwnerName(owners: seq<Owner>, pod: string): string {
    if owners == [] then pod
    else if owners[0].kind == "Job" then owners[0].name
    else OwnerName(owners[1..], pod)
  }

  function WorkflowStatusOf(info: PodInfo, node: NodeStatus, template: string): WorkflowStatus {
    var phase := if node.phase == Pending then Running else node.phase;
    WorkflowStatus(
      phase,
      if Completed(phase) then node.finishedAt else 0,
      map[info.name := node.(id := info.name, name := info.name, templateName := template,
                             boundaryId := OwnerName(info.owners, info.name))],
      node.message)
  }

  function WorkflowType(labels: map<string, string>): string {
    if "workflowType" in labels then labels["workflowType"] else ""
  }

  function TopicOf(workflowType: string): Option<string> {
    if workflowType == "cd" then Some("CD_WORKFLOW_STATUS_UPDATE")
    else if workflowType == "ci" then Some("WORKFLOW_STATUS_UPDATE")
    else None
  }

  // ---------- Coherence ----------

  lemma ScanPhases(ctrs: Statuses)
    ensures Scan(ctrs).phase in {Succeeded, Failed, Error}
  {
    if AnyDecisive(ctrs) {
      var k := ScanFindsFirst(ctrs);
    } else {
      ScanFindsNone(ctrs);
    }
  }

  /** A pending pod is explained by its first waiting container, else by its first condition that says it
      cannot be scheduled, else not at all. */
  lemma {:induction false} PendingReasonIsFirst(ctrs: Statuses, conditions: seq<Condition>, k: nat, l: nat)
    requires k <= |ctrs| && forall i | 0 <= i < k :: ctrs[i].state.waiting.None?
    requires k < |ctrs| ==> ctrs[k].state.waiting.Some?
    requires l <= |conditions| && forall i | 0 <= i < l :: conditions[i].reason != "Unschedulable"
    requires l < |conditions| ==> conditions[l].reason == "Unschedulable"
    ensures PendingReason(ctrs, conditions) ==
      if k < |ctrs| then
        var w := ctrs[k].state.waiting.value; w.reason + (if w.message == "" then "" else ": " + w.message)
      else if l < |conditions| then
        "Unschedulable" + (if conditions[l].message == "" then "" else ": " + conditions[l].message)
      else ""
    decreases k, l
  {
    if k > 0 {
      PendingReasonIsFirst(ctrs[1..], conditions, k - 1, l);
    } else if ctrs == [] && l > 0 {
      PendingReasonIsFirst(ctrs, conditions[1..], k, l - 1);
    }
  }

  lemma {:induction false} OwnerIsFirstJob(owners: seq<Owner>, pod: string, k: nat)
    requires k <= |owners| && forall i | 0 <= i < k :: owners[i].kind != "Job"
    requires k < |owners| ==> owners[k].kind == "Job"
    ensures OwnerName(owners, pod) == if k < |owners| then owners[k].name else pod
  {
    if k > 0 {
      OwnerIsFirstJob(owners[1..], pod, k - 1);
    }
  }

  /** What a pod is reported as, phase by phase. Success is reported for a pod that succeeded, and for one that
      failed without a message of its own although all its containers are harmless. */
  lemma PhaseReported(info: PodInfo, ctrs: Statuses, clock: nat -> int)
    ensures var node := NodeStatusOf(info, ctrs, clock);
      && (node.phase == Pending <==> info.phase == "Pending")
      && (node.phase == Running <==> info.phase == "Running")
      && (node.phase == Succeeded <==>
            info.phase == "Succeeded" ||
            (info.phase == "Failed" && info.message == "" && forall c | c in info.inits + ctrs :: Harmless(c)))
      && (node.phase == Failed ==> info.phase == "Failed")
      && (node.phase == Error || node.phase == Failed || Verdict(node.phase, node.message) in
            {Verdict(Pending, PendingReason(ctrs, info.conditions)), Verdict(Running, ""), Verdict(Succeeded, "")})
      && (info.phase == "Failed" ==>
            Verdict(node.phase, node.message) ==
              if info.message == "" then Scan(info.inits + ctrs) else Verdict(Failed, info.message))
      && (info.phase !in {"Pending", "Running", "Succeeded", "Failed"} ==>
            node.phase == Error && node.message == "Unexpected pod phase for " + info.name + ": " + info.phase)
  {
    ScanPhases(info.inits + ctrs);
    SucceedsExactly(info.inits + ctrs);
  }

  /** The workflow status of any node: running while the node is pending and in its phase otherwise, finished when
      the node has finished and not before, and with the node, under the pod's name, otherwise unchanged. */
  lemma WorkflowFollowsNode(info: PodInfo, node: NodeStatus, template: string)
    ensures var wf := WorkflowStatusOf(info, node, template);
      && wf.phase == (if node.phase == Pending then Running else node.phase) && wf.message == node.message
      && wf.finishedAt == (if node.phase in {Succeeded, Failed, Error} then node.finishedAt else 0)
      && wf.nodes.Keys == {info.name}
      && var n := wf.nodes[info.name];
         && n.id == n.name == info.name
         && n == node.(id := n.id, name := n.name, templateName := template, boundaryId := n.boundaryId)
  {
  }

  /** What is published agrees with itself, for every pod: the workflow is never pending although its
      node may be, it has exactly one node, filed and named after the pod, both carry the same
      message, and both or neither have a finish time. */
  lemma StatusIsCoherent(info: PodInfo, ctrs: Statuses, clock: nat -> int, template: string)
    ensures var node := NodeStatusOf(info, ctrs, clock);
      var wf := WorkflowStatusOf(info, node, template);
      && wf.phase in {Running, Succeeded, Failed, Error}
      && (wf.phase == node.phase || (wf.phase == Running && node.phase == Pending && info.phase == "Pending"))
      && wf.nodes.Keys == {info.name}
      && (var n := wf.nodes[info.name];
          && n.id == n.name == info.name && n.templateName == template && n.boundaryId == OwnerName(info.owners, info.name)
          && n.phase == node.phase && n.message == wf.message == node.message
          && n.finishedAt == wf.finishedAt && n.exitCode == ExitOutput(ctrs))
      && (Completed(wf.phase) ==> wf.finishedAt == Latest(info.inits + ctrs, clock))
      && (!Completed(wf.phase) ==> wf.finishedAt == 0)
      && (Completed(wf.phase) <==> info.phase !in {"Pending", "Running"})
  {
    ScanPhases(info.inits + ctrs);
  }

  // ---------- Exit code ----------

  predicate TerminatedMain(c: ContainerStatus) {
    c.name == "main" && c.state.terminated.Some?
  }

  /** The exit code put out is that of the first terminated main container; without one there is none. */
  lemma {:induction false} ExitCodeIsFirstMain(ctrs: Statuses, k: nat)
    requires k <= |ctrs| && forall i | 0 <= i < k :: !TerminatedMain(ctrs[i])
    requires k < |ctrs| ==> TerminatedMain(ctrs[k])
    ensures ExitOutput(ctrs) == if k < |ctrs| then Some(Itoa(ctrs[k].state.terminated.value.exitCode)) else None
  {
    if k > 0 {
      ExitCodeIsFirstMain(ctrs[1..], k - 1);
    }
  }

  /** When the main container settles the verdict with its exit, the same exit code is output, although
      the two scans are separate. */
  lemma ExitCodeMatchesMessage(inits: Statuses, ctrs: Statuses, k: nat)
    requires UniqueNames(ctrs) && !AnyDecisive(inits)
    requires k < |ctrs| && ctrs[k].name == "main" && ctrs[k].state.waiting.None?
    requires Decisive(ctrs[k]) && forall i | 0 <= i < k :: !Decisive(ctrs[i])
    ensures var t := ctrs[k].state.terminated.value;
      && ExitOutput(ctrs) == Some(Itoa(t.exitCode))
      && Scan(inits + ctrs) == Verdict(Failed, ExitMessage(t.reason, t.exitCode, t.message))
  {
    ScanIsFirst(ctrs, k);
    ScanConcat(inits, ctrs);
    ExitCodeIsFirstMain(ctrs, k);
  }

  /** The containers named main, in order. */
  function Mains(ctrs: Statuses): Statuses {
    OfRank(ctrs, 1)
  }

  lemma {:induction false} ExitCodeOfMains(ctrs: Statuses)
    ensures ExitCode(ctrs) == ExitCode(Mains(ctrs))
  {
    if ctrs != [] {
      ExitCodeOfMains(ctrs[1..]);
    }
  }

  lemma {:induction false} MainsMultiplicity(ctrs: Statuses, c: ContainerStatus)
    ensures multiset(Mains(ctrs))[c] == if Rank(c.name) == 1 then multiset(ctrs)[c] else 0
  {
    if ctrs != [] {
      MainsMultiplicity(ctrs[1..], c);
      assert ctrs == [ctrs[0]] + ctrs[1..];
    }
  }

  lemma {:induction false} UniqueNamesOneMain(ctrs: Statuses)
    requires UniqueNames(ctrs)
    ensures |Mains(ctrs)| <= 1
    ensures (forall c | c in ctrs :: c.name != MAIN_CONTAINER) ==> Mains(ctrs) == []
  {
    if ctrs != [] {
      UniqueNamesOneMain(ctrs[1..]);
      assert forall c | c in ctrs[1..] :: c in ctrs && c.name != ctrs[0].name;
    }
  }

  /** With one main container the exit code does not depend on the order of the statuses. */
  lemma ExitCodeIgnoresOrder(a: Statuses, b: Statuses)
    requires multiset(a) == multiset(b) && |Mains(a)| <= 1
    ensures ExitCode(a) == ExitCode(b)
  {
    ExitCodeOfMains(a);
    ExitCodeOfMains(b);
    forall c ensures multiset(Mains(a))[c] == multiset(Mains(b))[c] {
      MainsMultiplicity(a, c);
      MainsMultiplicity(b, c);
    }
    SingletonsAgree(Mains(a), Mains(b));
  }

  lemma SingletonsAgree(a: Statuses, b: Statuses)
    requires multiset(a) == multiset(b) && |a| <= 1
    ensures a == b
  {
    assert |a| == |multiset(a)| == |multiset(b)| == |b|;
    SameMembers(a, b);
    if |a| == 1 {
      assert b[0] in a;
    }
  }

  // ---------- Assessing the same pod again ----------

  /** What an assessment may do to the cached statuses. */
  ghost predicate LeftBy(info: PodInfo, before: Statuses, after: Statuses) {
    if info.phase == "Failed" && info.message == "" then SortedPermutation(before, after) else after == before
  }

  /** The node statuses report the same, finish times aside. */
  predicate SameReport(n: NodeStatus, m: NodeStatus) {
    n.phase == m.phase && n.message == m.message && n.exitCode == m.exitCode
  }

  /** Sorting the cached statuses in place is harmless: whatever two assessments in a row leave behind, they
      report the same phase, message and exit code, provided the verdict does not depend on the order
      and there is one main container; and the same finish time, if nothing is still running. */
  lemma ReassessmentAgrees(info: PodInfo, first: Statuses, second: Statuses, third: Statuses, c1: nat -> int, c2: nat -> int)
    requires LeftBy(info, first, second) && LeftBy(info, second, third)
    requires Settled(info.inits, first) && |Mains(first)| <= 1
    ensures SameReport(NodeStatusOf(info, second, c1), NodeStatusOf(info, third, c2))
    ensures (forall c | c in info.inits + first :: !c.state.running) ==>
      NodeStatusOf(info, second, c1) == NodeStatusOf(info, third, c2)
  {
    if forall c | c in info.inits + first :: !c.state.running {
      SameMembers(info.inits + first, info.inits + second);
      LatestIgnoresClock(info.inits + second, info.inits + third, c1, c2);
    }
    if info.phase == "Failed" && info.message == "" {
      OrderFreeExactly(info.inits, first);
      ExitCodeIgnoresOrder(first, second);
      ExitCodeIgnoresOrder(first, third);
    }
  }

  // ---------- Re-triggers ----------

  /** The container exited with reason Error, code 143 and no message, and is one of the executor's. */
  predicate KilledExecutor(c: ContainerStatus) {
    && c.state.waiting.None?
    && c.name in {"init", "main", "wait"}
    && c.state.terminated.Some?
    && var t := c.state.terminated.value; t.exitCode == 143 && t.reason == "Error" && t.message == ""
  }

  ghost predicate FirstDecisiveIsKilled(ctrs: Statuses) {
    exists k :: 0 <= k < |ctrs| && KilledExecutor(ctrs[k]) && forall i | 0 <= i < k :: !Decisive(ctrs[i])
  }

  lemma KilledVerdictExactly(c: ContainerStatus)
    requires Decisive(c)
    ensures VerdictOf(c).message == EXIT_CODE_143_ERROR <==> KilledExecutor(c)
  {
    if c.state.waiting.Some? {
      OtherTextsDiffer(c.name, c.state.waiting.value.reason, c.state.waiting.value.message);
    } else {
      var t := c.state.terminated.value;
      KilledTextExactly(t.reason, t.exitCode, t.message);
    }
  }

  lemma KilledScanExactly(ctrs: Statuses)
    ensures Scan(ctrs).message == EXIT_CODE_143_ERROR <==> FirstDecisiveIsKilled(ctrs)
  {
    if AnyDecisive(ctrs) {
      var k := ScanFindsFirst(ctrs);
      KilledVerdictExactly(ctrs[k]);
      if j :| 0 <= j < |ctrs| && KilledExecutor(ctrs[j]) && forall i | 0 <= i < j :: !Decisive(ctrs[i]) {
        assert j == k;
      }
    } else {
      ScanFindsNone(ctrs);
      if j :| 0 <= j < |ctrs| && KilledExecutor(ctrs[j]) {
        assert ctrs[j] in ctrs && Decisive(ctrs[j]);
      }
    }
  }

  /** A deletion is a re-trigger if and only if the pod is really going away, its phase is Failed, and
      either its own message is the marker or its first decisive container is a killed executor
      container. A killed sidecar never causes one. */
  lemma RetriggerExactly(info: PodInfo, ctrs: Statuses, clock: nat -> int, live: PodLookup)
    ensures CheckIfPodDeleted(NodeStatusOf(info, ctrs, clock), live).1 <==>
      && live in {NotFound, Found(true)}
      && info.phase == "Failed"
      && (if info.message == "" then FirstDecisiveIsKilled(info.inits + ctrs) else info.message == "Error (exit code 143)")
  {
    KilledScanExactly(info.inits + ctrs);
    ScanPhases(info.inits + ctrs);
    SucceedsExactly(info.inits + ctrs);
    OtherTextsDiffer(info.name, info.phase, "");
  }

  /** A re-trigger changes the message and nothing else, and the published status is a failure. */
  lemma RetriggerStatus(info: PodInfo, ctrs: Statuses, clock: nat -> int, live: PodLookup, template: string)
    requires CheckIfPodDeleted(NodeStatusOf(info, ctrs, clock), live).1
    ensures var node := NodeStatusOf(info, ctrs, clock);
      var wf := WorkflowStatusOf(info, CheckIfPodDeleted(node, live).0, template);
      && wf.message == "pod deleted" && wf.nodes[info.name].message == "pod deleted"
      && wf.phase in {Failed, Error} && wf.phase == node.phase
      && wf.finishedAt == Latest(info.inits + ctrs, clock)
      && wf.nodes[info.name].exitCode == ExitOutput(ctrs)
  {
    RetriggerExactly(info, ctrs, clock, live);
  }

  /** Whether a deletion is a re-trigger does not depend on the sort if the verdict does not. */
  lemma RetriggerIgnoresOrder(info: PodInfo, ctrs: Statuses, s: Statuses, t: Statuses, c1: nat -> int, c2: nat -> int, live: PodLookup)
    requires LeftBy(info, ctrs, s) && LeftBy(info, ctrs, t) && Settled(info.inits, ctrs)
    ensures CheckIfPodDeleted(NodeStatusOf(info, s, c1), live).1 == CheckIfPodDeleted(NodeStatusOf(info, t, c2), live).1
  {
    OrderFreeExactly(info.inits, ctrs);
  }
}
