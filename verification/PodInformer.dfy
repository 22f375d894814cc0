/** The callbacks of a cluster's pod informer, with the in-place sort and the publishing. */
module PodInformer {
  import opened Wrappers
  import opened Decimal
  import opened FailureMessages
  import opened PodVerdict
  import opened FinishTimes
  import opened PodStatus

  /** A cached pod; the status slice is shared by everyone who holds the pod. */
  class Pod {
    const info: PodInfo
    const statuses: array<ContainerStatus>

    constructor (info: PodInfo, statuses: array<ContainerStatus>)
      ensures this.info == info && this.statuses == statuses
    {
      this.info, this.statuses := info, statuses;
    }
  }

  method SwapDown(ctrs: array<ContainerStatus>, j: nat)
    requires 0 < j < ctrs.Length
    modifies ctrs
    ensures ctrs[..] == old(ctrs[..][j := ctrs[j - 1]][j - 1 := ctrs[j]])
    ensures multiset(ctrs[..]) == old(multiset(ctrs[..]))
  {
    ctrs[j], ctrs[j - 1] := ctrs[j - 1], ctrs[j];
  }

  /** The first i + 1 statuses are sorted, except that the one at j may belong further down. */
  ghost predicate SortedBut(ctrs: Statuses, i: nat, j: nat)
    requires j <= i < |ctrs|
  {
    forall p, q | 0 <= p < q <= i && q != j :: Rank(ctrs[p].name) <= Rank(ctrs[q].name)
  }

  lemma SwapKeepsSortedBut(s: Statuses, i: nat, j: nat)
    requires 0 < j <= i < |s| && SortedBut(s, i, j) && Rank(s[j].name) < Rank(s[j - 1].name)
    ensures SortedBut(s[j := s[j - 1]][j - 1 := s[j]], i, j - 1)
  {
  }

  method Insert(ctrs: array<ContainerStatus>, i: nat)
    requires i < ctrs.Length && Sorted(ctrs[..i])
    modifies ctrs
    ensures Sorted(ctrs[..i + 1]) && multiset(ctrs[..]) == old(multiset(ctrs[..]))
  {
    var j: nat := i;
    while j > 0 && Rank(ctrs[j].name) < Rank(ctrs[j - 1].name)
      invariant j <= i
      invariant SortedBut(ctrs[..], i, j)
      invariant multiset(ctrs[..]) == old(multiset(ctrs[..]))
    {
      SwapKeepsSortedBut(ctrs[..], i, j);
      SwapDown(ctrs, j);
      j := j - 1;
    }
  }

  /** Stands for sort.Slice with the rank of the container name; callers may only rely on the
      contract, which leaves the order of equal ranks open. */
  method SortByRank(ctrs: array<ContainerStatus>)
    modifies ctrs
    ensures SortedPermutation(old(ctrs[..]), ctrs[..])
  {
    for i := 0 to ctrs.Length
      invariant Sorted(ctrs[..i])
      invariant multiset(ctrs[..]) == old(multiset(ctrs[..]))
    {
      Insert(ctrs, i);
    }
    assert ctrs[..] == ctrs[..ctrs.Length];
  }

  method InferFailedReason(pod: Pod) returns (v: Verdict)
    modifies pod.statuses
    ensures v == FailedVerdict(pod.info, pod.statuses[..])
    ensures if pod.info.message != "" then pod.statuses[..] == old(pod.statuses[..])
            else SortedPermutation(old(pod.statuses[..]), pod.statuses[..])
  {
    if pod.info.message != "" {
      return Verdict(Failed, pod.info.message);
    }
    SortByRank(pod.statuses);
    ghost var sorted := pod.statuses[..];
    var ctrs := pod.info.inits + pod.statuses[..];
    for i := 0 to |ctrs|
      invariant pod.statuses[..] == sorted
      invariant forall k | 0 <= k < i :: !Decisive(ctrs[k])
    {
      var ctr := ctrs[i];
      if Decisive(ctr) {
        ScanIsFirst(ctrs, i);
      }
      if ctr.state.waiting.Some? {
        var w := ctr.state.waiting.value;
        return Verdict(Error, WaitingMessage(ctr.name, w.reason, w.message));
      }
      if ctr.state.terminated.None? {
        continue;
      }
      var t := ctr.state.terminated.value;
      if t.exitCode == 0 {
        continue;
      }
      var msg := ExitText(t.reason, t.exitCode);
      if t.message != "" {
        msg := msg + ": " + t.message;
      }
      if ctr.name == INIT_CONTAINER {
        return Verdict(Error, msg);
      } else if ctr.name == MAIN_CONTAINER {
        return Verdict(Failed, msg);
      } else if ctr.name == WAIT_CONTAINER {
        return Verdict(Error, msg);
      } else if t.exitCode != 137 && t.exitCode != 143 {
        return Verdict(Failed, msg);
      }
    }
    ScanFindsNone(ctrs);
    return SUCCESS;
  }

  method AssessNodeStatus(pod: Pod, clock: nat -> int) returns (node: NodeStatus)
    modifies pod.statuses
    ensures node == NodeStatusOf(pod.info, pod.statuses[..], clock)
    ensures LeftBy(pod.info, old(pod.statuses[..]), pod.statuses[..])
  {
    node := NodeStatus("", "", "", "", Pending, "", None, 0);
    var phase := pod.info.phase;
    if phase == "Pending" {
      node := node.(phase := Pending, message := PendingReason(pod.statuses[..], pod.info.conditions));
    } else if phase == "Succeeded" {
      node := node.(phase := Succeeded);
    } else if phase == "Failed" {
      var v := InferFailedReason(pod);
      node := node.(phase := v.phase, message := v.message);
    } else if phase == "Running" {
      node := node.(phase := Running);
    } else {
      node := node.(phase := Error, message := UnexpectedPhaseMessage(pod.info.name, phase));
    }
    var exitCode := ExitCode(pod.statuses[..]);
    if exitCode.Some? {
      node := node.(exitCode := Some(Itoa(exitCode.value)));
    }
    if Completed(node.phase) {
      var latest := GetLatestFinishedAt(pod.info.inits, pod.statuses[..], clock);
      node := node.(finishedAt := latest);
    }
  }

  /** A pod with unique container names and at most one failing sidecar is reported with the same phase,
      message and exit code each time it is assessed. */
  method AssessTwice(pod: Pod, c1: nat -> int, c2: nat -> int) returns (n: NodeStatus, m: NodeStatus)
    requires UniqueNames(pod.statuses[..])
    requires forall i, j | 0 <= i < pod.statuses.Length && 0 <= j < pod.statuses.Length
               && DecisiveSidecar(pod.statuses[i]) && DecisiveSidecar(pod.statuses[j]) :: i == j
    modifies pod.statuses
    ensures SameReport(n, m)
    ensures LeftBy(pod.info, old(pod.statuses[..]), pod.statuses[..])
  {
    ghost var first := pod.statuses[..];
    UniqueNamesSettle(pod.info.inits, first);
    OrderFreeExactly(pod.info.inits, first);
    UniqueNamesOneMain(first);
    n := AssessNodeStatus(pod, c1);
    ghost var second := pod.statuses[..];
    m := AssessNodeStatus(pod, c2);
    ReassessmentAgrees(pod.info, first, second, pod.statuses[..], c1, c2);
  }

  class PodEventHandler {
    const hasClient: bool
    var published: seq<(string, WorkflowStatus)>

    constructor (hasClient: bool)
      ensures this.hasClient == hasClient && published == []
    {
      this.hasClient, published := hasClient, [];
    }

    /** The messages a status gives rise to: none without a client, without a topic for the workflow
        type, or when the broker refuses it. */
    function Messages(info: PodInfo, wf: WorkflowStatus, accepted: bool): seq<(string, WorkflowStatus)> {
      match TopicOf(WorkflowType(info.labels))
      case Some(topic) => if hasClient && accepted then [(topic, wf)] else []
      case None => []
    }

    /** A status is published, once and under the topic of its workflow type, if and only if there is a client that
        accepts it and the pod is labelled as part of a ci or cd workflow; its node's template is that type. */
    lemma PublishedUnderItsType(info: PodInfo, node: NodeStatus, accepted: bool)
      ensures var wf := WorkflowStatusOf(info, node, WorkflowType(info.labels));
        Messages(info, wf, accepted) ==
          if !hasClient || !accepted || "workflowType" !in info.labels then []
          else if wf.nodes[info.name].templateName == "ci" then [("WORKFLOW_STATUS_UPDATE", wf)]
          else if wf.nodes[info.name].templateName == "cd" then [("CD_WORKFLOW_STATUS_UPDATE", wf)]
          else []
      ensures "workflowType" in info.labels ==>
        var wf := WorkflowStatusOf(info, node, WorkflowType(info.labels));
        wf.nodes[info.name].templateName == info.labels["workflowType"]
    {
    }

    /** Every status ever published is of one pod and under the topic of that pod's workflow type. */
    ghost predicate UnderTheirTypes()
      reads this
    {
      forall i | 0 <= i < |published| ::
        |published[i].1.nodes| == 1 &&
        forall pod | pod in published[i].1.nodes ::
          (published[i].0, published[i].1.nodes[pod].templateName) in
            {("WORKFLOW_STATUS_UPDATE", "ci"), ("CD_WORKFLOW_STATUS_UPDATE", "cd")}
    }

    method Publish(info: PodInfo, wf: WorkflowStatus, accepted: bool)
      modifies this
      ensures published == old(published) + Messages(info, wf, accepted)
    {
      if !hasClient {
        return;
      }
      var topic := TopicOf(WorkflowType(info.labels));
      if topic.None? {
        return;
      }
      if accepted {
        published := published + [(topic.value, wf)];
      }
    }

    method OnPodUpdate(pod: Pod, clock: nat -> int, accepted: bool)
      modifies this, pod.statuses
      ensures LeftBy(pod.info, old(pod.statuses[..]), pod.statuses[..])
      ensures published == old(published) +
        Messages(pod.info,
                 WorkflowStatusOf(pod.info, NodeStatusOf(pod.info, pod.statuses[..], clock), WorkflowType(pod.info.labels)),
                 accepted)
      ensures old(UnderTheirTypes()) ==> UnderTheirTypes()
    {
      var node := AssessNodeStatus(pod, clock);
      var wf := WorkflowStatusOf(pod.info, node, WorkflowType(pod.info.labels));
      Publish(pod.info, wf, accepted);
    }

    /** A deletion is published only as a re-trigger, and then says so. */
    method OnPodDelete(pod: Pod, clock: nat -> int, live: PodLookup, accepted: bool)
      modifies this, pod.statuses
      ensures LeftBy(pod.info, old(pod.statuses[..]), pod.statuses[..])
      ensures var (node, retrigger) := CheckIfPodDeleted(NodeStatusOf(pod.info, pod.statuses[..], clock), live);
        published == old(published) +
          if retrigger then Messages(pod.info, WorkflowStatusOf(pod.info, node, WorkflowType(pod.info.labels)), accepted) else []
      ensures forall i | |old(published)| <= i < |published| ::
        published[i].1.message == "pod deleted" && published[i].1.phase in {Failed, Error}
      ensures old(UnderTheirTypes()) ==> UnderTheirTypes()
    {
      var assessed := AssessNodeStatus(pod, clock);
      var (node, retrigger) := CheckIfPodDeleted(assessed, live);
      if !retrigger {
        return;
      }
      var wf := WorkflowStatusOf(pod.info, node, WorkflowType(pod.info.labels));
      Publish(pod.info, wf, accepted);
    }
  }

  predicate SamePublication(p: WorkflowStatus, q: WorkflowStatus, pod: string) {
    && p.phase == q.phase && p.message == q.message
    && p.nodes.Keys == q.nodes.Keys == {pod}
    && SameReport(p.nodes[pod], q.nodes[pod])
  }

  /** A pod whose cached statuses are updated twice without changing, as a resync does: whichever of the two
      publications the broker accepts, they have the same topic, phase, message and exit code, if the
      container names are unique and at most one sidecar failed; they are equal if nothing is running. */
  method UpdateTwice(handler: PodEventHandler, pod: Pod, c1: nat -> int, c2: nat -> int, accepted1: bool, accepted2: bool)
    returns (ghost p: WorkflowStatus, ghost q: WorkflowStatus)
    requires UniqueNames(pod.statuses[..])
    requires forall i, j | 0 <= i < pod.statuses.Length && 0 <= j < pod.statuses.Length
               && DecisiveSidecar(pod.statuses[i]) && DecisiveSidecar(pod.statuses[j]) :: i == j
    modifies handler, pod.statuses
    ensures handler.published ==
      old(handler.published) + handler.Messages(pod.info, p, accepted1) + handler.Messages(pod.info, q, accepted2)
    ensures SamePublication(p, q, pod.info.name)
    ensures (forall c | c in pod.info.inits + old(pod.statuses[..]) :: !c.state.running) ==> p == q
    ensures LeftBy(pod.info, old(pod.statuses[..]), pod.statuses[..])
  {
    ghost var first := pod.statuses[..];
    UniqueNamesSettle(pod.info.inits, first);
    OrderFreeExactly(pod.info.inits, first);
    UniqueNamesOneMain(first);
    ghost var template := WorkflowType(pod.info.labels);
    handler.OnPodUpdate(pod, c1, accepted1);
    ghost var second := pod.statuses[..];
    p := WorkflowStatusOf(pod.info, NodeStatusOf(pod.info, second, c1), template);
    handler.OnPodUpdate(pod, c2, accepted2);
    q := WorkflowStatusOf(pod.info, NodeStatusOf(pod.info, pod.statuses[..], c2), template);
    ReassessmentAgrees(pod.info, first, second, pod.statuses[..], c1, c2);
  }
}
