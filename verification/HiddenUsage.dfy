/** How much of each node the platform's own hidden pods occupy
    (hiddenWorkloadAdapter in cmd/api-server/adapters.go). */
module HiddenUsage {
  import opened Sums

  datatype PodStatus = PodStatus(podName: string, nodeName: string, hidden: bool, status: string)

  datatype Usage = Usage(cpuCores: int, memoryGB: int)

  /** The fixed footprints of the three kinds of internal pod. */
  datatype Footprints = Footprints(build: Usage, screenshot: Usage, agent: Usage)

  const BUILD_PREFIX := "kaniko-build-"
  const SCREENSHOT_PREFIX := "build-shot-"
  const AGENT_PREFIX := "build-agent-"

  /** What one status holds of its node; nothing when the pod is a customer's,
      is not placed, is no longer scheduled, or is of no known kind. */
  function Holds(a: Footprints, st: PodStatus): (r: (bool, Usage)) {
    if !st.hidden || st.nodeName == "" || st.status !in {"running", "pending"} then (false, Usage(0, 0))
    else if BUILD_PREFIX <= st.podName then (true, a.build)
    else if SCREENSHOT_PREFIX <= st.podName then (true, a.screenshot)
    else if AGENT_PREFIX <= st.podName then (true, a.agent)
    else (false, Usage(0, 0))
  }

  datatype Resource = Cpu | Memory

  function Amount(u: Usage, r: Resource): int {
    if r.Cpu? then u.cpuCores else u.memoryGB
  }

  /** What a pod holds of the given node. */
  function On(a: Footprints, node: string, r: Resource): PodStatus -> int {
    (st: PodStatus) => if st.nodeName == node then Amount(Holds(a, st).1, r) else 0
  }

  /** What a pod holds of the given nodes together. */
  function OnAny(a: Footprints, nodes: seq<string>, r: Resource): PodStatus -> int {
    (st: PodStatus) => if st.nodeName in nodes then Amount(Holds(a, st).1, r) else 0
  }

  /** What a pod holds, wherever it is. */
  function Anywhere(a: Footprints, r: Resource): PodStatus -> int {
    (st: PodStatus) => Amount(Holds(a, st).1, r)
  }

  /** What the map says of a node. */
  function Entry(out: map<string, Usage>, r: Resource): string -> int {
    node => if node in out then Amount(out[node], r) else 0
  }

  ghost predicate Occupied(a: Footprints, statuses: seq<PodStatus>, node: string) {
    exists i :: 0 <= i < |statuses| && Holds(a, statuses[i]).0 && statuses[i].nodeName == node
  }

  /** The map is right: an entry for exactly the nodes that hold something, and
      in it the sums over that node's pods. */
  ghost predicate Accounts(a: Footprints, statuses: seq<PodStatus>, out: map<string, Usage>) {
    && (forall node :: node in out <==> Occupied(a, statuses, node))
    && (forall node | node in out ::
          out[node] == Usage(SumBy(statuses, On(a, node, Cpu)), SumBy(statuses, On(a, node, Memory))))
  }

  method HiddenUsageByNode(a: Footprints, statuses: seq<PodStatus>) returns (out: map<string, Usage>)
    ensures Accounts(a, statuses, out)
  {
    out := map[];
    for n := 0 to |statuses|
      invariant Accounts(a, statuses[..n], out)
    {
      var st := statuses[n];
      assert statuses[..n + 1] == statuses[..n] + [st];
      OneMore(a, statuses[..n], st, out);
      var (counts, use) := Holds(a, st);
      if counts {
        var u := if st.nodeName in out then out[st.nodeName] else Usage(0, 0);
        out := out[st.nodeName := Usage(u.cpuCores + use.cpuCores, u.memoryGB + use.memoryGB)];
      }
    }
    assert statuses[..|statuses|] == statuses;
  }

  /** The map after one more status. */
  function Counting(a: Footprints, st: PodStatus, before: map<string, Usage>): map<string, Usage> {
    if !Holds(a, st).0 then before
    else
      var u := if st.nodeName in before then before[st.nodeName] else Usage(0, 0);
      before[st.nodeName := Usage(u.cpuCores + Holds(a, st).1.cpuCores, u.memoryGB + Holds(a, st).1.memoryGB)]
  }

  lemma OccupiedBy(a: Footprints, done: seq<PodStatus>, st: PodStatus, node: string)
    ensures Occupied(a, done + [st], node) <==> Occupied(a, done, node) || (Holds(a, st).0 && st.nodeName == node)
  {
    var all := done + [st];
    assert all[|done|] == st;
    if Occupied(a, done, node) {
      var i :| 0 <= i < |done| && Holds(a, done[i]).0 && done[i].nodeName == node;
      assert all[i] == done[i];
    }
  }

  lemma OneMoreOn(a: Footprints, done: seq<PodStatus>, st: PodStatus, node: string, r: Resource)
    ensures SumBy(done + [st], On(a, node, r)) ==
            SumBy(done, On(a, node, r)) + (if st.nodeName == node then Amount(Holds(a, st).1, r) else 0)
  {
    assert (done + [st])[..|done|] == done;
  }

  lemma OneMore(a: Footprints, done: seq<PodStatus>, st: PodStatus, before: map<string, Usage>)
    requires Accounts(a, done, before)
    ensures Accounts(a, done + [st], Counting(a, st, before))
  {
    var all, out := done + [st], Counting(a, st, before);
    forall node ensures node in out <==> Occupied(a, all, node) {
      OccupiedBy(a, done, st, node);
    }
    forall node | node in out
      ensures out[node] == Usage(SumBy(all, On(a, node, Cpu)), SumBy(all, On(a, node, Memory)))
    {
      OneMoreOn(a, done, st, node, Cpu);
      OneMoreOn(a, done, st, node, Memory);
      if node !in before {
        NothingOn(a, done, node);
      }
    }
  }

  lemma {:induction false} NothingOn(a: Footprints, statuses: seq<PodStatus>, node: string)
    requires !Occupied(a, statuses, node)
    ensures SumBy(statuses, On(a, node, Cpu)) == 0 && SumBy(statuses, On(a, node, Memory)) == 0
  {
    if statuses != [] {
      var n := |statuses| - 1;
      assert !Holds(a, statuses[n]).0 || statuses[n].nodeName != node;
      assert forall i | 0 <= i < n :: statuses[..n][i] == statuses[i];
      assert !Occupied(a, statuses[..n], node);
      NothingOn(a, statuses[..n], node);
    }
  }

  /** The order in which the cluster lists the pods does not matter. */
  lemma OrderDoesNotMatter(a: Footprints, xs: seq<PodStatus>, ys: seq<PodStatus>,
                          out: map<string, Usage>, out': map<string, Usage>)
    requires multiset(xs) == multiset(ys)
    requires Accounts(a, xs, out) && Accounts(a, ys, out')
    ensures out == out'
  {
    forall node ensures node in out <==> node in out' {
      SameOccupied(a, xs, ys, node);
      SameOccupied(a, ys, xs, node);
    }
    assert out.Keys == out'.Keys;
    forall node | node in out ensures out[node] == out'[node] {
      SumPermutation(xs, ys, On(a, node, Cpu));
      SumPermutation(xs, ys, On(a, node, Memory));
    }
  }

  lemma SameOccupied(a: Footprints, xs: seq<PodStatus>, ys: seq<PodStatus>, node: string)
    requires multiset(xs) == multiset(ys)
    ensures Occupied(a, xs, node) ==> Occupied(a, ys, node)
  {
    if Occupied(a, xs, node) {
      var i :| 0 <= i < |xs| && Holds(a, xs[i]).0 && xs[i].nodeName == node;
      assert xs[i] in multiset(xs);
      assert xs[i] in multiset(ys);
      var j :| 0 <= j < |ys| && ys[j] == xs[i];
    }
  }

  /** Conservation: over any list of all the nodes, each once, the per-node
      figures add up to what every eligible pod holds. */
  lemma NodesAddUp(a: Footprints, statuses: seq<PodStatus>, out: map<string, Usage>, nodes: seq<string>, r: Resource)
    requires Accounts(a, statuses, out)
    requires forall i, j | 0 <= i < j < |nodes| :: nodes[i] != nodes[j]
    requires forall node :: node in nodes <==> node in out
    ensures SumBy(nodes, Entry(out, r)) ==
            SumBy(statuses, Anywhere(a, r))
  {
    assert SumBy(nodes, Entry(out, r)) == SumBy(statuses, OnAny(a, nodes, r)) by {
      UpTo(a, statuses, out, nodes, r);
    }
    forall i | 0 <= i < |statuses|
      ensures OnAny(a, nodes, r)(statuses[i]) == Anywhere(a, r)(statuses[i])
    {
      if Holds(a, statuses[i]).0 {
        assert Occupied(a, statuses, statuses[i].nodeName);
      }
    }
    SumSame(statuses, OnAny(a, nodes, r), Anywhere(a, r));
  }

  lemma {:induction false} UpTo(a: Footprints, statuses: seq<PodStatus>, out: map<string, Usage>,
                                nodes: seq<string>, r: Resource)
    requires Accounts(a, statuses, out)
    requires forall i, j | 0 <= i < j < |nodes| :: nodes[i] != nodes[j]
    requires forall node | node in nodes :: node in out
    ensures SumBy(nodes, Entry(out, r)) == SumBy(statuses, OnAny(a, nodes, r))
    decreases nodes
  {
    if nodes == [] {
      SumZero(statuses, OnAny(a, nodes, r));
    } else {
      var rest, node := nodes[..|nodes| - 1], nodes[|nodes| - 1];
      assert nodes == rest + [node] && node !in rest;
      UpTo(a, statuses, out, rest, r);
      OneMoreNode(a, statuses, rest, node, r);
    }
  }

  lemma OneMoreNode(a: Footprints, statuses: seq<PodStatus>, rest: seq<string>, node: string, r: Resource)
    requires node !in rest
    ensures SumBy(statuses, OnAny(a, rest + [node], r)) ==
            SumBy(statuses, OnAny(a, rest, r)) + SumBy(statuses, On(a, node, r))
  {
    SumPlus(statuses, OnAny(a, rest, r), On(a, node, r), OnAny(a, rest + [node], r));
  }

  // ---------------------------------------------------------------------
  // By kind of pod
  // ---------------------------------------------------------------------

  /** One for each hidden pod whose name begins so and that is, or is to be,
      running on the node. */
  function OfKind(prefix: string, node: string): PodStatus -> int {
    (st: PodStatus) =>
      if st.hidden && st.nodeName == node && st.status in {"running", "pending"} && prefix <= st.podName then 1 else 0
  }

  function Pods(statuses: seq<PodStatus>, prefix: string, node: string): int {
    SumBy(statuses, OfKind(prefix, node))
  }

  /** What builds, screenshots and agents together come to. */
  function Mixed(builds: int, shots: int, agents: int, build: int, shot: int, agent: int): int {
    builds * build + shots * shot + agents * agent
  }

  lemma HoldsByKind(a: Footprints, st: PodStatus, node: string, r: Resource)
    requires node != ""
    ensures On(a, node, r)(st) ==
            Mixed(OfKind("kaniko-build-", node)(st), OfKind("build-shot-", node)(st), OfKind("build-agent-", node)(st),
                  Amount(a.build, r), Amount(a.screenshot, r), Amount(a.agent, r))
  {
    Kinds(st.podName);
  }

  /** No name is of two kinds. */
  lemma Kinds(name: string)
    ensures !("kaniko-build-" <= name && "build-shot-" <= name)
    ensures !("kaniko-build-" <= name && "build-agent-" <= name)
    ensures !("build-shot-" <= name && "build-agent-" <= name)
  {
    assert "kaniko-build-"[0] == 'k' && "build-shot-"[0] == "build-agent-"[0] == 'b';
    assert "build-shot-"[6] == 's' && "build-agent-"[6] == 'a';
  }

  lemma MixedAdds(m: (int, int, int), n: (int, int, int), build: int, shot: int, agent: int)
    ensures Mixed(m.0 + n.0, m.1 + n.1, m.2 + n.2, build, shot, agent) ==
            Mixed(m.0, m.1, m.2, build, shot, agent) + Mixed(n.0, n.1, n.2, build, shot, agent)
  {
  }

  lemma {:induction false} OnByKind(a: Footprints, statuses: seq<PodStatus>, node: string, r: Resource)
    requires node != ""
    ensures SumBy(statuses, On(a, node, r)) ==
            Mixed(Pods(statuses, "kaniko-build-", node), Pods(statuses, "build-shot-", node),
                  Pods(statuses, "build-agent-", node), Amount(a.build, r), Amount(a.screenshot, r), Amount(a.agent, r))
  {
    if statuses != [] {
      var n := |statuses| - 1;
      var before, st := statuses[..n], statuses[n];
      OnByKind(a, before, node, r);
      HoldsByKind(a, st, node, r);
      MixedAdds((Pods(before, "kaniko-build-", node), Pods(before, "build-shot-", node), Pods(before, "build-agent-", node)),
                (OfKind("kaniko-build-", node)(st), OfKind("build-shot-", node)(st), OfKind("build-agent-", node)(st)),
                Amount(a.build, r), Amount(a.screenshot, r), Amount(a.agent, r));
    }
  }

  lemma {:induction false} OccupiedByKind(a: Footprints, statuses: seq<PodStatus>, node: string)
    requires node != ""
    ensures var builds, shots, agents := Pods(statuses, "kaniko-build-", node), Pods(statuses, "build-shot-", node),
                                         Pods(statuses, "build-agent-", node);
            && 0 <= builds && 0 <= shots && 0 <= agents
            && (Occupied(a, statuses, node) <==> builds + shots + agents > 0)
  {
    if statuses != [] {
      var n := |statuses| - 1;
      OccupiedByKind(a, statuses[..n], node);
      assert statuses == statuses[..n] + [statuses[n]];
      OccupiedBy(a, statuses[..n], statuses[n], node);
    }
  }

  /** A node has an entry exactly if it has such pods, and its figures are its
      numbers of builds, screenshots and agents, each times what that kind
      takes. */
  lemma UsageByKind(a: Footprints, statuses: seq<PodStatus>, out: map<string, Usage>, node: string)
    requires Accounts(a, statuses, out)
    ensures "" !in out
    ensures var builds, shots, agents := Pods(statuses, "kaniko-build-", node), Pods(statuses, "build-shot-", node),
                                         Pods(statuses, "build-agent-", node);
            node != "" ==>
              && (node in out <==> builds + shots + agents > 0)
              && (node in out ==>
                  && out[node].cpuCores ==
                     builds * a.build.cpuCores + shots * a.screenshot.cpuCores + agents * a.agent.cpuCores
                  && out[node].memoryGB ==
                     builds * a.build.memoryGB + shots * a.screenshot.memoryGB + agents * a.agent.memoryGB)
  {
    if node == "" {
      return;
    }
    OccupiedByKind(a, statuses, node);
    OnByKind(a, statuses, node, Cpu);
    OnByKind(a, statuses, node, Memory);
  }
}
