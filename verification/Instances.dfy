// What the instance provider computes from node pools: instances, lookups, and the
// phases a Create call passes through.
module Instances {
  import opened Wrappers
  import Seqs
  import opened Doks

  datatype Instance = Instance(
    nodePoolID: string, dropletID: string, name: string, region: string, size: string,
    status: string, labels: map<string, string>, tags: seq<string>, createdAt: int)

  function NodeToInstance(p: Pool, node: Node, region: string): Instance {
    Instance(p.id, node.dropletID, node.name, region, p.size,
             if node.state.Some? then node.state.value else "", p.labels, p.tags, node.createdAt)
  }

  // What comes from the pool, what from the node, and what from neither.
  lemma InstanceShowsItsNode(p: Pool, node: Node, region: string)
    ensures var inst := NodeToInstance(p, node, region);
      && inst.nodePoolID == p.id && inst.size == p.size && inst.labels == p.labels && inst.tags == p.tags
      && inst.dropletID == node.dropletID && inst.name == node.name && inst.createdAt == node.createdAt
      && inst.region == region && (if node.state.None? then inst.status == "" else node.state == Some(inst.status))
  {
  }

  // ---- Listing ----

  function ManagedPools(pools: seq<Pool>): seq<Pool> {
    Seqs.Filter((p: Pool) => Managed(p), pools)
  }

  function PoolInstances(p: Pool, nodes: seq<Node>, region: string): seq<Instance>
    decreases |nodes|
  {
    if nodes == [] then []
    else
      var n := |nodes| - 1;
      PoolInstances(p, nodes[..n], region) +
      (if ValidDropletID(nodes[n].dropletID) then [NodeToInstance(p, nodes[n], region)] else [])
  }

  // Every node of every pool that has its droplet, in pool order.
  function InstancesOf(pools: seq<Pool>, region: string): seq<Instance>
    decreases |pools|
  {
    if pools == [] then []
    else
      var n := |pools| - 1;
      InstancesOf(pools[..n], region) + PoolInstances(pools[n], pools[n].nodes, region)
  }

  ghost predicate Shows(p: Pool, region: string, inst: Instance) {
    exists node :: node in p.nodes && ValidDropletID(node.dropletID) && inst == NodeToInstance(p, node, region)
  }

  lemma {:induction false} PoolInstancesExact(p: Pool, nodes: seq<Node>, region: string, inst: Instance)
    ensures inst in PoolInstances(p, nodes, region) <==>
      exists node :: node in nodes && ValidDropletID(node.dropletID) && inst == NodeToInstance(p, node, region)
    decreases |nodes|
  {
    if nodes != [] {
      var n := |nodes| - 1;
      assert nodes == nodes[..n] + [nodes[n]];
      PoolInstancesExact(p, nodes[..n], region, inst);
    }
  }

  lemma {:induction false} ListedExactly(pools: seq<Pool>, region: string, inst: Instance)
    ensures inst in InstancesOf(pools, region) <==> exists p :: p in pools && Shows(p, region, inst)
    decreases |pools|
  {
    if pools != [] {
      var n := |pools| - 1;
      assert pools == pools[..n] + [pools[n]];
      ListedExactly(pools[..n], region, inst);
      PoolInstancesExact(pools[n], pools[n].nodes, region, inst);
      assert inst in PoolInstances(pools[n], pools[n].nodes, region) <==> Shows(pools[n], region, inst);
      assert forall p :: p in pools <==> p in pools[..n] || p == pools[n];
    }
  }

  // An instance on a page stands for a node of a pool that is in the cloud and tagged.
  lemma ListedFromCloud(cloud: Cloud, page: seq<Pool>, region: string, inst: Instance)
    requires IsPage(page, cloud.pools) && inst in InstancesOf(ManagedPools(page), region)
    requires WellFormed(cloud)
    ensures
      && inst.nodePoolID in cloud.pools && Managed(cloud.pools[inst.nodePoolID])
      && Shows(cloud.pools[inst.nodePoolID], region, inst)
      && Home(cloud, inst.dropletID, inst.nodePoolID)
  {
    ListedExactly(ManagedPools(page), region, inst);
    var p :| p in ManagedPools(page) && Shows(p, region, inst);
    var node :| node in p.nodes && ValidDropletID(node.dropletID) && inst == NodeToInstance(p, node, region);
    assert node.dropletID in Droplets(p.nodes);
  }

  // ---- Lookup by droplet ID ----

  function FindNode(nodes: seq<Node>, d: string): (r: Option<Node>)
    ensures r.Some? ==> r.value in nodes && r.value.dropletID == d
    ensures r.None? ==> forall node :: node in nodes ==> node.dropletID != d
  {
    if nodes == [] then None
    else if nodes[0].dropletID == d then Some(nodes[0])
    else FindNode(nodes[1..], d)
  }

  function FindInstance(pools: seq<Pool>, d: string, region: string): Option<Instance> {
    if pools == [] then None
    else
      var hit := FindNode(pools[0].nodes, d);
      if hit.Some? then Some(NodeToInstance(pools[0], hit.value, region))
      else FindInstance(pools[1..], d, region)
  }

  function FirstWith(instances: seq<Instance>, d: string): (r: Option<Instance>)
    ensures r.Some? ==> r.value in instances && r.value.dropletID == d
    ensures r.None? ==> forall inst :: inst in instances ==> inst.dropletID != d
  {
    if instances == [] then None
    else if instances[0].dropletID == d then Some(instances[0])
    else FirstWith(instances[1..], d)
  }

  ghost predicate HasDroplet(p: Pool, d: string) {
    exists node :: node in p.nodes && node.dropletID == d
  }

  lemma {:induction false} FirstWithAppend(s: seq<Instance>, t: seq<Instance>, d: string)
    ensures FirstWith(s + t, d) == if FirstWith(s, d).Some? then FirstWith(s, d) else FirstWith(t, d)
  {
    if s == [] {
      assert s + t == t;
    } else {
      assert (s + t)[1..] == s[1..] + t;
      FirstWithAppend(s[1..], t, d);
    }
  }

  lemma InstancesOfOneMore(pools: seq<Pool>, p: Pool, region: string)
    ensures InstancesOf(pools + [p], region) == InstancesOf(pools, region) + PoolInstances(p, p.nodes, region)
  {
    assert (pools + [p])[..|pools|] == pools;
  }

  lemma {:induction false} InstancesOfAppend(s: seq<Pool>, t: seq<Pool>, region: string)
    ensures InstancesOf(s + t, region) == InstancesOf(s, region) + InstancesOf(t, region)
    decreases |t|
  {
    if t == [] {
      assert s + t == s;
    } else {
      var front, last := t[..|t| - 1], t[|t| - 1];
      var ready := PoolInstances(last, last.nodes, region);
      assert InstancesOf(s + t, region) == InstancesOf(s + front, region) + ready by {
        InstancesOfOneMore(s + front, last, region);
        assert s + t == s + front + [last];
      }
      assert InstancesOf(t, region) == InstancesOf(front, region) + ready;
      InstancesOfAppend(s, front, region);
      Seqs.Associates(InstancesOf(s, region), InstancesOf(front, region), ready);
    }
  }

  lemma InstancesOfCons(pools: seq<Pool>, region: string)
    requires pools != []
    ensures InstancesOf(pools, region) ==
            PoolInstances(pools[0], pools[0].nodes, region) + InstancesOf(pools[1..], region)
  {
    assert pools == [pools[0]] + pools[1..];
    InstancesOfAppend([pools[0]], pools[1..], region);
    assert InstancesOf([pools[0]], region) == PoolInstances(pools[0], pools[0].nodes, region) by {
      assert InstancesOf([pools[0]][..0], region) == [];
    }
  }

  lemma {:induction false} PoolInstancesAppend(p: Pool, s: seq<Node>, t: seq<Node>, region: string)
    ensures PoolInstances(p, s + t, region) == PoolInstances(p, s, region) + PoolInstances(p, t, region)
    decreases |t|
  {
    if t == [] {
      assert s + t == s;
    } else {
      var n := |t| - 1;
      assert (s + t)[..|s + t| - 1] == s + t[..n];
      PoolInstancesAppend(p, s, t[..n], region);
    }
  }

  lemma {:induction false} FindNodeIsFirstListed(p: Pool, nodes: seq<Node>, d: string, region: string)
    requires ValidDropletID(d)
    ensures FirstWith(PoolInstances(p, nodes, region), d) ==
            (var hit := FindNode(nodes, d); if hit.Some? then Some(NodeToInstance(p, hit.value, region)) else None)
  {
    if nodes != [] {
      assert nodes == [nodes[0]] + nodes[1..];
      PoolInstancesAppend(p, [nodes[0]], nodes[1..], region);
      assert PoolInstances(p, [nodes[0]][..0], region) == [];
      FindNodeIsFirstListed(p, nodes[1..], d, region);
      if ValidDropletID(nodes[0].dropletID) {
        FirstWithAppend([NodeToInstance(p, nodes[0], region)], PoolInstances(p, nodes[1..], region), d);
      } else {
        assert PoolInstances(p, nodes, region) == PoolInstances(p, nodes[1..], region);
      }
    }
  }

  lemma {:induction false} FindIsFirstListed(pools: seq<Pool>, d: string, region: string)
    requires ValidDropletID(d)
    ensures FindInstance(pools, d, region) == FirstWith(InstancesOf(pools, region), d)
  {
    if pools != [] {
      InstancesOfCons(pools, region);
      FindNodeIsFirstListed(pools[0], pools[0].nodes, d, region);
      FirstWithAppend(PoolInstances(pools[0], pools[0].nodes, region), InstancesOf(pools[1..], region), d);
      FindIsFirstListed(pools[1..], d, region);
    }
  }

  lemma {:induction false} FindExact(pools: seq<Pool>, d: string, region: string)
    ensures FindInstance(pools, d, region).Some? <==> exists p :: p in pools && HasDroplet(p, d)
    ensures FindInstance(pools, d, region).Some? ==>
      exists p, node :: p in pools && node in p.nodes && node.dropletID == d &&
        FindInstance(pools, d, region).value == NodeToInstance(p, node, region)
  {
    if pools != [] {
      FindExact(pools[1..], d, region);
      var hit := FindNode(pools[0].nodes, d);
      if hit.Some? {
        assert pools[0] in pools && hit.value in pools[0].nodes && HasDroplet(pools[0], d);
      } else {
        assert pools == [pools[0]] + pools[1..];
        if FindInstance(pools[1..], d, region).Some? {
          var p, node :| p in pools[1..] && node in p.nodes && node.dropletID == d &&
            FindInstance(pools[1..], d, region).value == NodeToInstance(p, node, region);
          assert p in pools;
        }
      }
    }
  }

  ghost predicate FirstMatch(pools: seq<Pool>, d: string, i: int, j: int) {
    && 0 <= i < |pools| && 0 <= j < |pools[i].nodes| && pools[i].nodes[j].dropletID == d
    && (forall m :: 0 <= m < i ==> !HasDroplet(pools[m], d))
    && (forall n :: 0 <= n < j ==> pools[i].nodes[n].dropletID != d)
  }

  lemma {:induction false} FindNodeIsFirst(nodes: seq<Node>, d: string) returns (j: int)
    requires FindNode(nodes, d).Some?
    ensures 0 <= j < |nodes| && FindNode(nodes, d).value == nodes[j]
    ensures forall n :: 0 <= n < j ==> nodes[n].dropletID != d
  {
    j := 0;
    if nodes[0].dropletID != d {
      j := FindNodeIsFirst(nodes[1..], d);
      j := j + 1;
    }
  }

  lemma FirstMatchShifts(pools: seq<Pool>, d: string, i: int, j: int)
    requires pools != [] && !HasDroplet(pools[0], d) && FirstMatch(pools[1..], d, i, j)
    ensures FirstMatch(pools, d, i + 1, j)
  {
    forall m | 0 <= m < i + 1 ensures !HasDroplet(pools[m], d) {
      if m > 0 {
        assert pools[m] == pools[1..][m - 1];
      }
    }
  }

  // Any droplet ID, "0" and "" included: the lookup answers with the first node that
  // has it, in the order of pools and then nodes, and fails only if there is none.
  lemma {:induction false} FindIsFirstMatch(pools: seq<Pool>, d: string, region: string)
    ensures FindInstance(pools, d, region).None? <==> forall p :: p in pools ==> !HasDroplet(p, d)
    ensures FindInstance(pools, d, region).Some? ==>
      exists i, j :: FirstMatch(pools, d, i, j) &&
        FindInstance(pools, d, region).value == NodeToInstance(pools[i], pools[i].nodes[j], region)
  {
    FindExact(pools, d, region);
    if pools != [] {
      var rest := pools[1..];
      if FindNode(pools[0].nodes, d).Some? {
        var j := FindNodeIsFirst(pools[0].nodes, d);
        assert FirstMatch(pools, d, 0, j);
      } else if FindInstance(rest, d, region).Some? {
        FindIsFirstMatch(rest, d, region);
        var i, j :| FirstMatch(rest, d, i, j) &&
          FindInstance(rest, d, region).value == NodeToInstance(rest[i], rest[i].nodes[j], region);
        FirstMatchShifts(pools, d, i, j);
      }
    }
  }

  // Get answers as List does exactly when it is not asked for a droplet ID that
  // some pool shows while its droplet does not exist yet.
  lemma GetAgreesWithList(pools: seq<Pool>, d: string, region: string)
    ensures FindInstance(pools, d, region) == FirstWith(InstancesOf(pools, region), d)
      <==> ValidDropletID(d) || forall p :: p in pools ==> !HasDroplet(p, d)
  {
    FindExact(pools, d, region);
    if ValidDropletID(d) {
      FindIsFirstListed(pools, d, region);
    } else {
      forall inst | inst in InstancesOf(pools, region) ensures inst.dropletID != d {
        ListedExactly(pools, region, inst);
      }
    }
  }

  // Asked for "0", Get can answer with a node that has no droplet yet.
  lemma GetCanShowWhatListHides(pools: seq<Pool>, region: string)
    requires pools == [Pool("p", "", "", 1, [TAG_MANAGED_BY], map[], [], [Node("0", "a", None, 0)])]
    ensures FindInstance(pools, "0", region) == Some(NodeToInstance(pools[0], pools[0].nodes[0], region))
    ensures InstancesOf(pools, region) == []
  {
    assert pools[..0] == [] && pools[0].nodes[..0] == [];
  }

  // ---- The life of one Create call ----

  const MAX_ATTEMPTS := 60
  const UNREGISTERED := Taint("karpenter.sh/unregistered", "NoExecute")
  const MAX_NAME_LENGTH := 255
  const LABEL_INSTANCE_SIZE := "karpenter.do.sh/instance-size"
  const LABEL_REGION := "karpenter.do.sh/region"

  // What Create asks DOKS for: one node of the chosen size, marked as Karpenter's.
  function Request(clusterName: string, region: string, claimName: string, size: string, classTags: seq<string>)
    : (r: PoolRequest)
    ensures TAG_MANAGED_BY in r.tags && r.count == 1 && r.size == size
    ensures forall tag :: tag in r.tags <==> tag in {TAG_MANAGED_BY, TAG_CLUSTER_PREFIX + clusterName} || tag in classTags
    ensures r.labels.Keys == {LABEL_INSTANCE_SIZE, LABEL_REGION} && r.taints == [UNREGISTERED]
    ensures r.labels[LABEL_INSTANCE_SIZE] == size && r.labels[LABEL_REGION] == region
    ensures r.name <= "karp-" + claimName && |r.name| <= MAX_NAME_LENGTH
    ensures |r.name| < MAX_NAME_LENGTH ==> r.name == "karp-" + claimName
  {
    var name := "karp-" + claimName;
    assert |LABEL_INSTANCE_SIZE| != |LABEL_REGION|;
    PoolRequest(
      if |name| > MAX_NAME_LENGTH then name[..MAX_NAME_LENGTH] else name, size, 1,
      [TAG_MANAGED_BY, TAG_CLUSTER_PREFIX + clusterName] + classTags,
      map[LABEL_INSTANCE_SIZE := size, LABEL_REGION := region],
      [UNREGISTERED])
  }

  datatype CreatePhase =
    | Requesting(request: PoolRequest)
    | Polling(id: string, attempt: nat)
    | Pausing(id: string, attempt: nat)
    | CleaningUp(id: string)
    | ClearingTaints(id: string, inst: Instance)
    | Created(inst: Instance)
    | CreateFailed

  function FirstReady(nodes: seq<Node>): (r: Option<Node>)
    ensures r.None? ==> forall node :: node in nodes ==> !ValidDropletID(node.dropletID)
    ensures r.Some? ==> ValidDropletID(r.value.dropletID)
    ensures r.Some? ==> exists i :: 0 <= i < |nodes| && nodes[i] == r.value &&
                                    forall j :: 0 <= j < i ==> !ValidDropletID(nodes[j].dropletID)
  {
    if nodes == [] then None
    else if ValidDropletID(nodes[0].dropletID) then Some(nodes[0])
    else
      assert nodes == [nodes[0]] + nodes[1..];
      FirstReady(nodes[1..])
  }

  // The phase after a call and its reply; None when the phase does not make that call.
  function Advance(region: string, phase: CreatePhase, call: Call): Option<CreatePhase> {
    match phase
    case Requesting(request) =>
      if !call.CreateCall? || call.request != request then None
      else if call.created.None? then Some(CreateFailed)
      else Some(Polling(call.created.value.id, 0))
    case Polling(id, attempt) =>
      if !call.GetCall? || call.id != id then None
      else if call.found.None? then Some(CleaningUp(id))
      else
        var node := FirstReady(call.found.value.nodes);
        if node.Some? then Some(ClearingTaints(id, NodeToInstance(call.found.value, node.value, region)))
        else Some(Pausing(id, attempt))
    case Pausing(id, attempt) =>
      if !call.Slept? then None
      else if call.cancelled || attempt + 1 >= MAX_ATTEMPTS then Some(CleaningUp(id))
      else Some(Polling(id, attempt + 1))
    case CleaningUp(id) =>
      if call.DeleteCall? && call.id == id then Some(CreateFailed) else None
    case ClearingTaints(id, inst) =>
      if call.TaintsCall? && call.id == id then Some(Created(inst)) else None
    case _ => None
  }

  function AdvanceAll(region: string, phase: CreatePhase, calls: seq<Call>): Option<CreatePhase>
    decreases |calls|
  {
    if calls == [] then Some(phase)
    else
      var n := |calls| - 1;
      var before := AdvanceAll(region, phase, calls[..n]);
      if before.None? then None else Advance(region, before.value, calls[n])
  }

  lemma AdvanceAllExtend(region: string, phase: CreatePhase, calls: seq<Call>, call: Call)
    ensures AdvanceAll(region, phase, calls + [call]) ==
            (var before := AdvanceAll(region, phase, calls);
             if before.None? then None else Advance(region, before.value, call))
  {
  }

  // The node pool a running or just finished call answers for.
  function Holds(phase: CreatePhase): Option<string> {
    match phase
    case Polling(id, _) => Some(id)
    case Pausing(id, _) => Some(id)
    case CleaningUp(id) => Some(id)
    case ClearingTaints(id, _) => Some(id)
    case Created(inst) => Some(inst.nodePoolID)
    case _ => None
  }
}
