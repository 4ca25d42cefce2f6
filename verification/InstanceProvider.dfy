// The instance provider: creating, finding and deleting node pools through the API.
module InstanceProvider {
  import opened Wrappers
  import Seqs
  import opened Doks
  import opened Instances
  import opened CloudApi
  import InstanceTypes

  // The calls added to the log take a Create call from one phase to another.
  ghost predicate Follows(region: string, from: CreatePhase, before: seq<Call>, after: seq<Call>, to: CreatePhase) {
    before <= after && AdvanceAll(region, from, after[|before|..]) == Some(to)
  }

  lemma FollowsOn(region: string, from: CreatePhase, before: seq<Call>, log: seq<Call>, phase: CreatePhase, call: Call)
    requires Follows(region, from, before, log, phase) && Advance(region, phase, call).Some?
    ensures Follows(region, from, before, log + [call], Advance(region, phase, call).value)
  {
    AdvanceAllExtend(region, from, log[|before|..], call);
    assert (log + [call])[|before|..] == log[|before|..] + [call];
  }

  lemma {:induction false} AdvanceAllThrough(region: string, from: CreatePhase, s: seq<Call>, middle: CreatePhase, t: seq<Call>)
    requires AdvanceAll(region, from, s) == Some(middle)
    ensures AdvanceAll(region, from, s + t) == AdvanceAll(region, middle, t)
    decreases |t|
  {
    if t == [] {
      assert s + t == s;
    } else {
      var n := |t| - 1;
      AdvanceAllThrough(region, from, s, middle, t[..n]);
      assert (s + t)[..|s + t| - 1] == s + t[..n];
    }
  }

  lemma FollowsThrough(region: string, from: CreatePhase, before: seq<Call>, log: seq<Call>, middle: CreatePhase,
                       after: seq<Call>, to: CreatePhase)
    requires Follows(region, from, before, log, middle) && Follows(region, middle, log, after, to)
    ensures Follows(region, from, before, after, to)
  {
    AdvanceAllThrough(region, from, log[|before|..], middle, after[|log|..]);
    assert after[|before|..] == log[|before|..] + after[|log|..];
  }

  // Exactly one pool was added: made as requested, under a new ID, with the droplet the
  // instance names.
  ghost predicate Launched(c: Cloud, t: Cloud, request: PoolRequest, inst: Instance, region: string) {
    var id := inst.nodePoolID;
    && id !in c.usedIDs && t.pools.Keys == c.pools.Keys + {id}
    && (forall other :: other in c.pools && other != id ==> t.pools[other] == c.pools[other])
    && Managed(t.pools[id]) && t.pools[id].size == request.size && t.pools[id].tags == request.tags
    && t.pools[id].name == request.name && t.pools[id].labels == request.labels
    && |t.pools[id].nodes| == t.pools[id].count == 1
    && inst == NodeToInstance(t.pools[id], t.pools[id].nodes[0], region) && ValidDropletID(inst.dropletID)
  }

  // A pool was added and could not be removed again.
  ghost predicate LeftBehind(c: Cloud, t: Cloud, request: PoolRequest, id: string) {
    && id !in c.usedIDs && t.pools.Keys == c.pools.Keys + {id}
    && (forall other :: other in c.pools && other != id ==> t.pools[other] == c.pools[other])
    && t.pools[id].size == request.size && t.pools[id].tags == request.tags
    && t.pools[id].name == request.name && t.pools[id].labels == request.labels && t.pools[id].taints == request.taints
  }

  lemma LaunchedAfterWait(c: Cloud, request: PoolRequest, p: Pool, waited: Cloud, inst: Instance, node: Node, region: string, ok: bool)
    requires WellFormed(c) && MayReply(c, CreateCall(request, Some(p))) && request.count == 1 && TAG_MANAGED_BY in request.tags
    requires WellFormed(waited) && OnlyNodesMove(Put(c, p), waited, p.id) && |waited.pools[p.id].nodes| <= 1
    requires FirstReady(waited.pools[p.id].nodes) == Some(node) && inst == NodeToInstance(waited.pools[p.id], node, region)
    ensures Launched(c, Effect(waited, TaintsCall(p.id, ok)), request, inst, region)
    ensures Effect(waited, TaintsCall(p.id, ok)).pools[p.id].taints == if ok then [] else request.taints
  {
  }

  // What the two outcomes of the cleanup leave of the pools.
  ghost predicate CleanedUp(c: Cloud, t: Cloud, request: PoolRequest, call: Call) {
    && call.DeleteCall?
    && if call.reply.Deleted? then t.pools == c.pools
       else call.reply.DeleteError? && LeftBehind(c, t, request, call.id)
  }

  lemma CleanedUpAfterWait(c: Cloud, request: PoolRequest, p: Pool, waited: Cloud, reply: DeleteReply)
    requires WellFormed(c) && MayReply(c, CreateCall(request, Some(p))) && OnlyNodesMove(Put(c, p), waited, p.id)
    requires MayReply(waited, DeleteCall(p.id, reply))
    ensures CleanedUp(c, Effect(waited, DeleteCall(p.id, reply)), request, DeleteCall(p.id, reply))
  {
  }

  // A finished Create call. The calls made are those of its phases. Either exactly one
  // pool was added, or the pools are as they were, or the removal of the added pool failed.
  ghost predicate CreateResult(request: PoolRequest, region: string, c: Cloud, log: seq<Call>, t: Cloud, log': seq<Call>, r: Result<Instance>) {
    && Follows(region, Requesting(request), log, log', if r.Ok? then Created(r.value) else CreateFailed)
    && log < log'
    && var last := log'[|log'| - 1];
       match r
       case Ok(inst) =>
         && Launched(c, t, request, inst, region)
         && last.TaintsCall? && t.pools[inst.nodePoolID].taints == if last.ok then [] else request.taints
       case Err(PoolRejected) => t == c && log' == log + [CreateCall(request, None)]
       case Err(e) => e == NodeNotProvisioned && CleanedUp(c, t, request, last)
  }

  lemma CreateRejected(request: PoolRequest, region: string, c: Cloud, log: seq<Call>)
    ensures CreateResult(request, region, c, log, c, log + [CreateCall(request, None)], Err(PoolRejected))
  {
  }

  lemma StartsWith(request: PoolRequest, region: string, log: seq<Call>, created: Option<Pool>)
    ensures Follows(region, Requesting(request), log, log + [CreateCall(request, created)],
                    Advance(region, Requesting(request), CreateCall(request, created)).value)
  {
  }

  lemma CreateCleanedUp(request: PoolRequest, region: string, c: Cloud, log: seq<Call>, p: Pool, waited: Cloud, log': seq<Call>,
                        reply: DeleteReply)
    requires WellFormed(c) && MayReply(c, CreateCall(request, Some(p))) && OnlyNodesMove(Put(c, p), waited, p.id)
    requires Follows(region, Polling(p.id, 0), log + [CreateCall(request, Some(p))], log', CleaningUp(p.id))
    requires MayReply(waited, DeleteCall(p.id, reply))
    ensures CreateResult(request, region, c, log, Effect(waited, DeleteCall(p.id, reply)), log' + [DeleteCall(p.id, reply)],
                         Err(NodeNotProvisioned))
  {
    StartsWith(request, region, log, Some(p));
    FollowsThrough(region, Requesting(request), log, log + [CreateCall(request, Some(p))], Polling(p.id, 0), log', CleaningUp(p.id));
    FollowsOn(region, Requesting(request), log, log', CleaningUp(p.id), DeleteCall(p.id, reply));
    CleanedUpAfterWait(c, request, p, waited, reply);
  }

  lemma CreateSucceeded(request: PoolRequest, region: string, c: Cloud, log: seq<Call>, p: Pool, waited: Cloud, log': seq<Call>,
                        inst: Instance, node: Node, ok: bool)
    requires WellFormed(c) && MayReply(c, CreateCall(request, Some(p))) && request.count == 1 && TAG_MANAGED_BY in request.tags
    requires WellFormed(waited) && OnlyNodesMove(Put(c, p), waited, p.id)
    requires Follows(region, Polling(p.id, 0), log + [CreateCall(request, Some(p))], log', ClearingTaints(p.id, inst))
    requires FirstReady(waited.pools[p.id].nodes) == Some(node) && inst == NodeToInstance(waited.pools[p.id], node, region)
    ensures CreateResult(request, region, c, log, Effect(waited, TaintsCall(p.id, ok)), log' + [TaintsCall(p.id, ok)], Ok(inst))
  {
    StartsWith(request, region, log, Some(p));
    FollowsThrough(region, Requesting(request), log, log + [CreateCall(request, Some(p))], Polling(p.id, 0), log',
                   ClearingTaints(p.id, inst));
    FollowsOn(region, Requesting(request), log, log', ClearingTaints(p.id, inst), TaintsCall(p.id, ok));
    LaunchedAfterWait(c, request, p, waited, inst, node, region, ok);
  }

  // One delete request: what it answered, what it did, and what Delete makes of it.
  ghost predicate Removed(c: Cloud, log: seq<Call>, id: string, reply: DeleteReply, t: Cloud, log': seq<Call>, failure: Option<Error>) {
    && MayReply(c, DeleteCall(id, reply)) && t == Effect(c, DeleteCall(id, reply)) && log' == log + [DeleteCall(id, reply)]
    && failure == if reply.DeleteError? then Some(DeleteFailed) else None
  }

  // What a lookup by droplet ID answers when the listing came out as page.
  function Answer(page: Option<seq<Pool>>, d: string, region: string): Result<Instance> {
    if page.None? then Err(ApiFailed)
    else
      var hit := FindInstance(ManagedPools(page.value), d, region);
      if hit.Some? then Ok(hit.value) else Err(NodeClaimNotFound)
  }

  // A lookup fails with an API error exactly if the listing failed, and with NotFound
  // exactly if it came back and no tagged pool on it has the droplet ID.
  lemma AnswersExactly(page: Option<seq<Pool>>, d: string, region: string)
    ensures Answer(page, d, region) == Err(ApiFailed) <==> page.None?
    ensures Answer(page, d, region) == Err(NodeClaimNotFound) <==>
      page.Some? && forall p :: p in page.value && Managed(p) ==> !HasDroplet(p, d)
    ensures Answer(page, d, region).Ok? <==> page.Some? && exists p :: p in page.value && Managed(p) && HasDroplet(p, d)
    ensures Answer(page, d, region).Ok? ==>
      exists i, j :: FirstMatch(ManagedPools(page.value), d, i, j) &&
        Answer(page, d, region).value ==
          NodeToInstance(ManagedPools(page.value)[i], ManagedPools(page.value)[i].nodes[j], region)
  {
    if page.Some? {
      FindIsFirstMatch(ManagedPools(page.value), d, region);
      forall p | p in page.value && Managed(p) ensures p in ManagedPools(page.value) {
        Seqs.FilterKeeps((q: Pool) => Managed(q), page.value, p);
      }
    }
  }

  function ReadyInstance(p: Pool, region: string): Option<Instance> {
    var node := FirstReady(p.nodes);
    if node.Some? then Some(NodeToInstance(p, node.value, region)) else None
  }

  class Provider {
    const api: Api
    const clusterName: string
    const region: string

    constructor (api: Api, clusterName: string, region: string)
      ensures this.api == api && this.clusterName == clusterName && this.region == region
    {
      this.api, this.clusterName, this.region := api, clusterName, region;
    }

    method ReadyNode(nodes: seq<Node>) returns (r: Option<Node>)
      ensures r == FirstReady(nodes)
    {
      for i := 0 to |nodes|
        invariant FirstReady(nodes) == FirstReady(nodes[i..])
      {
        if nodes[i].dropletID != "" && nodes[i].dropletID != "0" {
          return Some(nodes[i]);
        }
      }
      r := None;
    }

    // Poll until a node of the pool has its droplet. The outcome and the calls made are
    // those of the Create phases; the cloud changes only by what DOKS does to this pool.
    method WaitForNode(id: string) returns (r: Option<Instance>)
      requires api.Valid()
      modifies api
      ensures api.Valid() && OnlyNodesMove(old(api.cloud), api.cloud, id)
      ensures Follows(region, Polling(id, 0), old(api.log), api.log,
                      if r.Some? then ClearingTaints(id, r.value) else CleaningUp(id))
      ensures r.Some? ==> id in api.cloud.pools
      ensures r.Some? ==> ReadyInstance(api.cloud.pools[id], region) == r
    {
      var attempt := 0;
      ghost var start := api.log;
      while attempt < MAX_ATTEMPTS
        invariant attempt <= MAX_ATTEMPTS
        invariant api.Valid() && OnlyNodesMove(old(api.cloud), api.cloud, id)
        invariant Follows(region, Polling(id, 0), start, api.log,
                          if attempt < MAX_ATTEMPTS then Polling(id, attempt) else CleaningUp(id))
      {
        ghost var log, before := api.log, api.cloud;
        var pool := api.GetNodePool(id);
        OnlyNodesMoveOn(old(api.cloud), before, api.cloud, id);
        ghost var phase := Advance(region, Polling(id, attempt), GetCall(id, pool)).value;
        assert Follows(region, Polling(id, 0), start, api.log, phase) by {
          FollowsOn(region, Polling(id, 0), start, log, Polling(id, attempt), GetCall(id, pool));
        }
        if pool.None? {
          return None;
        }
        var node := ReadyNode(pool.value.nodes);
        if node.Some? {
          return Some(NodeToInstance(pool.value, node.value, region));
        }
        log := api.log;
        var cancelled := api.Sleep();
        assert Follows(region, Polling(id, 0), start, api.log, Advance(region, phase, Slept(cancelled)).value) by {
          FollowsOn(region, Polling(id, 0), start, log, phase, Slept(cancelled));
        }
        if cancelled {
          return None;
        }
        attempt := attempt + 1;
      }
      return None;
    }

    // Create a pool for the first instance type and wait for its node. Alone, a call
    // either adds exactly one pool or leaves the pools as they were; a pool is left
    // behind only when its removal failed.
    method Create(classTags: seq<string>, claimName: string, types: seq<InstanceTypes.InstanceType>)
      returns (r: Result<Instance>)
      requires api.Valid()
      modifies api
      ensures api.Valid()
      ensures types == [] ==>
        r == Err(NoInstanceTypesProvided) && api.cloud == old(api.cloud) && api.log == old(api.log)
      ensures types != [] ==>
        CreateResult(Request(clusterName, region, claimName, types[0].name, classTags), region,
                     old(api.cloud), old(api.log), api.cloud, api.log, r)
    {
      if types == [] {
        return Err(NoInstanceTypesProvided);
      }
      var request := Request(clusterName, region, claimName, types[0].name, classTags);
      ghost var c, log := api.cloud, api.log;
      var pool := api.CreateNodePool(request);
      if pool.None? {
        CreateRejected(request, region, c, log);
        return Err(PoolRejected);
      }
      var id := pool.value.id;
      var inst := WaitForNode(id);
      ghost var waited, log' := api.cloud, api.log;
      if inst.None? {
        var reply := api.DeleteNodePool(id);
        CreateCleanedUp(request, region, c, log, pool.value, waited, log', reply);
        return Err(NodeNotProvisioned);
      }
      var cleared := api.ClearTaints(id);
      ghost var node := FirstReady(waited.pools[id].nodes).value;
      CreateSucceeded(request, region, c, log, pool.value, waited, log', inst.value, node, cleared);
      r := Ok(inst.value);
    }

    // A pool that is already gone counts as deleted.
    method Delete(id: string) returns (failure: Option<Error>)
      requires api.Valid()
      modifies api
      ensures api.Valid()
      ensures exists reply :: Removed(old(api.cloud), old(api.log), id, reply, api.cloud, api.log, failure)
      ensures api.cloud.pools == if failure.None? then old(api.cloud).pools - {id} else old(api.cloud).pools
    {
      var reply := api.DeleteNodePool(id);
      failure := if reply.DeleteError? then Some(DeleteFailed) else None;
      assert reply.NotFound? ==> api.cloud.pools - {id} == api.cloud.pools;
      assert Removed(old(api.cloud), old(api.log), id, reply, api.cloud, api.log, failure);
    }

    method HasTag(tags: seq<string>, tag: string) returns (r: bool)
      ensures r <==> tag in tags
    {
      for i := 0 to |tags|
        invariant tag !in tags[..i]
      {
        if tags[i] == tag {
          return true;
        }
      }
      r := false;
    }

    method ListManagedNodePools() returns (r: Option<seq<Pool>>)
      requires api.Valid()
      modifies api`log
      ensures exists page :: api.log == old(api.log) + [ListCall(page)] && MayReply(api.cloud, ListCall(page)) &&
                             r == if page.None? then None else Some(ManagedPools(page.value))
    {
      var page := api.ListNodePools();
      if page.None? {
        return None;
      }
      var all := page.value;
      var managed := [];
      for i := 0 to |all|
        invariant managed == ManagedPools(all[..i])
        invariant api.log == old(api.log) + [ListCall(page)]
      {
        assert all[..i + 1][..i] == all[..i];
        var tagged := HasTag(all[i].tags, TAG_MANAGED_BY);
        if tagged {
          managed := managed + [all[i]];
        }
      }
      assert all[..|all|] == all;
      r := Some(managed);
    }

    method Get(d: string) returns (r: Result<Instance>)
      requires api.Valid()
      modifies api`log
      ensures exists page :: api.log == old(api.log) + [ListCall(page)] && MayReply(api.cloud, ListCall(page)) &&
                             r == Answer(page, d, region)
    {
      var pools := ListManagedNodePools();
      ghost var page :| api.log == old(api.log) + [ListCall(page)] && MayReply(api.cloud, ListCall(page)) &&
                        pools == if page.None? then None else Some(ManagedPools(page.value));
      if pools.None? {
        return Err(ApiFailed);
      }
      for i := 0 to |pools.value|
        invariant FindInstance(pools.value, d, region) == FindInstance(pools.value[i..], d, region)
      {
        var nodes := pools.value[i].nodes;
        for j := 0 to |nodes|
          invariant FindNode(nodes, d) == FindNode(nodes[j..], d)
        {
          if nodes[j].dropletID == d {
            assert Answer(page, d, region) == Ok(NodeToInstance(pools.value[i], nodes[j], region));
            return Ok(NodeToInstance(pools.value[i], nodes[j], region));
          }
        }
      }
      assert pools.value[|pools.value|..] == [];
      assert Answer(page, d, region) == Err(NodeClaimNotFound);
      r := Err(NodeClaimNotFound);
    }

    // The nodes of one pool that have their droplet.
    method ListNodes(p: Pool) returns (instances: seq<Instance>)
      ensures instances == PoolInstances(p, p.nodes, region)
    {
      instances := [];
      for j := 0 to |p.nodes|
        invariant instances == PoolInstances(p, p.nodes[..j], region)
      {
        assert p.nodes[..j + 1][..j] == p.nodes[..j];
        if p.nodes[j].dropletID != "" && p.nodes[j].dropletID != "0" {
          instances := instances + [NodeToInstance(p, p.nodes[j], region)];
        }
      }
      assert p.nodes[..|p.nodes|] == p.nodes;
    }

    method List() returns (r: Option<seq<Instance>>)
      requires api.Valid()
      modifies api`log
      ensures exists page :: api.log == old(api.log) + [ListCall(page)] && MayReply(api.cloud, ListCall(page)) &&
                             r == if page.None? then None else Some(InstancesOf(ManagedPools(page.value), region))
    {
      var pools := ListManagedNodePools();
      ghost var log := api.log;
      if pools.None? {
        return None;
      }
      var instances := [];
      for i := 0 to |pools.value|
        invariant instances == InstancesOf(pools.value[..i], region) && api.log == log
      {
        assert pools.value[..i + 1][..i] == pools.value[..i];
        var ready := ListNodes(pools.value[i]);
        instances := instances + ready;
      }
      assert pools.value[..|pools.value|] == pools.value;
      r := Some(instances);
    }
  }

  // ---- What the polling calls must have been ----

  predicate Miss(id: string, call: Call) {
    call.GetCall? && call.id == id && call.found.Some? && FirstReady(call.found.value.nodes).None?
  }

  // n polls without a droplet, each followed by an undisturbed pause.
  ghost predicate Misses(id: string, calls: seq<Call>, n: nat) {
    2 * n <= |calls| && forall m :: 0 <= m < n ==> Miss(id, calls[2 * m]) && calls[2 * m + 1] == Slept(false)
  }

  // The poll after n misses fails, or misses too and is cancelled or was the last.
  ghost predicate GivesUp(id: string, calls: seq<Call>, n: nat) {
    && Misses(id, calls, n)
    && if |calls| == 2 * n + 1 then calls[2 * n] == GetCall(id, None)
       else
         && |calls| == 2 * n + 2 && Miss(id, calls[2 * n]) && calls[2 * n + 1].Slept?
         && (calls[2 * n + 1].cancelled || n + 1 == MAX_ATTEMPTS)
  }

  // How the calls made so far and the phase they lead to go together.
  ghost predicate PollingRecord(region: string, id: string, calls: seq<Call>, phase: CreatePhase) {
    match phase
    case Polling(i, n) => i == id && n < MAX_ATTEMPTS && |calls| == 2 * n && Misses(id, calls, n)
    case Pausing(i, n) =>
      i == id && n < MAX_ATTEMPTS && |calls| == 2 * n + 1 && Misses(id, calls, n) && Miss(id, calls[2 * n])
    case ClearingTaints(i, inst) =>
      i == id && exists n: nat, p, node ::
                   n < MAX_ATTEMPTS && |calls| == 2 * n + 1 && Misses(id, calls, n) &&
                   calls[2 * n] == GetCall(id, Some(p)) &&
                   FirstReady(p.nodes) == Some(node) && inst == NodeToInstance(p, node, region)
    case CleaningUp(i) => i == id && exists n: nat :: n < MAX_ATTEMPTS && GivesUp(id, calls, n)
    case _ => true
  }

  lemma RecordStep(region: string, id: string, calls: seq<Call>, phase: CreatePhase, call: Call)
    requires PollingRecord(region, id, calls, phase) && (phase.Polling? || phase.Pausing?)
    requires Advance(region, phase, call).Some?
    ensures PollingRecord(region, id, calls + [call], Advance(region, phase, call).value)
  {
    var n := phase.attempt;
    var longer := calls + [call];
    assert Misses(id, longer, n);
    if phase.Polling? {
      if call.found.Some? && FirstReady(call.found.value.nodes).Some? {
        assert longer[2 * n] == GetCall(id, Some(call.found.value));
      } else if call.found.None? {
        assert GivesUp(id, longer, n);
      }
    } else if !call.cancelled && n + 1 < MAX_ATTEMPTS {
      assert Misses(id, longer, n + 1);
    } else {
      assert GivesUp(id, longer, n);
    }
  }

  predicate Waiting(phase: CreatePhase) {
    phase.Polling? || phase.Pausing? || phase.ClearingTaints? || phase.CleaningUp?
  }

  // Waiting makes at most 60 polls. It ends with an instance exactly at the first poll
  // that shows a droplet, and gives up only on a failed poll, a cancelled pause, or
  // after the sixtieth miss.
  lemma {:induction false} PollsTellTheOutcome(region: string, id: string, calls: seq<Call>)
    requires AdvanceAll(region, Polling(id, 0), calls).Some?
    requires Waiting(AdvanceAll(region, Polling(id, 0), calls).value)
    ensures PollingRecord(region, id, calls, AdvanceAll(region, Polling(id, 0), calls).value)
    ensures |calls| <= 2 * MAX_ATTEMPTS
    decreases |calls|
  {
    if calls != [] {
      var n := |calls| - 1;
      assert calls == calls[..n] + [calls[n]];
      PollsTellTheOutcome(region, id, calls[..n]);
      RecordStep(region, id, calls[..n], AdvanceAll(region, Polling(id, 0), calls[..n]).value, calls[n]);
    }
  }
}
