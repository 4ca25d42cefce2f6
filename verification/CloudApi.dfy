// The DOKS endpoint as an object. Each method answers in any way the cloud may, takes
// effect accordingly, and notes the call with its reply in the log.
module CloudApi {
  import opened Wrappers
  import opened Doks

  // Between two polls DOKS may bring up the nodes of the polled pool; nothing else moves.
  ghost predicate OnlyNodesMove(c: Cloud, t: Cloud, id: string) {
    && t.usedIDs == c.usedIDs
    && if id !in c.pools then t.pools == c.pools
       else
         && id in t.pools && t.pools == c.pools[id := c.pools[id].(nodes := t.pools[id].nodes)]
         && (|c.pools[id].nodes| <= c.pools[id].count ==> |t.pools[id].nodes| <= c.pools[id].count)
  }

  lemma OnlyNodesMoveOn(c: Cloud, t: Cloud, u: Cloud, id: string)
    requires OnlyNodesMove(c, t, id) && OnlyNodesMove(t, u, id)
    ensures OnlyNodesMove(c, u, id)
  {
  }

  class Api {
    var cloud: Cloud
    ghost var log: seq<Call>

    ghost predicate Valid()
      reads `cloud
    {
      WellFormed(cloud)
    }

    constructor (cloud: Cloud)
      requires WellFormed(cloud)
      ensures this.cloud == cloud && log == [] && Valid()
    {
      this.cloud := cloud;
      log := [];
    }

    method CreateNodePool(request: PoolRequest) returns (r: Option<Pool>)
      requires Valid()
      modifies this
      ensures Valid() && MayReply(old(cloud), CreateCall(request, r))
      ensures cloud == Effect(old(cloud), CreateCall(request, r))
      ensures log == old(log) + [CreateCall(request, r)]
    {
      var id: string := *;
      var nodes: seq<Node> := *;
      var p := Pool(id, request.name, request.size, request.count, request.tags, request.labels, request.taints, nodes);
      if id != "" && id !in cloud.usedIDs && |nodes| <= request.count && OwnDroplets(cloud.homes, p) {
        r := Some(p);
      } else {
        r := None;
      }
      EffectKeepsWellFormed(cloud, CreateCall(request, r));
      cloud := Effect(cloud, CreateCall(request, r));
      log := log + [CreateCall(request, r)];
    }

    method GetNodePool(id: string) returns (r: Option<Pool>)
      requires Valid()
      modifies this
      ensures Valid() && OnlyNodesMove(old(cloud), cloud, id) && MayReply(cloud, GetCall(id, r))
      ensures log == old(log) + [GetCall(id, r)]
    {
      var nodes: seq<Node> := *;
      var answers: bool := *;
      if id in cloud.pools && Provisions(cloud.homes, cloud.pools[id], cloud.pools[id].(nodes := nodes)) {
        PutKeepsWellFormed(cloud, cloud.pools[id].(nodes := nodes));
        cloud := Put(cloud, cloud.pools[id].(nodes := nodes));
      }
      r := if answers && id in cloud.pools then Some(cloud.pools[id]) else None;
      log := log + [GetCall(id, r)];
    }

    // Wait out one poll interval, or notice that the context was cancelled.
    method Sleep() returns (cancelled: bool)
      modifies `log
      ensures log == old(log) + [Slept(cancelled)]
    {
      cancelled := *;
      log := log + [Slept(cancelled)];
    }

    method ClearTaints(id: string) returns (ok: bool)
      requires Valid()
      modifies this
      ensures Valid() && MayReply(old(cloud), TaintsCall(id, ok))
      ensures cloud == Effect(old(cloud), TaintsCall(id, ok))
      ensures log == old(log) + [TaintsCall(id, ok)]
    {
      var answers: bool := *;
      ok := answers && id in cloud.pools;
      EffectKeepsWellFormed(cloud, TaintsCall(id, ok));
      cloud := Effect(cloud, TaintsCall(id, ok));
      log := log + [TaintsCall(id, ok)];
    }

    method DeleteNodePool(id: string) returns (reply: DeleteReply)
      requires Valid()
      modifies this
      ensures Valid() && MayReply(old(cloud), DeleteCall(id, reply))
      ensures cloud == Effect(old(cloud), DeleteCall(id, reply))
      ensures log == old(log) + [DeleteCall(id, reply)]
    {
      var answers: bool := *;
      reply := if !answers then DeleteError else if id in cloud.pools then Deleted else NotFound;
      EffectKeepsWellFormed(cloud, DeleteCall(id, reply));
      cloud := Effect(cloud, DeleteCall(id, reply));
      log := log + [DeleteCall(id, reply)];
    }

    // Some page, in some order.
    method ListNodePools() returns (r: Option<seq<Pool>>)
      requires Valid()
      modifies `log
      ensures MayReply(cloud, ListCall(r)) && log == old(log) + [ListCall(r)]
    {
      var page: seq<Pool> := *;
      r := if IsPage(page, cloud.pools) then Some(page) else None;
      log := log + [ListCall(r)];
    }
  }
}
