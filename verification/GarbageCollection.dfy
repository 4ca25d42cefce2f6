// The controller that removes node pools no NodeClaim answers for.
module GarbageCollection {
  import opened Wrappers
  import Seqs
  import opened Doks
  import opened Instances
  import opened Claims
  import InstanceProvider

  function DeleteCalls(worklist: seq<Instance>, replies: seq<DeleteReply>): (calls: seq<Call>)
    requires |replies| == |worklist|
    ensures |calls| == |worklist|
    ensures forall i :: 0 <= i < |calls| ==> calls[i] == DeleteCall(worklist[i].nodePoolID, replies[i])
  {
    seq(|worklist|, i requires 0 <= i < |worklist| => DeleteCall(worklist[i].nodePoolID, replies[i]))
  }

  // The pools that went away.
  function Gone(worklist: seq<Instance>, replies: seq<DeleteReply>): set<string>
    requires |replies| == |worklist|
  {
    set i | 0 <= i < |worklist| && replies[i].Deleted? :: worklist[i].nodePoolID
  }

  // Every entry of the worklist was tried once, in order, whatever happened to the
  // others; the pools are what they were, less those whose deletion succeeded.
  ghost predicate Swept(worklist: seq<Instance>, replies: seq<DeleteReply>, c: Cloud, log: seq<Call>, t: Cloud, log': seq<Call>) {
    && |replies| == |worklist| && log' == log + DeleteCalls(worklist, replies)
    && t.pools == c.pools - Gone(worklist, replies) && t.usedIDs == c.usedIDs && t.homes == c.homes
    && forall i :: 0 <= i < |worklist| && !replies[i].DeleteError? ==> worklist[i].nodePoolID !in t.pools
  }

  lemma SweptFurther(worklist: seq<Instance>, replies: seq<DeleteReply>, c: Cloud, log: seq<Call>, t: Cloud, log': seq<Call>,
                     inst: Instance, reply: DeleteReply)
    requires Swept(worklist, replies, c, log, t, log') && MayReply(t, DeleteCall(inst.nodePoolID, reply))
    ensures var call := DeleteCall(inst.nodePoolID, reply);
      Swept(worklist + [inst], replies + [reply], c, log, Effect(t, call), log' + [call])
  {
    var w, r := worklist + [inst], replies + [reply];
    assert DeleteCalls(w, r) == DeleteCalls(worklist, replies) + [DeleteCall(inst.nodePoolID, reply)];
    forall id ensures id in Gone(w, r) <==> id in Gone(worklist, replies) || (reply.Deleted? && id == inst.nodePoolID) {
      if id in Gone(worklist, replies) {
        var i :| 0 <= i < |worklist| && replies[i].Deleted? && worklist[i].nodePoolID == id;
        assert w[i] == worklist[i] && r[i] == replies[i];
      }
      if reply.Deleted? && id == inst.nodePoolID {
        assert w[|worklist|] == inst && r[|worklist|] == reply;
      }
    }
  }

  function Worklist(page: seq<Pool>, region: string, claims: seq<NodeClaim>): seq<Instance> {
    Orphans(InstancesOf(ManagedPools(page), region), KnownIDs(claims))
  }

  lemma KnownIDsExtend(claims: seq<NodeClaim>, i: nat)
    requires i < |claims|
    ensures KnownIDs(claims[..i + 1]) ==
      KnownIDs(claims[..i]) + (if claims[i].providerID != "" then {claims[i].providerID} else {})
  {
  }

  lemma OrphansExtend(instances: seq<Instance>, known: set<string>, i: nat)
    requires i < |instances|
    ensures Orphans(instances[..i + 1], known) ==
      Orphans(instances[..i], known) + (if Unclaimed(instances[i], known) then [instances[i]] else [])
  {
    assert instances[..i + 1][..i] == instances[..i];
  }

  // One pass: nothing happens unless both lists could be read; then every orphan of the
  // page is swept.
  ghost predicate Pass(region: string, page: Option<seq<Pool>>, claims: Option<seq<NodeClaim>>, c: Cloud, log: seq<Call>,
                       t: Cloud, log': seq<Call>, failure: Option<Error>)
  {
    && MayReply(c, ListCall(page))
    && if page.None? || claims.None? then failure == Some(ApiFailed) && t == c && log' == log + [ListCall(page)]
       else
         failure == None &&
         exists replies :: Swept(Worklist(page.value, region, claims.value), replies, c, log + [ListCall(page)], t, log')
  }

  lemma PassDone(region: string, page: seq<Pool>, claims: seq<NodeClaim>, c: Cloud, log: seq<Call>, t: Cloud, log': seq<Call>,
                 replies: seq<DeleteReply>)
    requires MayReply(c, ListCall(Some(page)))
    requires Swept(Worklist(page, region, claims), replies, c, log + [ListCall(Some(page))], t, log')
    ensures Pass(region, Some(page), Some(claims), c, log, t, log', None)
  {
  }

  class Controller {
    const instances: InstanceProvider.Provider

    constructor (instances: InstanceProvider.Provider)
      ensures this.instances == instances
    {
      this.instances := instances;
    }

    // The deleting half of a pass.
    method SweepOrphans(listed: seq<Instance>, known: set<string>)
      requires instances.api.Valid()
      modifies instances.api
      ensures instances.api.Valid()
      ensures exists replies :: Swept(Orphans(listed, known), replies, old(instances.api.cloud), old(instances.api.log),
                                      instances.api.cloud, instances.api.log)
    {
      ghost var c, log, replies: seq<DeleteReply> := instances.api.cloud, instances.api.log, [];
      assert Swept([], [], c, log, c, log) by {
        assert DeleteCalls([], []) == [] && c.pools - Gone([], []) == c.pools;
      }
      for i := 0 to |listed|
        invariant instances.api.Valid()
        invariant Swept(Orphans(listed[..i], known), replies, c, log, instances.api.cloud, instances.api.log)
      {
        OrphansExtend(listed, known, i);
        if ProviderID(listed[i].dropletID) !in known {
          ghost var d, l := instances.api.cloud, instances.api.log;
          var ignored := instances.Delete(listed[i].nodePoolID);
          ghost var reply :| InstanceProvider.Removed(d, l, listed[i].nodePoolID, reply,
                                                      instances.api.cloud, instances.api.log, ignored);
          SweptFurther(Orphans(listed[..i], known), replies, c, log, d, l, listed[i], reply);
          replies := replies + [reply];
        }
      }
      assert listed[..|listed|] == listed;
    }

    method ProviderIDs(claims: seq<NodeClaim>) returns (known: set<string>)
      ensures known == KnownIDs(claims)
    {
      known := {};
      for i := 0 to |claims|
        invariant known == KnownIDs(claims[..i])
      {
        if claims[i].providerID != "" {
          known := known + {claims[i].providerID};
        }
        KnownIDsExtend(claims, i);
      }
      assert claims[..|claims|] == claims;
    }

    // claims is what reading the NodeClaims answers, after the instances were listed.
    method Reconcile(claims: Option<seq<NodeClaim>>) returns (failure: Option<Error>)
      requires instances.api.Valid()
      modifies instances.api
      ensures instances.api.Valid()
      ensures exists page :: Pass(instances.region, page, claims, old(instances.api.cloud), old(instances.api.log),
                                  instances.api.cloud, instances.api.log, failure)
    {
      ghost var c, log := instances.api.cloud, instances.api.log;
      var listed := instances.List();
      ghost var page :| instances.api.log == log + [ListCall(page)] && MayReply(c, ListCall(page)) &&
                        listed == if page.None? then None else Some(InstancesOf(ManagedPools(page.value), instances.region));
      if listed.None? || claims.None? {
        assert Pass(instances.region, page, claims, c, log, instances.api.cloud, instances.api.log, Some(ApiFailed));
        return Some(ApiFailed);
      }
      var known := ProviderIDs(claims.value);
      SweepOrphans(listed.value, known);
      ghost var replies :| Swept(Orphans(listed.value, known), replies, c, log + [ListCall(page)],
                                 instances.api.cloud, instances.api.log);
      failure := None;
      PassDone(instances.region, page.value, claims.value, c, log, instances.api.cloud, instances.api.log, replies);
    }
  }

  // ---- The pass as seen by the concurrent lifecycle ----

  function GcRun(region: string, phase: GcPhase, calls: seq<Call>): Option<GcPhase>
    decreases |calls|
  {
    if calls == [] then Some(phase)
    else
      var next := AdvanceGc(region, phase, calls[0]);
      if next.None? then None else GcRun(region, next.value, calls[1..])
  }

  // The deletions of a pass take the garbage collection phases through the whole worklist.
  lemma {:induction false} SweepFollowsPhases(region: string, read: seq<NodeClaim>, worklist: seq<Instance>, replies: seq<DeleteReply>)
    requires |replies| == |worklist|
    ensures GcRun(region, GcSweeping(read, worklist), DeleteCalls(worklist, replies)) == Some(GcSweeping(read, []))
    decreases |worklist|
  {
    if worklist != [] {
      assert DeleteCalls(worklist, replies)[1..] == DeleteCalls(worklist[1..], replies[1..]);
      SweepFollowsPhases(region, read, worklist[1..], replies[1..]);
    }
  }

  predicate Idle(phase: GcPhase) {
    phase.GcIdle? || (phase.GcSweeping? && phase.worklist == [])
  }

  // After the listing and the reading, these calls leave nothing to do.
  ghost predicate WorksOff(region: string, page: Option<seq<Pool>>, claims: Option<seq<NodeClaim>>, calls: seq<Call>) {
    var listed := AdvanceGc(region, GcIdle, ListCall(page));
    && listed.Some?
    && var start := if listed.value.GcListed? then AfterReading(listed.value.instances, claims) else listed.value;
       var end := GcRun(region, start, calls);
       end.Some? && Idle(end.value)
  }

  // A whole pass is a path of these phases: the listing, what AfterReading makes of the
  // claims, and deletions until there is nothing left to do.
  lemma PassFollowsPhases(region: string, page: Option<seq<Pool>>, claims: Option<seq<NodeClaim>>, c: Cloud, log: seq<Call>,
                          t: Cloud, log': seq<Call>, failure: Option<Error>)
    requires Pass(region, page, claims, c, log, t, log', failure)
    ensures exists calls :: log' == log + [ListCall(page)] + calls && WorksOff(region, page, claims, calls)
  {
    if page.None? || claims.None? {
      assert log' == log + [ListCall(page)] + [];
      assert WorksOff(region, page, claims, []);
    } else {
      var worklist := Worklist(page.value, region, claims.value);
      var replies :| Swept(worklist, replies, c, log + [ListCall(page)], t, log');
      SweepFollowsPhases(region, claims.value, worklist, replies);
      assert WorksOff(region, page, claims, DeleteCalls(worklist, replies));
    }
  }

  // ---- Undisturbed passes ----

  // The pools garbage collection would go for if it saw all of them.
  ghost function OrphanPools(c: Cloud, known: set<string>): set<string> {
    set id | id in c.pools && Managed(c.pools[id])
             && exists d :: d in Droplets(c.pools[id].nodes) && ProviderID(d) !in known
  }

  lemma WorklistPoolsExact(c: Cloud, page: seq<Pool>, region: string, claims: seq<NodeClaim>, id: string)
    requires WellFormed(c) && IsPage(page, c.pools)
    ensures (exists inst :: inst in Worklist(page, region, claims) && inst.nodePoolID == id)
      <==> id in PageIDs(page) && id in OrphanPools(c, KnownIDs(claims))
  {
    var known, instances := KnownIDs(claims), InstancesOf(ManagedPools(page), region);
    if inst :| inst in Worklist(page, region, claims) && inst.nodePoolID == id {
      ListedExactly(ManagedPools(page), region, inst);
      var p :| p in ManagedPools(page) && Shows(p, region, inst);
      var node :| node in p.nodes && ValidDropletID(node.dropletID) && inst == NodeToInstance(p, node, region);
      assert p in page && node.dropletID in Droplets(p.nodes);
    }
    if id in PageIDs(page) && id in OrphanPools(c, known) {
      var p := c.pools[id];
      var d :| d in Droplets(p.nodes) && ProviderID(d) !in known;
      var node :| node in p.nodes && ValidDropletID(node.dropletID) && node.dropletID == d;
      var inst := NodeToInstance(p, node, region);
      Seqs.FilterKeeps((q: Pool) => Managed(q), page, p);
      assert Shows(p, region, inst);
      ListedExactly(ManagedPools(page), region, inst);
      Seqs.FilterKeeps((i: Instance) => Unclaimed(i, known), instances, inst);
    }
  }

  // Provider IDs decide, not annotations: a pool of one node that its claim names is
  // collected exactly if the node's droplet is no longer the one recorded.
  lemma ReplacedNodeIsCollected(c: Cloud, page: seq<Pool>, region: string, claim: NodeClaim, d: string)
    requires WellFormed(c) && IsPage(page, c.pools) && PoolAnnotation(claim) in PageIDs(page)
    requires var p := c.pools[PoolAnnotation(claim)]; Managed(p) && Droplets(p.nodes) == {d}
    ensures (exists inst :: inst in Worklist(page, region, [claim]) && inst.nodePoolID == PoolAnnotation(claim))
      <==> claim.providerID != ProviderID(d)
  {
    var id, known := PoolAnnotation(claim), KnownIDs([claim]);
    WorklistPoolsExact(c, page, region, [claim], id);
    assert claim in [claim] && ProviderID(d) != "";
    assert d in Droplets(c.pools[id].nodes);
    assert ProviderID(d) in known <==> claim.providerID == ProviderID(d);
  }

  lemma GoneIsOrphaned(c: Cloud, page: seq<Pool>, region: string, claims: seq<NodeClaim>, replies: seq<DeleteReply>)
    requires WellFormed(c) && IsPage(page, c.pools) && |replies| == |Worklist(page, region, claims)|
    ensures Gone(Worklist(page, region, claims), replies) <= OrphanPools(c, KnownIDs(claims))
  {
    var worklist := Worklist(page, region, claims);
    forall id | id in Gone(worklist, replies) ensures id in OrphanPools(c, KnownIDs(claims)) {
      var i :| 0 <= i < |worklist| && replies[i].Deleted? && worklist[i].nodePoolID == id;
      assert worklist[i] in worklist;
      WorklistPoolsExact(c, page, region, claims, id);
    }
  }

  lemma SmallerWithout<T>(s: set<T>, part: set<T>)
    requires part <= s && part != {}
    ensures |s - part| < |s|
  {
  }

  lemma OrphansWithout(c: Cloud, t: Cloud, gone: set<string>, known: set<string>)
    requires t.pools == c.pools - gone
    ensures OrphanPools(t, known) == OrphanPools(c, known) - gone
  {
  }

  // A pass removes from the orphans exactly the pools whose deletion succeeded, and
  // nothing else from the cloud; it makes headway whenever one deletion succeeds.
  lemma PassRemovesOrphans(c: Cloud, page: seq<Pool>, region: string, claims: seq<NodeClaim>, replies: seq<DeleteReply>,
                           log: seq<Call>, t: Cloud, log': seq<Call>)
    requires WellFormed(c) && IsPage(page, c.pools)
    requires Swept(Worklist(page, region, claims), replies, c, log, t, log')
    ensures Gone(Worklist(page, region, claims), replies) <= OrphanPools(c, KnownIDs(claims))
    ensures OrphanPools(t, KnownIDs(claims)) ==
      OrphanPools(c, KnownIDs(claims)) - Gone(Worklist(page, region, claims), replies)
    ensures (exists i :: 0 <= i < |replies| && replies[i].Deleted?) ==>
      |OrphanPools(t, KnownIDs(claims))| < |OrphanPools(c, KnownIDs(claims))|
  {
    var worklist := Worklist(page, region, claims);
    var gone := Gone(worklist, replies);
    GoneIsOrphaned(c, page, region, claims, replies);
    OrphansWithout(c, t, gone, KnownIDs(claims));
    if i :| 0 <= i < |replies| && replies[i].Deleted? {
      assert worklist[i].nodePoolID in gone;
      SmallerWithout(OrphanPools(c, KnownIDs(claims)), gone);
    }
  }

  lemma NoneLeft(c: Cloud, t: Cloud, gone: set<string>, known: set<string>)
    requires WellFormed(c) && t.pools == c.pools - gone && t.usedIDs == c.usedIDs && t.homes == c.homes
    requires forall id :: id in OrphanPools(c, known) ==> id !in t.pools
    ensures WellFormed(t) && OrphanPools(t, known) == {}
  {
  }

  lemma OrphanIsGone(c: Cloud, page: seq<Pool>, region: string, claims: seq<NodeClaim>, replies: seq<DeleteReply>,
                     log: seq<Call>, t: Cloud, log': seq<Call>, id: string)
    requires WellFormed(c) && IsPage(page, c.pools) && |c.pools| <= PAGE_SIZE
    requires Swept(Worklist(page, region, claims), replies, c, log, t, log')
    requires forall i :: 0 <= i < |replies| ==> !replies[i].DeleteError?
    requires id in OrphanPools(c, KnownIDs(claims))
    ensures id !in t.pools
  {
    var worklist := Worklist(page, region, claims);
    PageIsComplete(page, c, id);
    WorklistPoolsExact(c, page, region, claims, id);
    var inst :| inst in worklist && inst.nodePoolID == id;
    var i :| 0 <= i < |worklist| && worklist[i] == inst;
    assert !replies[i].DeleteError?;
  }

  lemma NoOrphanNoWork(t: Cloud, page: seq<Pool>, region: string, claims: seq<NodeClaim>)
    requires WellFormed(t) && IsPage(page, t.pools) && OrphanPools(t, KnownIDs(claims)) == {}
    ensures Worklist(page, region, claims) == []
  {
    var worklist := Worklist(page, region, claims);
    if worklist != [] {
      var inst := worklist[0];
      assert inst in worklist;
      WorklistPoolsExact(t, page, region, claims, inst.nodePoolID);
      assert false;
    }
  }

  // With at most one page of pools and no failed deletion, one pass leaves no orphan,
  // and the next pass over the same claims has nothing to delete.
  lemma OnePassSuffices(c: Cloud, page: seq<Pool>, region: string, claims: seq<NodeClaim>, replies: seq<DeleteReply>,
                        log: seq<Call>, t: Cloud, log': seq<Call>, page': seq<Pool>)
    requires WellFormed(c) && IsPage(page, c.pools) && |c.pools| <= PAGE_SIZE
    requires Swept(Worklist(page, region, claims), replies, c, log, t, log')
    requires forall i :: 0 <= i < |replies| ==> !replies[i].DeleteError?
    requires IsPage(page', t.pools)
    ensures OrphanPools(t, KnownIDs(claims)) == {} && Worklist(page', region, claims) == []
  {
    forall id | id in OrphanPools(c, KnownIDs(claims)) ensures id !in t.pools {
      OrphanIsGone(c, page, region, claims, replies, log, t, log', id);
    }
    NoneLeft(c, t, Gone(Worklist(page, region, claims), replies), KnownIDs(claims));
    NoOrphanNoWork(t, page', region, claims);
  }
}
