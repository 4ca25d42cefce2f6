// The CloudProvider methods Karpenter calls, over the instance and instance type providers.
module CloudProvider {
  import opened Wrappers
  import Seqs
  import opened Doks
  import opened Instances
  import opened Claims
  import opened Deletion
  import InstanceProvider
  import InstanceTypes
  import Pricing
  import opened Selection

  // What filtering may make of a list of instance types.
  ghost predicate Picks(types: seq<InstanceTypes.InstanceType>, reqs: seq<Requirement>, chosen: seq<InstanceTypes.InstanceType>) {
    match AllowedTypes(reqs)
    case None => chosen == types
    case Some(names) => Ordered(chosen) && multiset(chosen) == multiset(Allowed(types, names))
  }

  ghost predicate LeastFirst(sizes: seq<Pricing.Size>, doks: set<string>, region: string, names: set<string>,
                             chosen: seq<InstanceTypes.InstanceType>)
  {
    && (chosen == [] <==> forall z :: z in sizes ==> !Candidate(z, doks, region, names))
    && (chosen != [] ==>
          exists z :: z in sizes && Candidate(z, doks, region, names) && chosen[0].name == z.slug &&
                      forall y :: y in sizes && Candidate(y, doks, region, names) ==> !Smaller(y, z))
  }

  // The request whose fetch stands behind the answer to q: the first of the history that
  // yielded anything, or q itself if none did.
  ghost predicate Feeds(history: seq<InstanceTypes.ListRequest>, q: InstanceTypes.ListRequest, i: int) {
    && 0 <= i <= |history| && (forall j :: 0 <= j < i ==> !InstanceTypes.Fills(history[j]))
    && (i < |history| ==> InstanceTypes.Fills(history[i]))
  }

  lemma {:induction false} SomeRequestFeeds(history: seq<InstanceTypes.ListRequest>, q: InstanceTypes.ListRequest)
    ensures exists i :: Feeds(history, q, i)
  {
    if history != [] {
      var n := |history| - 1;
      SomeRequestFeeds(history[..n], q);
      var i :| Feeds(history[..n], q, i);
      if i < n || InstanceTypes.Fills(history[n]) {
        assert Feeds(history, q, i);
      } else {
        assert Feeds(history, q, n + 1);
      }
    } else {
      assert Feeds(history, q, 0);
    }
  }

  // Whether the cache was filled before or this very call fetches: the answer is the
  // feeding catalogue cut to the class region.
  lemma ServedFromFeed(history: seq<InstanceTypes.ListRequest>, q: InstanceTypes.ListRequest, i: int)
    requires Feeds(history, q, i) && InstanceTypes.Serve(InstanceTypes.CacheAfter(history), q).1.Ok?
    ensures var feed := if i < |history| then history[i] else q;
      && feed.api.sizes.Some? && feed.api.doks.Some?
      && InstanceTypes.Serve(InstanceTypes.CacheAfter(history), q).1.value ==
         InstanceTypes.InRegion(InstanceTypes.Fetched(feed.api.sizes.value, feed.api.doks.value, feed.prices), q.region)
  {
    InstanceTypes.CacheIsFirstYield(history, i);
  }

  function Feed(history: seq<InstanceTypes.ListRequest>, q: InstanceTypes.ListRequest, i: int): InstanceTypes.Catalogue
    requires 0 <= i <= |history|
  {
    if i < |history| then history[i].api else q.api
  }

  // End to end: after any history of listings, none included, and for a class in any
  // region, the first of the filtered types is a least candidate of the catalogue that
  // fed the answer; there is none exactly if there is no candidate.
  lemma FirstPickIsLeast(history: seq<InstanceTypes.ListRequest>, q: InstanceTypes.ListRequest, i: int,
                         reqs: seq<Requirement>, chosen: seq<InstanceTypes.InstanceType>)
    requires Feeds(history, q, i) && AllowedTypes(reqs).Some?
    requires var served := InstanceTypes.Serve(InstanceTypes.CacheAfter(history), q).1;
      served.Ok? && Picks(served.value, reqs, chosen)
    requires var feed := Feed(history, q, i);
      feed.sizes.Some? && feed.doks.Some? ==>
        forall z :: z in feed.sizes.value && Candidate(z, feed.doks.value, q.region, AllowedTypes(reqs).value) ==>
          InstanceTypes.Fits(z.memory)
    ensures var feed := Feed(history, q, i);
      && feed.sizes.Some? && feed.doks.Some?
      && LeastFirst(feed.sizes.value, feed.doks.value, q.region, AllowedTypes(reqs).value, chosen)
  {
    ServedFromFeed(history, q, i);
    var feed := if i < |history| then history[i] else q;
    SelectsTheLeastCandidate(feed.api.sizes.value, feed.api.doks.value, feed.prices, q.region,
                             AllowedTypes(reqs).value, chosen);
  }

  // What Create does once the instance types are filtered to chosen.
  ghost predicate CreateOutcome(clusterName: string, region: string, claim: NodeClaim, classTags: seq<string>,
                                chosen: seq<InstanceTypes.InstanceType>, c: Cloud, log: seq<Call>,
                                t: Cloud, log': seq<Call>, r: Result<NodeClaim>)
  {
    if chosen == [] then r == Err(NoMatchingInstanceTypes) && t == c && log' == log
    else
      var request := Request(clusterName, region, claim.name, chosen[0].name, classTags);
      exists created ::
        && InstanceProvider.CreateResult(request, region, c, log, t, log', created)
        && r == match created { case Ok(inst) => Ok(InstanceToNodeClaim(inst, Some(claim))) case Err(e) => Err(e) }
  }

  // What a finished Create tells its caller. The claim names the one pool that was added,
  // by annotation and by the droplet of its node, with the size launched as its label. It
  // fails without a matching type, without a pool, or without a node; only in the last
  // case can a pool be left.
  lemma CreateTellsWhatItMade(clusterName: string, region: string, claim: NodeClaim, classTags: seq<string>,
                              chosen: seq<InstanceTypes.InstanceType>, c: Cloud, log: seq<Call>,
                              t: Cloud, log': seq<Call>, r: Result<NodeClaim>)
    requires CreateOutcome(clusterName, region, claim, classTags, chosen, c, log, t, log', r)
    ensures r == Err(NoMatchingInstanceTypes) <==> chosen == []
    ensures r.Err? ==> r.error in {NoMatchingInstanceTypes, PoolRejected, NodeNotProvisioned}
    ensures r.Err? && t.pools != c.pools ==>
      && r == Err(NodeNotProvisioned) && log' != [] && log'[|log'| - 1].DeleteCall? && log'[|log'| - 1].reply.DeleteError?
      && t.pools.Keys == c.pools.Keys + {log'[|log'| - 1].id}
    ensures r.Ok? ==>
      var id := PoolAnnotation(r.value);
      && id !in c.usedIDs && t.pools.Keys == c.pools.Keys + {id}
      && (forall other :: other in c.pools && other != id ==> t.pools[other] == c.pools[other])
      && chosen != [] && t.pools[id].size == chosen[0].name && Managed(t.pools[id])
      && |t.pools[id].nodes| == 1 && r.value.providerID == ProviderID(t.pools[id].nodes[0].dropletID)
      && ValidDropletID(t.pools[id].nodes[0].dropletID)
      && r.value.name == claim.name && r.value.labels[LABEL_INSTANCE_TYPE] == chosen[0].name
  {
    if chosen != [] {
      var request := Request(clusterName, region, claim.name, chosen[0].name, classTags);
      var created :| InstanceProvider.CreateResult(request, region, c, log, t, log', created)
        && r == match created { case Ok(inst) => Ok(InstanceToNodeClaim(inst, Some(claim))) case Err(e) => Err(e) };
    }
  }

  function ClaimOf(inst: Result<Instance>): Result<NodeClaim> {
    match inst
    case Ok(i) => Ok(InstanceToNodeClaim(i, None))
    case Err(e) => Err(e)
  }

  // Why Get fails: an unparsable provider ID, a failed listing, or a listing on which no
  // tagged pool has the droplet; only the last is NotFound.
  lemma GetFailsExactly(providerID: string, page: Option<seq<Pool>>, region: string)
    ensures ParseProviderID(providerID).Err? ==> ParseProviderID(providerID).error != NodeClaimNotFound
    ensures ParseProviderID(providerID).Ok? ==>
      var d := ParseProviderID(providerID).value;
      var r := ClaimOf(InstanceProvider.Answer(page, d, region));
      && (r == Err(ApiFailed) <==> page.None?)
      && (r == Err(NodeClaimNotFound) <==> page.Some? && forall p :: p in page.value && Managed(p) ==> !HasDroplet(p, d))
      && (r.Ok? <==> page.Some? && exists p :: p in page.value && Managed(p) && HasDroplet(p, d))
      && (r.Ok? ==> r.value.providerID == providerID)
  {
    if ParseProviderID(providerID).Ok? {
      var d := ParseProviderID(providerID).value;
      ParseInvertsProviderID(providerID, d);
      InstanceProvider.AnswersExactly(page, d, region);
    }
  }

  // What the drift check answers, in every case: an error unless the class was found, the
  // provider ID parses, the listing came back and a tagged pool on it has the droplet;
  // else the region is looked at first, and then the size against the claim's label.
  lemma DriftAnswersExactly(claim: NodeClaim, classRegion: Option<string>, page: Option<seq<Pool>>, region: string)
    ensures var r := IsDrifted(claim, classRegion, page, region);
      if classRegion.None? then r == Err(NodeClassUnavailable)
      else if ParseProviderID(claim.providerID).Err? then r == Err(ParseProviderID(claim.providerID).error)
      else if page.None? then r == Err(ApiFailed)
      else
        var d := ParseProviderID(claim.providerID).value;
        if forall p :: p in page.value && Managed(p) ==> !HasDroplet(p, d) then r == Err(NodeClaimNotFound)
        else if region != classRegion.value then r == Ok(RegionChanged)
        else if LABEL_INSTANCE_TYPE !in claim.labels then r == Ok(NotDrifted)
        else
          exists i, j :: FirstMatch(ManagedPools(page.value), d, i, j) &&
            r == Ok(if ManagedPools(page.value)[i].size == claim.labels[LABEL_INSTANCE_TYPE] then NotDrifted else NodePoolChanged)
  {
    if classRegion.Some? && ParseProviderID(claim.providerID).Ok? {
      InstanceProvider.AnswersExactly(page, ParseProviderID(claim.providerID).value, region);
    }
  }

  lemma DriftNeedsAnInstance(claim: NodeClaim, classRegion: string, page: Option<seq<Pool>>, region: string)
    requires ParseProviderID(claim.providerID).Ok?
    ensures IsDrifted(claim, Some(classRegion), page, region).Ok? <==>
      page.Some? && exists p :: p in page.value && Managed(p) && HasDroplet(p, ParseProviderID(claim.providerID).value)
  {
    InstanceProvider.AnswersExactly(page, ParseProviderID(claim.providerID).value, region);
  }

  // Whatever List reports, Get of its provider ID reports again, in this listing or any
  // other that shows the pool.
  lemma GetInvertsList(c: Cloud, page: seq<Pool>, page': seq<Pool>, region: string, inst: Instance)
    requires WellFormed(c) && IsPage(page, c.pools) && IsPage(page', c.pools)
    requires inst in InstancesOf(ManagedPools(page), region)
    ensures ParseProviderID(InstanceToNodeClaim(inst, None).providerID) == Ok(inst.dropletID)
    ensures ClaimOf(InstanceProvider.Answer(Some(page'), inst.dropletID, region)) ==
      if inst.nodePoolID in PageIDs(page') then Ok(InstanceToNodeClaim(inst, None)) else Err(NodeClaimNotFound)
  {
    ListedFromCloud(c, page, region, inst);
    ParseInvertsProviderID(ProviderID(inst.dropletID), inst.dropletID);
    FindExact(ManagedPools(page'), inst.dropletID, region);
    forall p | p in ManagedPools(page') && HasDroplet(p, inst.dropletID) ensures p.id == inst.nodePoolID && p.id in PageIDs(page') {
      var node :| node in p.nodes && node.dropletID == inst.dropletID;
      assert inst.dropletID in Droplets(p.nodes);
    }
    if inst.nodePoolID in PageIDs(page') {
      var p := c.pools[inst.nodePoolID];
      Seqs.FilterKeeps((q: Pool) => Managed(q), page', p);
      assert HasDroplet(p, inst.dropletID);
    }
  }

  class Provider {
    const instances: InstanceProvider.Provider
    const types: InstanceTypes.Provider

    constructor (instances: InstanceProvider.Provider, types: InstanceTypes.Provider)
      ensures this.instances == instances && this.types == types
    {
      this.instances, this.types := instances, types;
    }

    // nodeClass is what the lookup of the claim's class answers, catalogue what the
    // DigitalOcean endpoints answer should the instance types have to be fetched.
    method Create(claim: NodeClaim, nodeClass: Option<NodeClass>, catalogue: InstanceTypes.Catalogue)
      returns (r: Result<NodeClaim>)
      requires instances.api.Valid()
      modifies instances.api, types`cache
      ensures instances.api.Valid()
      ensures nodeClass.None? ==>
        r == Err(NodeClassUnavailable) && types.cache == old(types.cache) &&
        instances.api.cloud == old(instances.api.cloud) && instances.api.log == old(instances.api.log)
      ensures nodeClass.Some? ==>
        var served := InstanceTypes.Serve(old(types.cache),
          InstanceTypes.ListRequest(catalogue, types.pricing.prices, nodeClass.value.region));
        && types.cache == served.0
        && (served.1.Err? ==>
              r == Err(served.1.error) && instances.api.cloud == old(instances.api.cloud)
              && instances.api.log == old(instances.api.log))
        && (served.1.Ok? ==>
              exists chosen ::
                && Picks(served.1.value, claim.requirements, chosen)
                && CreateOutcome(instances.clusterName, instances.region, claim, nodeClass.value.tags, chosen,
                                 old(instances.api.cloud), old(instances.api.log),
                                 instances.api.cloud, instances.api.log, r))
    {
      if nodeClass.None? {
        return Err(NodeClassUnavailable);
      }
      ghost var c, log := instances.api.cloud, instances.api.log;
      var listed := types.List(catalogue, nodeClass.value.region);
      if listed.Err? {
        return Err(listed.error);
      }
      var all := new InstanceTypes.InstanceType[|listed.value|](n requires 0 <= n < |listed.value| => listed.value[n]);
      assert all[..] == listed.value;
      var filtered := FilterByRequirements(all, claim.requirements);
      ghost var chosen := filtered[..];
      assert Picks(listed.value, claim.requirements, chosen);
      if filtered.Length == 0 {
        return Err(NoMatchingInstanceTypes);
      }
      var created := instances.Create(nodeClass.value.tags, claim.name, filtered[..]);
      r := if created.Err? then Err(created.error) else Ok(InstanceToNodeClaim(created.value, Some(claim)));
      assert CreateOutcome(instances.clusterName, instances.region, claim, nodeClass.value.tags, chosen, c, log,
                           instances.api.cloud, instances.api.log, r);
    }

    method Delete(claim: NodeClaim) returns (failure: Option<Error>)
      requires instances.api.Valid()
      modifies instances.api
      ensures instances.api.Valid()
      ensures exists calls :: DeleteOutcome(instances.region, claim, old(instances.api.cloud), old(instances.api.log), calls,
                                            instances.api.cloud, instances.api.log, failure)
      ensures failure.Some? ==> instances.api.cloud.pools == old(instances.api.cloud).pools
      ensures failure.None? && PoolAnnotation(claim) != "" ==>
        instances.api.cloud.pools == old(instances.api.cloud).pools - {PoolAnnotation(claim)}
    {
      ghost var region, c, log := instances.region, instances.api.cloud, instances.api.log;
      ghost var reply: DeleteReply;
      if ANNOTATION_NODE_POOL_ID in claim.annotations && claim.annotations[ANNOTATION_NODE_POOL_ID] != "" {
        failure := instances.Delete(claim.annotations[ANNOTATION_NODE_POOL_ID]);
        reply :| InstanceProvider.Removed(c, log, PoolAnnotation(claim), reply, instances.api.cloud, instances.api.log, failure);
        AnnotatedOutcome(region, claim, c, log, reply, instances.api.cloud, instances.api.log, failure);
        return;
      }
      var parsed := ParseProviderID(claim.providerID);
      if parsed.Err? {
        UnparsedOutcome(region, claim, c, log);
        return Some(parsed.error);
      }
      var inst := instances.Get(parsed.value);
      ghost var page :| instances.api.log == log + [ListCall(page)] && MayReply(c, ListCall(page)) &&
                        inst == InstanceProvider.Answer(page, parsed.value, region);
      if inst.Err? {
        MissedOutcome(region, claim, page, c, log);
        if inst.error == NodeClaimNotFound {
          return None;
        }
        return Some(inst.error);
      }
      failure := instances.Delete(inst.value.nodePoolID);
      reply :| InstanceProvider.Removed(c, log + [ListCall(page)], inst.value.nodePoolID, reply,
                                        instances.api.cloud, instances.api.log, failure);
      FoundOutcome(region, claim, page, c, log, reply, instances.api.cloud, instances.api.log, failure);
    }

    method Get(providerID: string) returns (r: Result<NodeClaim>)
      requires instances.api.Valid()
      modifies instances.api`log
      ensures match ParseProviderID(providerID)
        case Err(e) => r == Err(e) && instances.api.log == old(instances.api.log)
        case Ok(d) =>
          exists page ::
            && instances.api.log == old(instances.api.log) + [ListCall(page)]
            && MayReply(instances.api.cloud, ListCall(page))
            && r == ClaimOf(InstanceProvider.Answer(page, d, instances.region))
            && (r == Err(NodeClaimNotFound) <==>
                page.Some? && forall p :: p in page.value && Managed(p) ==> !HasDroplet(p, d))
    {
      var parsed := ParseProviderID(providerID);
      if parsed.Err? {
        return Err(parsed.error);
      }
      ghost var log := instances.api.log;
      var inst := instances.Get(parsed.value);
      ghost var page :| instances.api.log == log + [ListCall(page)] && MayReply(instances.api.cloud, ListCall(page)) &&
                        inst == InstanceProvider.Answer(page, parsed.value, instances.region);
      GetFailsExactly(providerID, page, instances.region);
      r := if inst.Err? then Err(inst.error) else Ok(InstanceToNodeClaim(inst.value, None));
    }

    method List() returns (r: Option<seq<NodeClaim>>)
      requires instances.api.Valid()
      modifies instances.api`log
      ensures exists page ::
        && instances.api.log == old(instances.api.log) + [ListCall(page)]
        && MayReply(instances.api.cloud, ListCall(page))
        && (r.None? <==> page.None?)
        && (r.Some? ==>
              var listed := InstancesOf(ManagedPools(page.value), instances.region);
              |r.value| == |listed| &&
              forall i :: 0 <= i < |listed| ==> r.value[i] == InstanceToNodeClaim(listed[i], None))
    {
      var listed := instances.List();
      if listed.None? {
        return None;
      }
      var claims := [];
      for i := 0 to |listed.value|
        invariant |claims| == i
        invariant forall j :: 0 <= j < i ==> claims[j] == InstanceToNodeClaim(listed.value[j], None)
      {
        claims := claims + [InstanceToNodeClaim(listed.value[i], None)];
      }
      r := Some(claims);
    }

    // The region compared is the one the provider was set up with: every instance is
    // reported there, wherever its pool may be.
    method CheckDrift(claim: NodeClaim, nodeClass: Option<NodeClass>) returns (r: Result<Drift>)
      requires instances.api.Valid()
      modifies instances.api`log
      ensures exists page ::
        && MayReply(instances.api.cloud, ListCall(page))
        && r == IsDrifted(claim, if nodeClass.Some? then Some(nodeClass.value.region) else None, page, instances.region)
        && (r.Ok? <==> nodeClass.Some? && ParseProviderID(claim.providerID).Ok? && page.Some? &&
                       exists p :: p in page.value && Managed(p) && HasDroplet(p, ParseProviderID(claim.providerID).value))
        && instances.api.log == old(instances.api.log) +
             (if nodeClass.None? || ParseProviderID(claim.providerID).Err? then [] else [ListCall(page)])
    {
      if nodeClass.None? {
        assert MayReply(instances.api.cloud, ListCall(None));
        return Err(NodeClassUnavailable);
      }
      var parsed := ParseProviderID(claim.providerID);
      if parsed.Err? {
        assert MayReply(instances.api.cloud, ListCall(None));
        return Err(parsed.error);
      }
      ghost var log := instances.api.log;
      var inst := instances.Get(parsed.value);
      ghost var page :| instances.api.log == log + [ListCall(page)] && MayReply(instances.api.cloud, ListCall(page)) &&
                        inst == InstanceProvider.Answer(page, parsed.value, instances.region);
      DriftNeedsAnInstance(claim, nodeClass.value.region, page, instances.region);
      if inst.Err? {
        return Err(inst.error);
      }
      if inst.value.region != nodeClass.value.region {
        return Ok(RegionChanged);
      }
      if LABEL_INSTANCE_TYPE in claim.labels && inst.value.size != claim.labels[LABEL_INSTANCE_TYPE] {
        return Ok(NodePoolChanged);
      }
      r := Ok(NotDrifted);
    }
  }
}
