// Create, Delete and garbage collection running side by side, as a transition system.
//
// Every API call of every process is one step, and so is everything DOKS, Kubernetes
// and people do in between. The processes follow the same phase functions (Advance,
// AdvanceDelete, AdvanceGc) that the sequential methods are proved to follow.
module Lifecycle {
  import opened Wrappers
  import Seqs
  import opened Doks
  import opened Instances
  import opened Claims

  datatype Config = Config(clusterName: string, region: string)
  datatype InFlight = InFlight(claim: NodeClaim, phase: CreatePhase)

  // made and marked remember the past: the pools Create made, and the pools that ever
  // carried the managed tag.
  datatype World = World(cloud: Cloud, made: set<string>, marked: set<string>)

  // versions holds every version of every claim ever stored.
  datatype State = State(
    w: World, claims: map<string, NodeClaim>, versions: set<NodeClaim>,
    creates: map<nat, InFlight>, deletes: map<nat, DeletePhase>, gc: GcPhase)

  datatype Event =
    | Provisioned(pool: Pool)
    | PutByHand(pool: Pool)
    | Retagged(id: string, tags: seq<string>)
    | RemovedByHand(id: string)
    | ClaimStored(claim: NodeClaim)
    | ClaimRelabelled(name: string, labels: map<string, string>)
    | ClaimRemoved(name: string)
    | CreateStarted(k: nat, claim: NodeClaim, size: string, classTags: seq<string>)
    | CreateStep(k: nat, call: Call)
    | CreateAbandoned(k: nat)
    | CreateRecorded(k: nat)
    | DeleteStarted(k: nat, claim: NodeClaim)
    | DeleteListed(k: nat, page: seq<Pool>, inst: Instance)
    | DeleteStep(k: nat, call: Call)
    | GcStep(call: Call)
    | GcClaims(read: Option<seq<NodeClaim>>)
    | GcStopped

  const INIT := State(World(Cloud(map[], {}, map[]), {}, {}), map[], {}, map[], map[], GcIdle)

  predicate Blank(c: NodeClaim) {
    PoolAnnotation(c) == "" && c.providerID == ""
  }

  // Claims reach the provider through a cache, so a process may be handed, and garbage
  // collection may read, any version a claim ever had.
  ghost predicate Enabled(cfg: Config, s: State, e: Event) {
    var cloud := s.w.cloud;
    match e
    case Provisioned(q) => q.id in cloud.pools && Provisions(cloud.homes, cloud.pools[q.id], q)
    case PutByHand(p) =>
      && p.id != "" && p.id !in s.w.made && OwnDroplets(cloud.homes, p)
      && (p.id in cloud.usedIDs ==> p.id in cloud.pools)
    case Retagged(id, _) => id in cloud.pools
    case RemovedByHand(id) => id in cloud.pools
    case ClaimStored(c) => c.name !in s.claims && Blank(c)
    case ClaimRelabelled(name, _) => name in s.claims
    case ClaimRemoved(name) => name in s.claims
    case CreateStarted(k, c, _, _) => k !in s.creates && c in s.versions
    case CreateStep(k, call) =>
      k in s.creates && MayReply(cloud, call) && Advance(cfg.region, s.creates[k].phase, call).Some?
    case CreateAbandoned(k) => k in s.creates
    case CreateRecorded(k) =>
      k in s.creates && s.creates[k].phase.Created? && s.creates[k].claim.name in s.claims
    case DeleteStarted(k, c) => k !in s.deletes && c in s.versions
    case DeleteListed(k, page, inst) =>
      k !in s.deletes && IsPage(page, cloud.pools) && inst in InstancesOf(ManagedPools(page), cfg.region)
    case DeleteStep(k, call) =>
      k in s.deletes && MayReply(cloud, call) && AdvanceDelete(cfg.region, s.deletes[k], call).Some?
    case GcStep(call) => MayReply(cloud, call) && AdvanceGc(cfg.region, s.gc, call).Some?
    case GcClaims(read) =>
      s.gc.GcListed? && (read.Some? ==> forall c :: c in read.value ==> c in s.versions)
    case GcStopped => true
  }

  // ---- What each step changes ----

  function CloudAfter(c: Cloud, e: Event): Cloud {
    match e
    case Provisioned(q) => Put(c, q)
    case PutByHand(p) => Put(c, p)
    case Retagged(id, tags) => if id in c.pools then c.(pools := c.pools[id := c.pools[id].(tags := tags)]) else c
    case RemovedByHand(id) => c.(pools := c.pools - {id})
    case CreateStep(_, call) => Effect(c, call)
    case DeleteStep(_, call) => Effect(c, call)
    case GcStep(call) => Effect(c, call)
    case _ => c
  }

  function Tagged(c: Cloud): set<string> {
    set id | id in c.pools && Managed(c.pools[id])
  }

  function WorldAfter(w: World, e: Event): World {
    var cloud := CloudAfter(w.cloud, e);
    World(cloud,
          if e.CreateStep? && e.call.CreateCall? && e.call.created.Some? then w.made + {e.call.created.value.id} else w.made,
          w.marked + Tagged(cloud))
  }

  // The claim a finished Create is recorded as.
  function Recorded(f: InFlight): NodeClaim
    requires f.phase.Created?
  {
    InstanceToNodeClaim(f.phase.inst, Some(f.claim))
  }

  // The version of a claim a step stores, if any.
  ghost function StoredBy(cfg: Config, s: State, e: Event): Option<NodeClaim>
    requires Enabled(cfg, s, e)
  {
    match e
    case ClaimStored(c) => Some(c)
    case ClaimRelabelled(name, labels) => Some(s.claims[name].(labels := labels))
    case CreateRecorded(k) => Some(Recorded(s.creates[k]))
    case _ => None
  }

  ghost function CreatesAfter(cfg: Config, s: State, e: Event): map<nat, InFlight>
    requires Enabled(cfg, s, e)
  {
    match e
    case CreateStarted(k, c, size, tags) =>
      s.creates[k := InFlight(c, Requesting(Request(cfg.clusterName, cfg.region, c.name, size, tags)))]
    case CreateStep(k, call) =>
      s.creates[k := InFlight(s.creates[k].claim, Advance(cfg.region, s.creates[k].phase, call).value)]
    case CreateAbandoned(k) => s.creates - {k}
    case CreateRecorded(k) => s.creates - {k}
    case _ => s.creates
  }

  ghost function DeletesAfter(cfg: Config, s: State, e: Event): map<nat, DeletePhase>
    requires Enabled(cfg, s, e)
  {
    match e
    case DeleteStarted(k, c) => s.deletes[k := StartDelete(c)]
    case DeleteListed(k, _, inst) => s.deletes[k := StartDelete(InstanceToNodeClaim(inst, None))]
    case DeleteStep(k, call) => s.deletes[k := AdvanceDelete(cfg.region, s.deletes[k], call).value]
    case _ => s.deletes
  }

  ghost function GcAfter(cfg: Config, s: State, e: Event): GcPhase
    requires Enabled(cfg, s, e)
  {
    match e
    case GcStep(call) => AdvanceGc(cfg.region, s.gc, call).value
    case GcClaims(read) => AfterReading(s.gc.instances, read)
    case GcStopped => GcIdle
    case _ => s.gc
  }

  ghost function Next(cfg: Config, s: State, e: Event): State
    requires Enabled(cfg, s, e)
  {
    var stored := StoredBy(cfg, s, e);
    State(WorldAfter(s.w, e),
          if stored.Some? then s.claims[stored.value.name := stored.value]
          else if e.ClaimRemoved? then s.claims - {e.name} else s.claims,
          if stored.Some? then s.versions + {stored.value} else s.versions,
          CreatesAfter(cfg, s, e), DeletesAfter(cfg, s, e), GcAfter(cfg, s, e))
  }

  // ---- The invariant ----

  // A pool Create made has one node and, in all its life, one droplet.
  ghost predicate OneDroplet(c: Cloud, id: string) {
    && (id in c.pools ==> c.pools[id].count == 1 && |c.pools[id].nodes| <= 1)
    && (forall d :: Home(c, d, id) && id in c.pools ==> c.pools[id].nodes != [] && c.pools[id].nodes[0].dropletID == d)
    && (forall d, e :: Home(c, d, id) && Home(c, e, id) ==> d == e)
  }

  ghost predicate WorldInv(w: World) {
    && WellFormed(w.cloud)
    && w.made <= w.cloud.usedIDs && w.made <= w.marked && Tagged(w.cloud) <= w.marked
    && w.marked <= w.cloud.usedIDs && "" !in w.cloud.usedIDs
    && (forall d :: d in w.cloud.homes ==> ValidDropletID(d) && w.cloud.homes[d] in w.cloud.usedIDs)
    && (forall id :: id in w.made ==> OneDroplet(w.cloud, id))
  }

  // The claim names a pool Create made, by its ID and by the droplet of its one node.
  predicate Tied(w: World, c: NodeClaim) {
    && PoolAnnotation(c) in w.made
    && ANNOTATION_DROPLET_ID in c.annotations
    && Home(w.cloud, c.annotations[ANNOTATION_DROPLET_ID], PoolAnnotation(c))
    && c.providerID == ProviderID(c.annotations[ANNOTATION_DROPLET_ID])
  }

  ghost predicate VersionsInv(w: World, versions: set<NodeClaim>) {
    forall c :: c in versions ==> Blank(c) || Tied(w, c)
  }

  ghost predicate ClaimsInv(s: State) {
    forall name :: name in s.claims ==> s.claims[name].name == name && s.claims[name] in s.versions
  }

  predicate Seen(w: World, inst: Instance) {
    inst.nodePoolID in w.marked && Home(w.cloud, inst.dropletID, inst.nodePoolID)
  }

  ghost predicate CreateInv(cfg: Config, w: World, phase: CreatePhase) {
    && (phase.Requesting? ==> TAG_MANAGED_BY in phase.request.tags && phase.request.count == 1)
    && (Holds(phase).Some? ==> Holds(phase).value in w.made)
    && (phase.ClearingTaints? || phase.Created? ==>
          && Holds(phase) == Some(phase.inst.nodePoolID) && Seen(w, phase.inst) && phase.inst.region == cfg.region
          && (phase.inst.nodePoolID in w.cloud.pools ==> w.cloud.pools[phase.inst.nodePoolID].size == phase.inst.size))
  }

  ghost predicate CreatesInv(cfg: Config, w: World, versions: set<NodeClaim>, creates: map<nat, InFlight>) {
    forall k :: k in creates ==> CreateInv(cfg, w, creates[k].phase) && creates[k].claim in versions
  }

  ghost predicate DeletesInv(w: World, deletes: map<nat, DeletePhase>) {
    forall k :: k in deletes && deletes[k].Removing? ==> deletes[k].id in w.marked
  }

  ghost predicate GcInv(w: World, versions: set<NodeClaim>, gc: GcPhase) {
    match gc
    case GcIdle => true
    case GcListed(instances) => forall inst :: inst in instances ==> Seen(w, inst)
    case GcSweeping(read, worklist) =>
      && (forall c :: c in read ==> c in versions)
      && (forall inst :: inst in worklist ==> Seen(w, inst))
      && (forall inst, c :: inst in worklist && c in read ==> PoolAnnotation(c) != inst.nodePoolID)
  }

  ghost predicate Inv(cfg: Config, s: State) {
    && WorldInv(s.w) && VersionsInv(s.w, s.versions) && ClaimsInv(s)
    && CreatesInv(cfg, s.w, s.versions, s.creates) && DeletesInv(s.w, s.deletes) && GcInv(s.w, s.versions, s.gc)
  }

  // ---- The world keeps its invariant ----

  lemma PutKeepsOneDroplet(c: Cloud, p: Pool, id: string)
    requires WellFormed(c) && OwnDroplets(c.homes, p) && OneDroplet(c, id)
    requires forall d :: d in c.homes ==> ValidDropletID(d)
    requires id == p.id ==> id in c.pools && Provisions(c.homes, c.pools[id], p)
    ensures OneDroplet(Put(c, p), id)
  {
    var t := Put(c, p);
    if id == p.id {
      forall d | Home(t, d, id) ensures p.nodes != [] && p.nodes[0].dropletID == d {
        if d !in Droplets(p.nodes) {
          assert Home(c, d, id);
        }
      }
    } else {
      assert forall d :: Home(t, d, id) ==> Home(c, d, id);
    }
  }

  lemma NewPoolHasOneDroplet(c: Cloud, r: PoolRequest, p: Pool)
    requires WellFormed(c) && MayReply(c, CreateCall(r, Some(p)))
    requires forall d :: d in c.homes ==> c.homes[d] in c.usedIDs
    requires TAG_MANAGED_BY in r.tags && r.count == 1
    ensures OneDroplet(Put(c, p), p.id)
  {
    forall d | Home(Put(c, p), d, p.id) ensures p.nodes != [] && p.nodes[0].dropletID == d {
      assert d in Droplets(p.nodes);
    }
  }

  // No new pool or droplet: pools only went away or changed their taints or tags.
  ghost predicate Shrinks(c: Cloud, t: Cloud) {
    && t.homes == c.homes && t.usedIDs == c.usedIDs
    && forall id :: id in t.pools ==> id in c.pools && t.pools[id] == c.pools[id].(taints := t.pools[id].taints, tags := t.pools[id].tags)
  }

  lemma ShrinkKeepsOneDroplet(c: Cloud, t: Cloud, id: string)
    requires OneDroplet(c, id) && Shrinks(c, t)
    ensures OneDroplet(t, id)
  {
    assert forall d :: Home(t, d, id) ==> Home(c, d, id);
  }

  lemma WorldAfterPut(w: World, p: Pool)
    requires WorldInv(w) && OwnDroplets(w.cloud.homes, p) && p.id != ""
    requires p.id in w.made ==> p.id in w.cloud.pools && Provisions(w.cloud.homes, w.cloud.pools[p.id], p)
    ensures WorldInv(World(Put(w.cloud, p), w.made, w.marked + Tagged(Put(w.cloud, p))))
  {
    PutKeepsWellFormed(w.cloud, p);
    forall id | id in w.made ensures OneDroplet(Put(w.cloud, p), id) {
      PutKeepsOneDroplet(w.cloud, p, id);
    }
  }

  lemma WorldAfterCreate(w: World, r: PoolRequest, p: Pool)
    requires WorldInv(w) && MayReply(w.cloud, CreateCall(r, Some(p)))
    requires TAG_MANAGED_BY in r.tags && r.count == 1
    ensures WorldInv(World(Put(w.cloud, p), w.made + {p.id}, w.marked + Tagged(Put(w.cloud, p))))
  {
    PutKeepsWellFormed(w.cloud, p);
    NewPoolHasOneDroplet(w.cloud, r, p);
    forall id | id in w.made ensures OneDroplet(Put(w.cloud, p), id) {
      PutKeepsOneDroplet(w.cloud, p, id);
    }
    assert p.id in Tagged(Put(w.cloud, p));
  }

  lemma WorldAfterShrink(w: World, t: Cloud)
    requires WorldInv(w) && Shrinks(w.cloud, t)
    ensures WorldInv(World(t, w.made, w.marked + Tagged(t)))
  {
    forall id | id in w.made ensures OneDroplet(t, id) {
      ShrinkKeepsOneDroplet(w.cloud, t, id);
    }
  }

  // A step puts a pool into the cloud, creates one, or only takes away.
  ghost predicate Puts(w: World, e: Event, p: Pool) {
    && CloudAfter(w.cloud, e) == Put(w.cloud, p) && OwnDroplets(w.cloud.homes, p) && p.id != ""
    && (p.id in w.made ==> p.id in w.cloud.pools && Provisions(w.cloud.homes, w.cloud.pools[p.id], p))
  }

  ghost predicate Makes(w: World, e: Event) {
    && e.CreateStep? && e.call.CreateCall? && e.call.created.Some?
    && MayReply(w.cloud, e.call) && TAG_MANAGED_BY in e.call.request.tags && e.call.request.count == 1
  }

  lemma CallShrinks(c: Cloud, call: Call)
    requires !(call.CreateCall? && call.created.Some?)
    ensures Shrinks(c, Effect(c, call))
  {
  }

  predicate Adds(e: Event) {
    e.Provisioned? || e.PutByHand? || (e.CreateStep? && e.call.CreateCall? && e.call.created.Some?)
  }

  lemma RestShrinks(c: Cloud, e: Event)
    requires !Adds(e)
    requires e.DeleteStep? || e.GcStep? ==> !e.call.CreateCall?
    ensures Shrinks(c, CloudAfter(c, e))
  {
    if e.CreateStep? || e.DeleteStep? || e.GcStep? {
      CallShrinks(c, e.call);
    }
  }

  lemma StepKinds(cfg: Config, s: State, e: Event)
    requires CreatesInv(cfg, s.w, s.versions, s.creates) && Enabled(cfg, s, e) && "" !in s.w.cloud.usedIDs && WellFormed(s.w.cloud)
    ensures e.Provisioned? || e.PutByHand? ==> Puts(s.w, e, e.pool)
    ensures e.CreateStep? && e.call.CreateCall? && e.call.created.Some? ==> Makes(s.w, e)
    ensures e.DeleteStep? || e.GcStep? ==> !e.call.CreateCall?
  {
  }

  // What every step keeps of the past.
  ghost predicate Later(w: World, t: World) {
    && w.made <= t.made && w.marked <= t.marked && w.cloud.usedIDs <= t.cloud.usedIDs
    && (forall d :: d in w.cloud.homes ==> d in t.cloud.homes && t.cloud.homes[d] == w.cloud.homes[d])
    && (forall id :: id in w.made && id in t.cloud.pools ==>
          id in w.cloud.pools && t.cloud.pools[id].size == w.cloud.pools[id].size)
  }

  lemma WorldStep(cfg: Config, s: State, e: Event)
    requires Inv(cfg, s) && Enabled(cfg, s, e)
    ensures WorldInv(WorldAfter(s.w, e)) && Later(s.w, WorldAfter(s.w, e))
  {
    StepKinds(cfg, s, e);
    if e.Provisioned? || e.PutByHand? {
      WorldAfterPut(s.w, e.pool);
      PutKeepsWellFormed(s.w.cloud, e.pool);
    } else if Adds(e) {
      WorldAfterCreate(s.w, e.call.request, e.call.created.value);
      PutKeepsWellFormed(s.w.cloud, e.call.created.value);
    } else {
      RestShrinks(s.w.cloud, e);
      WorldAfterShrink(s.w, CloudAfter(s.w.cloud, e));
    }
  }

  // ---- So do the processes ----

  lemma TiedLater(w: World, t: World, c: NodeClaim)
    requires Tied(w, c) && Later(w, t)
    ensures Tied(t, c)
  {
  }

  lemma CreateInvLater(cfg: Config, w: World, t: World, phase: CreatePhase)
    requires CreateInv(cfg, w, phase) && Later(w, t)
    ensures CreateInv(cfg, t, phase)
  {
  }

  // An instance found on a page by its droplet ID stands for a tagged pool of the cloud.
  lemma FoundFromCloud(cloud: Cloud, page: seq<Pool>, region: string, d: string)
    requires IsPage(page, cloud.pools) && WellFormed(cloud)
    ensures var found := FindInstance(ManagedPools(page), d, region);
      found.Some? ==> found.value.nodePoolID in Tagged(cloud)
  {
    FindExact(ManagedPools(page), d, region);
  }

  lemma RecordedIsTied(cfg: Config, w: World, f: InFlight)
    requires CreateInv(cfg, w, f.phase) && f.phase.Created?
    ensures Tied(w, Recorded(f)) && Recorded(f).name == f.claim.name
  {
  }

  lemma VersionsStep(cfg: Config, s: State, e: Event)
    requires VersionsInv(s.w, s.versions) && ClaimsInv(s) && CreatesInv(cfg, s.w, s.versions, s.creates)
    requires Enabled(cfg, s, e) && Later(s.w, WorldAfter(s.w, e))
    ensures var t := Next(cfg, s, e); VersionsInv(t.w, t.versions) && ClaimsInv(t)
  {
    var w := WorldAfter(s.w, e);
    forall c | c in s.versions ensures Blank(c) || Tied(w, c) {
      if !Blank(c) {
        TiedLater(s.w, w, c);
      }
    }
    if e.CreateRecorded? {
      RecordedIsTied(cfg, s.w, s.creates[e.k]);
      TiedLater(s.w, w, Recorded(s.creates[e.k]));
    } else if e.ClaimRelabelled? {
      var c := s.claims[e.name];
      assert c in s.versions;
      assert PoolAnnotation(c.(labels := e.labels)) == PoolAnnotation(c);
    }
  }

  lemma AdvanceKeeps(cfg: Config, w: World, call: Call, phase: CreatePhase, e: Event)
    requires WorldInv(w) && CreateInv(cfg, w, phase) && MayReply(w.cloud, call)
    requires Advance(cfg.region, phase, call).Some?
    requires e.CreateStep? && e.call == call && Later(w, WorldAfter(w, e))
    ensures CreateInv(cfg, WorldAfter(w, e), Advance(cfg.region, phase, call).value)
  {
    var t := WorldAfter(w, e);
    if phase.Polling? && call.found.Some? {
      var p := call.found.value;
      var node := FirstReady(p.nodes);
      if node.Some? {
        assert node.value.dropletID in Droplets(p.nodes);
      }
    } else {
      CreateInvLater(cfg, w, t, phase);
    }
  }

  lemma OneCreateStep(cfg: Config, s: State, e: Event, k: nat)
    requires WorldInv(s.w) && CreatesInv(cfg, s.w, s.versions, s.creates)
    requires Enabled(cfg, s, e) && Later(s.w, WorldAfter(s.w, e)) && k in CreatesAfter(cfg, s, e)
    ensures CreateInv(cfg, WorldAfter(s.w, e), CreatesAfter(cfg, s, e)[k].phase)
    ensures CreatesAfter(cfg, s, e)[k].claim in s.versions
  {
    if e.CreateStep? && e.k == k {
      AdvanceKeeps(cfg, s.w, e.call, s.creates[k].phase, e);
    } else if !e.CreateStarted? || e.k != k {
      CreateInvLater(cfg, s.w, WorldAfter(s.w, e), s.creates[k].phase);
    }
  }

  lemma CreatesStep(cfg: Config, s: State, e: Event)
    requires WorldInv(s.w) && CreatesInv(cfg, s.w, s.versions, s.creates)
    requires Enabled(cfg, s, e) && Later(s.w, WorldAfter(s.w, e))
    ensures CreatesInv(cfg, WorldAfter(s.w, e), Next(cfg, s, e).versions, CreatesAfter(cfg, s, e))
  {
    forall k | k in CreatesAfter(cfg, s, e)
      ensures CreateInv(cfg, WorldAfter(s.w, e), CreatesAfter(cfg, s, e)[k].phase)
      ensures CreatesAfter(cfg, s, e)[k].claim in s.versions
    {
      OneCreateStep(cfg, s, e, k);
    }
    assert s.versions <= Next(cfg, s, e).versions;
  }

  lemma DeletesStep(cfg: Config, s: State, e: Event)
    requires WorldInv(s.w) && VersionsInv(s.w, s.versions) && DeletesInv(s.w, s.deletes) && Enabled(cfg, s, e)
    ensures DeletesInv(WorldAfter(s.w, e), DeletesAfter(cfg, s, e))
  {
    if e.DeleteStarted? {
      assert Blank(e.claim) || Tied(s.w, e.claim);
    } else if e.DeleteListed? {
      ListedFromCloud(s.w.cloud, e.page, cfg.region, e.inst);
    } else if e.DeleteStep? && s.deletes[e.k].LookingUp? && e.call.page.Some? {
      FoundFromCloud(s.w.cloud, e.call.page.value, cfg.region, s.deletes[e.k].d);
    }
  }

  // A claim and an instance of the same pool carry the same provider ID, and only those do.
  lemma SamePoolSameProviderID(w: World, c: NodeClaim, inst: Instance)
    requires WorldInv(w) && (Blank(c) || Tied(w, c)) && Seen(w, inst)
    ensures PoolAnnotation(c) == inst.nodePoolID <==> c.providerID == ProviderID(inst.dropletID)
  {
    if Tied(w, c) {
      var d := c.annotations[ANNOTATION_DROPLET_ID];
      if PoolAnnotation(c) == inst.nodePoolID {
        assert OneDroplet(w.cloud, inst.nodePoolID);
        assert Home(w.cloud, d, inst.nodePoolID) && Home(w.cloud, inst.dropletID, inst.nodePoolID);
      }
      if ProviderID(d) == ProviderID(inst.dropletID) {
        ProviderIDInjective(d, inst.dropletID);
      }
    } else {
      assert |ProviderID(inst.dropletID)| > 0;
    }
  }

  // Whatever claims were read after the listing: the worklist is the listed instances
  // whose pool no claim read names.
  lemma WorklistExact(w: World, versions: set<NodeClaim>, instances: seq<Instance>, read: seq<NodeClaim>, inst: Instance)
    requires WorldInv(w) && VersionsInv(w, versions)
    requires forall i :: i in instances ==> Seen(w, i)
    requires forall c :: c in read ==> c in versions
    ensures inst in Orphans(instances, KnownIDs(read)) <==>
      inst in instances && forall c :: c in read ==> PoolAnnotation(c) != inst.nodePoolID
  {
    if inst in instances {
      forall c | c in read
        ensures PoolAnnotation(c) == inst.nodePoolID <==> c.providerID == ProviderID(inst.dropletID)
      {
        SamePoolSameProviderID(w, c, inst);
      }
      assert |ProviderID(inst.dropletID)| > 0;
      assert ProviderID(inst.dropletID) in KnownIDs(read) <==> exists c :: c in read && c.providerID == ProviderID(inst.dropletID);
      if Unclaimed(inst, KnownIDs(read)) {
        var known := KnownIDs(read);
        Seqs.FilterKeeps((i: Instance) => Unclaimed(i, known), instances, inst);
      }
    }
  }

  lemma GcInvStep(cfg: Config, s: State, e: Event)
    requires WorldInv(s.w) && VersionsInv(s.w, s.versions) && GcInv(s.w, s.versions, s.gc)
    requires Enabled(cfg, s, e) && Later(s.w, WorldAfter(s.w, e))
    ensures GcInv(WorldAfter(s.w, e), Next(cfg, s, e).versions, GcAfter(cfg, s, e))
  {
    if e.GcClaims? && e.read.Some? {
      forall inst | inst in Orphans(s.gc.instances, KnownIDs(e.read.value))
        ensures Seen(s.w, inst) && forall c :: c in e.read.value ==> PoolAnnotation(c) != inst.nodePoolID
      {
        WorklistExact(s.w, s.versions, s.gc.instances, e.read.value, inst);
      }
    } else if e.GcStep? && s.gc.GcSweeping? {
      assert forall inst :: inst in s.gc.worklist[1..] ==> inst in s.gc.worklist;
    } else if e.GcStep? && s.gc.GcIdle? && e.call.page.Some? {
      forall inst | inst in InstancesOf(ManagedPools(e.call.page.value), cfg.region) ensures Seen(s.w, inst) {
        ListedFromCloud(s.w.cloud, e.call.page.value, cfg.region, inst);
      }
    }
  }

  lemma InvStep(cfg: Config, s: State, e: Event)
    requires Inv(cfg, s) && Enabled(cfg, s, e)
    ensures Inv(cfg, Next(cfg, s, e)) && Later(s.w, Next(cfg, s, e).w)
  {
    WorldStep(cfg, s, e);
    VersionsStep(cfg, s, e);
    CreatesStep(cfg, s, e);
    DeletesStep(cfg, s, e);
    GcInvStep(cfg, s, e);
  }
}
