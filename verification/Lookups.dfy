// What the provider ID of a recorded claim leads to, in every reachable state: the
// lookup itself, drift, and the two ways to delete.
module Lookups {
  import opened Wrappers
  import Seqs
  import opened Doks
  import opened Instances
  import opened Claims
  import opened Lifecycle
  import opened Runs

  // ---- What a claim's droplet leads to ----

  // The pool is on the page, with the managed tag.
  predicate Visible(c: Cloud, page: seq<Pool>, id: string) {
    id in PageIDs(page) && id in c.pools && Managed(c.pools[id])
  }

  lemma TiedLookup(cfg: Config, s: State, c: NodeClaim, page: seq<Pool>)
    requires Inv(cfg, s) && c in s.versions && Tied(s.w, c) && IsPage(page, s.w.cloud.pools)
    ensures ParseProviderID(c.providerID) == Ok(c.annotations[ANNOTATION_DROPLET_ID])
    ensures var found := FindInstance(ManagedPools(page), c.annotations[ANNOTATION_DROPLET_ID], cfg.region);
      if Visible(s.w.cloud, page, PoolAnnotation(c)) then
        && found.Some? && found.value.nodePoolID == PoolAnnotation(c)
        && found.value.size == s.w.cloud.pools[PoolAnnotation(c)].size && found.value.region == cfg.region
      else found.None?
  {
    var id, d := PoolAnnotation(c), c.annotations[ANNOTATION_DROPLET_ID];
    var cloud := s.w.cloud;
    ParseInvertsProviderID(c.providerID, d);
    FindExact(ManagedPools(page), d, cfg.region);
    forall p | p in ManagedPools(page) && HasDroplet(p, d) ensures p.id == id && Visible(cloud, page, id) {
      var node :| node in p.nodes && node.dropletID == d;
      assert d in Droplets(p.nodes) && Home(cloud, d, p.id);
    }
    if Visible(cloud, page, id) {
      assert OneDroplet(cloud, id);
      Seqs.FilterKeeps((q: Pool) => Managed(q), page, cloud.pools[id]);
      assert cloud.pools[id].nodes[0] in cloud.pools[id].nodes;
      assert HasDroplet(cloud.pools[id], d);
    }
  }

  // ---- Drift ----

  // For a claim that names a pool on the page, drift is reported exactly when the
  // class left the cluster's region, or else the claim's label left the pool's size.
  lemma DriftExactly(cfg: Config, s: State, c: NodeClaim, page: seq<Pool>, classRegion: string)
    requires Inv(cfg, s) && c in s.versions && Tied(s.w, c) && IsPage(page, s.w.cloud.pools)
    ensures IsDrifted(c, Some(classRegion), Some(page), cfg.region) ==
      if !Visible(s.w.cloud, page, PoolAnnotation(c)) then Err(NodeClaimNotFound)
      else if classRegion != cfg.region then Ok(RegionChanged)
      else if LABEL_INSTANCE_TYPE in c.labels && c.labels[LABEL_INSTANCE_TYPE] != s.w.cloud.pools[PoolAnnotation(c)].size
      then Ok(NodePoolChanged)
      else Ok(NotDrifted)
  {
    TiedLookup(cfg, s, c, page);
  }

  // A claim recorded by Create at j, looked at any time later, in any version that
  // kept its instance-type label: as long as the pool is listed, it is reported
  // drifted exactly when the class names a region other than the cluster's.
  lemma RecordedClaimIsNotDrifted(cfg: Config, r: Run, j: nat, f: InFlight, i: nat, c: NodeClaim, page: seq<Pool>, classRegion: string)
    requires Behaves(cfg, r) && j < i < |r.states| && f.phase.Created?
    requires r.events[j].CreateRecorded? && r.events[j].k in r.states[j].creates && r.states[j].creates[r.events[j].k] == f
    requires
      && c in r.states[i].versions && PoolAnnotation(c) == f.phase.inst.nodePoolID
      && LABEL_INSTANCE_TYPE in c.labels && c.labels[LABEL_INSTANCE_TYPE] == Recorded(f).labels[LABEL_INSTANCE_TYPE]
    requires IsPage(page, r.states[i].w.cloud.pools) && Visible(r.states[i].w.cloud, page, PoolAnnotation(c))
    ensures IsDrifted(c, Some(classRegion), Some(page), cfg.region)
      == Ok(if classRegion == cfg.region then NotDrifted else RegionChanged)
  {
    Invariant(cfg, r, i);
    Invariant(cfg, r, j);
    PastKept(cfg, r, j, i);
    assert CreateInv(cfg, r.states[j].w, f.phase);
    assert Tied(r.states[i].w, c);
    DriftExactly(cfg, r.states[i], c, page, classRegion);
  }

  // ---- The two ways to delete ----

  function Unannotated(c: NodeClaim): NodeClaim {
    c.(annotations := c.annotations - {ANNOTATION_NODE_POOL_ID})
  }

  // The pools left once a call in this phase has run to a successful end.
  ghost function PoolsLeft(pools: map<string, Pool>, phase: DeletePhase): map<string, Pool> {
    if phase.Removing? then pools - {phase.id} else pools
  }

  lemma RemovalShows(pools: map<string, Pool>, id: string)
    ensures pools - {id} == pools <==> id !in pools
  {
  }

  lemma LookupPhases(cfg: Config, s: State, c: NodeClaim, page: seq<Pool>)
    requires Inv(cfg, s) && c in s.versions && Tied(s.w, c) && IsPage(page, s.w.cloud.pools)
    ensures StartDelete(c) == Removing(PoolAnnotation(c))
    ensures StartDelete(Unannotated(c)) == LookingUp(c.annotations[ANNOTATION_DROPLET_ID])
    ensures AdvanceDelete(cfg.region, StartDelete(Unannotated(c)), ListCall(Some(page))) ==
      Some(if Visible(s.w.cloud, page, PoolAnnotation(c)) then Removing(PoolAnnotation(c)) else DeleteDone(None))
  {
    TiedLookup(cfg, s, c, page);
    assert PoolAnnotation(Unannotated(c)) == "";
    assert PoolAnnotation(c) != "";
  }

  // What is left if the listing comes out as page, without the annotation.
  ghost predicate PathsAgree(cfg: Config, s: State, c: NodeClaim, page: seq<Pool>) {
    var found := AdvanceDelete(cfg.region, StartDelete(Unannotated(c)), ListCall(Some(page)));
    found.Some? && PoolsLeft(s.w.cloud.pools, found.value) == PoolsLeft(s.w.cloud.pools, StartDelete(c))
  }

  // By annotation a claim's pool is deleted; by provider ID too, unless the pool exists
  // and the one page that is listed does not show it with its tag. Then Delete reports
  // success and the pool stays.
  lemma DeletePathsAgree(cfg: Config, s: State, c: NodeClaim, page: seq<Pool>)
    requires Inv(cfg, s) && c in s.versions && Tied(s.w, c) && IsPage(page, s.w.cloud.pools)
    ensures PathsAgree(cfg, s, c, page) <==>
      PoolAnnotation(c) !in s.w.cloud.pools || Visible(s.w.cloud, page, PoolAnnotation(c))
    ensures !PathsAgree(cfg, s, c, page) ==>
      AdvanceDelete(cfg.region, StartDelete(Unannotated(c)), ListCall(Some(page))) == Some(DeleteDone(None))
  {
    LookupPhases(cfg, s, c, page);
    RemovalShows(s.w.cloud.pools, PoolAnnotation(c));
  }

  // So they agree whatever page is listed exactly when the pool is gone, or has its tag
  // and there is at most one page of pools.
  lemma DeletePathsAlwaysAgree(cfg: Config, s: State, c: NodeClaim)
    requires Inv(cfg, s) && c in s.versions && Tied(s.w, c)
    ensures (forall page :: IsPage(page, s.w.cloud.pools) ==> PathsAgree(cfg, s, c, page)) <==>
      var id := PoolAnnotation(c);
      id !in s.w.cloud.pools || (Managed(s.w.cloud.pools[id]) && |s.w.cloud.pools| <= PAGE_SIZE)
  {
    var id, cloud := PoolAnnotation(c), s.w.cloud;
    forall page | IsPage(page, cloud.pools)
      ensures PathsAgree(cfg, s, c, page) <==> id !in cloud.pools || Visible(cloud, page, id)
      ensures |cloud.pools| <= PAGE_SIZE && id in cloud.pools ==> id in PageIDs(page)
    {
      DeletePathsAgree(cfg, s, c, page);
      if |cloud.pools| <= PAGE_SIZE && id in cloud.pools {
        PageIsComplete(page, cloud, id);
        assert cloud.pools[id].id == id;
      }
    }
    if id in cloud.pools && |cloud.pools| > PAGE_SIZE {
      var page := PageMissing(cloud, id);
      assert !PathsAgree(cfg, s, c, page);
    } else if id in cloud.pools {
      var page := PageShowing(cloud, id);
      assert PathsAgree(cfg, s, c, page) <==> Managed(cloud.pools[id]);
    }
  }
}
