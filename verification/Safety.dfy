// What holds over every run of the lifecycle, whatever the interleaving.
module Safety {
  import opened Wrappers
  import Seqs
  import opened Doks
  import opened Instances
  import opened Claims
  import opened Lifecycle
  import opened Runs
  import opened Tags

  // ---- Garbage collection spares claimed pools ----

  predicate AttemptsDelete(e: Event, id: string) {
    e.GcStep? && e.call.DeleteCall? && e.call.id == id
  }

  // The claims of the pass under way at j were read, successfully, at k.
  ghost predicate ReadFor(r: Run, k: int, j: int)
    requires j <= |r.events|
  {
    && 0 <= k < j && r.events[k].GcClaims? && r.events[k].read.Some?
    && forall m :: k < m < j ==>
         !r.events[m].GcClaims? && !r.events[m].GcStopped? && !(r.events[m].GcStep? && r.events[m].call.ListCall?)
  }

  lemma SweepingStep(cfg: Config, r: Run, i: nat)
    requires Behaves(cfg, r) && i < |r.events| && r.states[i + 1].gc.GcSweeping?
    ensures
      || (r.states[i].gc.GcSweeping? && !r.events[i].GcClaims? && !r.events[i].GcStopped?
          && !(r.events[i].GcStep? && r.events[i].call.ListCall?))
      || (r.events[i].GcClaims? && r.events[i].read.Some?)
  {
    assert StepAt(cfg, r, i);
  }

  lemma {:induction false} SweepingWasRead(cfg: Config, r: Run, j: nat)
    requires Behaves(cfg, r) && j < |r.states| && r.states[j].gc.GcSweeping?
    ensures exists k :: ReadFor(r, k, j)
  {
    SweepingStep(cfg, r, j - 1);
    if r.events[j - 1].GcClaims? {
      assert ReadFor(r, j - 1, j);
    } else {
      SweepingWasRead(cfg, r, j - 1);
      var k :| ReadFor(r, k, j - 1);
      assert ReadFor(r, k, j);
    }
  }

  lemma {:induction false} ReadIsKept(cfg: Config, r: Run, k: nat, j: nat)
    requires Behaves(cfg, r) && k < j < |r.states|
    requires r.events[k].GcClaims? && r.events[k].read.Some?
    requires forall m :: k < m < j ==> !r.events[m].GcClaims?
    ensures r.states[j].gc.GcSweeping? ==> r.states[j].gc.read == r.events[k].read.value
    decreases j
  {
    assert StepAt(cfg, r, j - 1);
    if k + 1 < j {
      ReadIsKept(cfg, r, k, j - 1);
    }
  }

  // From one reading of the claims to the next, garbage collection never tries to
  // delete a pool named by a claim it read.
  lemma GcSparesClaimedPools(cfg: Config, r: Run, k: nat, j: nat, c: NodeClaim)
    requires Behaves(cfg, r) && k < j < |r.events|
    requires r.events[k].GcClaims? && r.events[k].read.Some? && c in r.events[k].read.value
    requires forall m :: k < m < j ==> !r.events[m].GcClaims?
    ensures !AttemptsDelete(r.events[j], PoolAnnotation(c))
  {
    if AttemptsDelete(r.events[j], PoolAnnotation(c)) {
      assert StepAt(cfg, r, j);
      ReadIsKept(cfg, r, k, j);
      Invariant(cfg, r, j);
      assert false;
    }
  }

  // Garbage collection tries to delete only after the claims were read, in the same pass
  // and with success, and then only a pool none of them names. A failed reading ends the
  // pass: nothing is tried until claims are read again.
  lemma OnlyAfterReading(cfg: Config, r: Run, j: nat, id: string)
    requires Behaves(cfg, r) && j < |r.events| && AttemptsDelete(r.events[j], id)
    ensures exists k :: ReadFor(r, k, j) && forall c :: c in r.events[k].read.value ==> PoolAnnotation(c) != id
  {
    SweepingWasRead(cfg, r, j) by {
      assert StepAt(cfg, r, j);
    }
    var k :| ReadFor(r, k, j);
    forall c | c in r.events[k].read.value ensures PoolAnnotation(c) != id {
      GcSparesClaimedPools(cfg, r, k, j, c);
    }
  }

  // In particular, if the claims are read as they stand, every pool a claim names at
  // that moment is safe from this pass.
  lemma GcSparesRecordedPools(cfg: Config, r: Run, k: nat, j: nat, name: string)
    requires Behaves(cfg, r) && k < j < |r.events|
    requires r.events[k].GcClaims? && r.events[k].read.Some?
    requires forall name :: name in r.states[k].claims ==> r.states[k].claims[name] in r.events[k].read.value
    requires name in r.states[k].claims
    requires forall m :: k < m < j ==> !r.events[m].GcClaims?
    ensures !AttemptsDelete(r.events[j], PoolAnnotation(r.states[k].claims[name]))
  {
    GcSparesClaimedPools(cfg, r, k, j, r.states[k].claims[name]);
  }

  predicate GcEvent(e: Event) {
    e.GcStep? || e.GcClaims? || e.GcStopped?
  }

  lemma {:induction false} ListingIsKept(cfg: Config, r: Run, i: nat, page: seq<Pool>, k: nat)
    requires Behaves(cfg, r) && i < k < |r.states|
    requires ListsAt(r, i, page)
    requires forall m :: i < m < k ==> !GcEvent(r.events[m])
    ensures r.states[k].gc == GcListed(InstancesOf(ManagedPools(page), cfg.region))
    decreases k
  {
    assert StepAt(cfg, r, k - 1);
    if i + 1 < k {
      ListingIsKept(cfg, r, i, page, k - 1);
    }
  }

  // The instances listed for a pool.
  lemma VisibleExactly(cfg: Config, c: Cloud, page: seq<Pool>, id: string)
    requires WellFormed(c) && IsPage(page, c.pools)
    ensures (exists inst :: inst in InstancesOf(ManagedPools(page), cfg.region) && inst.nodePoolID == id) <==>
      id in PageIDs(page) && id in c.pools && Managed(c.pools[id]) && Droplets(c.pools[id].nodes) != {}
  {
    var instances := InstancesOf(ManagedPools(page), cfg.region);
    if inst :| inst in instances && inst.nodePoolID == id {
      ListedExactly(ManagedPools(page), cfg.region, inst);
      var p :| p in ManagedPools(page) && Shows(p, cfg.region, inst);
      var node :| node in p.nodes && ValidDropletID(node.dropletID) && inst == NodeToInstance(p, node, cfg.region);
      assert p in page && node.dropletID in Droplets(p.nodes);
    }
    if id in PageIDs(page) && Managed(c.pools[id]) && Droplets(c.pools[id].nodes) != {} {
      var p := c.pools[id];
      Seqs.FilterKeeps((q: Pool) => Managed(q), page, p);
      var d :| d in Droplets(p.nodes);
      var node :| node in p.nodes && ValidDropletID(node.dropletID) && node.dropletID == d;
      ListedExactly(ManagedPools(page), cfg.region, NodeToInstance(p, node, cfg.region));
      assert Shows(p, cfg.region, NodeToInstance(p, node, cfg.region));
    }
  }

  lemma WorklistPools(w: World, versions: set<NodeClaim>, instances: seq<Instance>, read: seq<NodeClaim>, id: string)
    requires WorldInv(w) && VersionsInv(w, versions)
    requires forall i :: i in instances ==> Seen(w, i)
    requires forall c :: c in read ==> c in versions
    ensures (exists inst :: inst in Orphans(instances, KnownIDs(read)) && inst.nodePoolID == id) <==>
      (exists inst :: inst in instances && inst.nodePoolID == id) && forall c :: c in read ==> PoolAnnotation(c) != id
  {
    forall inst | inst in instances
      ensures inst in Orphans(instances, KnownIDs(read)) <==> forall c :: c in read ==> PoolAnnotation(c) != inst.nodePoolID
    {
      WorklistExact(w, versions, instances, read, inst);
    }
  }

  lemma WorklistAfterReading(cfg: Config, r: Run, k: nat, id: string)
    requires Behaves(cfg, r) && k < |r.events|
    requires r.events[k].GcClaims? && r.events[k].read.Some?
    ensures r.states[k].gc.GcListed? && r.states[k + 1].gc.GcSweeping?
    ensures (exists inst :: inst in r.states[k + 1].gc.worklist && inst.nodePoolID == id) <==>
      && (exists inst :: inst in r.states[k].gc.instances && inst.nodePoolID == id)
      && forall c :: c in r.events[k].read.value ==> PoolAnnotation(c) != id
  {
    Invariant(cfg, r, k);
    assert StepAt(cfg, r, k);
    WorklistPools(r.states[k].w, r.states[k].versions, r.states[k].gc.instances, r.events[k].read.value, id);
  }

  // A pass lists at i and reads claims at k. A pool is up for deletion exactly when it
  // was on the page, tagged and with a droplet, at i, and no claim read at k names it.
  // In particular a Create still in flight does not protect its pool.
  lemma GcTargetsExactly(cfg: Config, r: Run, i: nat, page: seq<Pool>, k: nat, id: string)
    requires Behaves(cfg, r) && i < k < |r.events|
    requires ListsAt(r, i, page)
    requires forall m :: i < m < k ==> !GcEvent(r.events[m])
    requires r.events[k].GcClaims? && r.events[k].read.Some?
    ensures r.states[k + 1].gc.GcSweeping?
    ensures (exists inst :: inst in r.states[k + 1].gc.worklist && inst.nodePoolID == id) <==>
      && id in PageIDs(page) && id in r.states[i].w.cloud.pools
      && Managed(r.states[i].w.cloud.pools[id]) && Droplets(r.states[i].w.cloud.pools[id].nodes) != {}
      && forall c :: c in r.events[k].read.value ==> PoolAnnotation(c) != id
  {
    ListingIsKept(cfg, r, i, page, k);
    WorklistAfterReading(cfg, r, k, id);
    VisibleExactly(cfg, r.states[i].w.cloud, page, id) by {
      Invariant(cfg, r, i);
      assert StepAt(cfg, r, i);
    }
  }

  // A tagged pool no claim names, wherever it was stranded, is up for deletion in the next
  // pass that finds it with a droplet, as long as there is at most one page of pools.
  lemma UnclaimedPoolIsTargeted(cfg: Config, r: Run, i: nat, page: seq<Pool>, k: nat, id: string)
    requires Behaves(cfg, r) && i < k < |r.events|
    requires ListsAt(r, i, page)
    requires forall m :: i < m < k ==> !GcEvent(r.events[m])
    requires r.events[k].GcClaims? && r.events[k].read.Some?
    requires id in r.states[i].w.cloud.pools && |r.states[i].w.cloud.pools| <= PAGE_SIZE
    requires Managed(r.states[i].w.cloud.pools[id]) && Droplets(r.states[i].w.cloud.pools[id].nodes) != {}
    requires forall c :: c in r.events[k].read.value ==> PoolAnnotation(c) != id
    ensures r.states[k + 1].gc.GcSweeping? && exists inst :: inst in r.states[k + 1].gc.worklist && inst.nodePoolID == id
  {
    Invariant(cfg, r, i);
    assert StepAt(cfg, r, i);
    PageIsComplete(page, r.states[i].w.cloud, id);
    GcTargetsExactly(cfg, r, i, page, k, id);
  }

  // Everything in a worklist is tried before the pass has nothing left to do.
  lemma {:induction false} WorklistIsWorkedOff(cfg: Config, r: Run, k: nat, j: nat, inst: Instance)
    requires Behaves(cfg, r) && k < j < |r.states| && r.states[k].gc.GcSweeping? && inst in r.states[k].gc.worklist
    requires forall m :: k <= m < j ==> !r.events[m].GcStopped?
    ensures r.states[j].gc.GcSweeping?
    ensures inst in r.states[j].gc.worklist || exists m :: k <= m < j && AttemptsDelete(r.events[m], inst.nodePoolID)
    decreases j
  {
    if k + 1 < j {
      WorklistIsWorkedOff(cfg, r, k, j - 1, inst);
    }
    var s, e := r.states[j - 1], r.events[j - 1];
    assert StepAt(cfg, r, j - 1);
    if inst in s.gc.worklist && e.GcStep? && inst !in s.gc.worklist[1..] {
      assert inst == s.gc.worklist[0];
      assert AttemptsDelete(e, inst.nodePoolID);
    }
  }
}
