// Only Karpenter's pools are deleted, up to tags that go while the deletion is under way.
module Tags {
  import opened Wrappers
  import opened Doks
  import opened Instances
  import opened Claims
  import opened Lifecycle
  import opened Runs

  // What a step by hand leaves of the managed tag on a pool.
  function TagSet(e: Event, id: string): Option<bool> {
    match e
    case PutByHand(p) => if p.id == id then Some(Managed(p)) else None
    case Retagged(i, tags) => if i == id then Some(TAG_MANAGED_BY in tags) else None
    case _ => None
  }

  // Whenever the managed tag is taken off the pool from l on, it is put back before i.
  ghost predicate TagRestored(r: Run, l: nat, i: nat, id: string)
    requires i <= |r.events|
  {
    forall j :: l <= j < i && TagSet(r.events[j], id) == Some(false) ==>
      exists m :: j < m < i && TagSet(r.events[m], id) == Some(true)
  }

  lemma TagRestoredOn(r: Run, l: nat, i: nat, id: string)
    requires l <= i < |r.events|
    ensures TagRestored(r, l, i + 1, id) <==>
      if TagSet(r.events[i], id).Some? then TagSet(r.events[i], id).value else TagRestored(r, l, i, id)
  {
    var e := TagSet(r.events[i], id);
    if e == Some(true) {
      assert forall j :: l <= j < i + 1 && TagSet(r.events[j], id) == Some(false) ==> j < i;
    } else if e == None {
      if TagRestored(r, l, i, id) {
        forall j | l <= j < i + 1 && TagSet(r.events[j], id) == Some(false)
          ensures exists m :: j < m < i + 1 && TagSet(r.events[m], id) == Some(true)
        {
          var m :| j < m < i && TagSet(r.events[m], id) == Some(true);
        }
      }
      if TagRestored(r, l, i + 1, id) {
        forall j | l <= j < i && TagSet(r.events[j], id) == Some(false)
          ensures exists m :: j < m < i && TagSet(r.events[m], id) == Some(true)
        {
          var m :| j < m < i + 1 && TagSet(r.events[m], id) == Some(true);
          assert m != i;
        }
      }
    }
  }

  // A pool that was there before and is there after has the tag it had, or was given.
  lemma TagStep(cfg: Config, s: State, e: Event, id: string)
    requires Inv(cfg, s) && Enabled(cfg, s, e)
    requires id in s.w.cloud.usedIDs && id in CloudAfter(s.w.cloud, e).pools
    ensures id in s.w.cloud.pools
    ensures id in Tagged(CloudAfter(s.w.cloud, e)) <==>
      if TagSet(e, id).Some? then TagSet(e, id).value else id in Tagged(s.w.cloud)
  {
    StepKinds(cfg, s, e);
    if !Adds(e) {
      RestShrinks(s.w.cloud, e);
    }
  }

  lemma TagStepAt(cfg: Config, r: Run, l: nat, i: nat, id: string)
    requires Behaves(cfg, r) && l <= i < |r.events|
    requires id in r.states[l].w.cloud.pools && id in r.states[i + 1].w.cloud.pools
    ensures id in r.states[i].w.cloud.pools
    ensures id in Tagged(r.states[i + 1].w.cloud) <==>
      if TagSet(r.events[i], id).Some? then TagSet(r.events[i], id).value else id in Tagged(r.states[i].w.cloud)
  {
    Invariant(cfg, r, l);
    Invariant(cfg, r, i);
    PastKept(cfg, r, l, i);
    assert StepAt(cfg, r, i);
    TagStep(cfg, r.states[i], r.events[i], id);
  }

  // A pool tagged at l is tagged at any later i exactly if every untagging in between
  // was put right in between.
  lemma {:induction false} TaggedExactly(cfg: Config, r: Run, l: nat, i: nat, id: string)
    requires Behaves(cfg, r) && l <= i < |r.states|
    requires id in Tagged(r.states[l].w.cloud) && id in r.states[i].w.cloud.pools
    ensures id in Tagged(r.states[i].w.cloud) <==> TagRestored(r, l, i, id)
    decreases i
  {
    if l < i {
      TagStepAt(cfg, r, l, i - 1, id);
      TaggedExactly(cfg, r, l, i - 1, id);
      TagRestoredOn(r, l, i - 1, id);
    }
  }

  // ---- When each deletion looked at the tag ----

  function CallOf(e: Event): Option<Call> {
    match e
    case CreateStep(_, call) => Some(call)
    case DeleteStep(_, call) => Some(call)
    case GcStep(call) => Some(call)
    case _ => None
  }

  predicate Deletes(e: Event, id: string) {
    CallOf(e) == Some(DeleteCall(id, Deleted))
  }

  // At l the pool has just been made, tagged as Create tags its pools.
  predicate JustMade(r: Run, l: nat, id: string) {
    && 0 < l <= |r.events| && r.events[l - 1].CreateStep? && r.events[l - 1].call.CreateCall?
    && r.events[l - 1].call.created.Some? && r.events[l - 1].call.created.value.id == id
  }

  // A pass begins at i, and the listing comes out as page.
  predicate ListsAt(r: Run, i: nat, page: seq<Pool>) {
    && i < |r.events| && i < |r.states|
    && r.states[i].gc.GcIdle? && r.events[i] == GcStep(ListCall(Some(page)))
  }

  // The pass that begins at l is still under way at j.
  predicate PassRuns(r: Run, l: nat, j: nat) {
    j < |r.states| && l < j && forall m :: l < m <= j ==> !r.states[m].gc.GcIdle?
  }

  // The Delete call k settles on the pool at l, by what a listing shows.
  predicate FoundAt(r: Run, l: nat, k: nat, id: string) {
    && l < |r.events| && l + 1 < |r.states|
    && ((r.events[l].DeleteListed? && r.events[l].k == k) ||
        (r.events[l].DeleteStep? && r.events[l].k == k && r.events[l].call.ListCall?))
    && k in r.states[l + 1].deletes && r.states[l + 1].deletes[k] == Removing(id)
  }

  // The Delete call k starts before j from an annotation that names the pool.
  ghost predicate NamedBefore(r: Run, k: nat, j: nat, id: string) {
    exists n, c :: 0 <= n < j && n < |r.events| && r.events[n] == DeleteStarted(k, c) && PoolAnnotation(c) == id
  }

  // The deletion at j rests on the tags as of l: those of the listing it goes back to,
  // or, without a listing, those the pool was made with.
  ghost predicate RestsOn(r: Run, l: nat, j: nat, id: string)
    requires j < |r.events|
  {
    l <= j &&
    match r.events[j]
    case GcStep(_) => PassRuns(r, l, j) && exists page :: ListsAt(r, l, page)
    case DeleteStep(k, _) =>
      (l < j && FoundAt(r, l, k, id)) || (JustMade(r, l, id) && NamedBefore(r, k, j, id))
    case _ => JustMade(r, l, id)
  }

  lemma MadeIsTagged(cfg: Config, r: Run, l: nat, id: string)
    requires Behaves(cfg, r) && JustMade(r, l, id)
    ensures id in Tagged(r.states[l].w.cloud)
  {
    Invariant(cfg, r, l - 1);
    assert StepAt(cfg, r, l - 1);
    StepKinds(cfg, r.states[l - 1], r.events[l - 1]);
  }

  lemma {:induction false} MadeSometime(cfg: Config, r: Run, j: nat, id: string)
    requires Behaves(cfg, r) && j < |r.states| && id in r.states[j].w.made
    ensures exists l :: 0 <= l <= j && JustMade(r, l, id)
  {
    assert StepAt(cfg, r, j - 1);
    if id in r.states[j - 1].w.made {
      MadeSometime(cfg, r, j - 1, id);
    } else {
      assert JustMade(r, j, id);
    }
  }

  // What a pass holds stems from its listing.
  lemma {:induction false} PassHoldsListed(cfg: Config, r: Run, l: nat, page: seq<Pool>, j: nat)
    requires Behaves(cfg, r) && ListsAt(r, l, page) && PassRuns(r, l, j)
    ensures var listed := InstancesOf(ManagedPools(page), cfg.region);
      match r.states[j].gc
      case GcIdle => false
      case GcListed(instances) => instances == listed
      case GcSweeping(_, worklist) => forall inst :: inst in worklist ==> inst in listed
    decreases j
  {
    assert StepAt(cfg, r, j - 1);
    if l + 1 < j {
      PassHoldsListed(cfg, r, l, page, j - 1);
    }
  }

  lemma PassBeginsAt(cfg: Config, r: Run, i: nat)
    requires Behaves(cfg, r) && i < |r.events| && r.states[i].gc.GcIdle? && !r.states[i + 1].gc.GcIdle?
    ensures exists page :: ListsAt(r, i, page)
  {
    assert StepAt(cfg, r, i);
    assert ListsAt(r, i, r.events[i].call.page.value);
  }

  lemma {:induction false} PassBegins(cfg: Config, r: Run, j: nat)
    requires Behaves(cfg, r) && j < |r.states| && !r.states[j].gc.GcIdle?
    ensures exists l, page :: 0 <= l < j && ListsAt(r, l, page) && PassRuns(r, l, j)
  {
    if r.states[j - 1].gc.GcIdle? {
      PassBeginsAt(cfg, r, j - 1);
      assert PassRuns(r, j - 1, j);
    } else {
      PassBegins(cfg, r, j - 1);
      var l, page :| 0 <= l < j - 1 && ListsAt(r, l, page) && PassRuns(r, l, j - 1);
      assert PassRuns(r, l, j);
    }
  }

  lemma FoundIsTagged(cfg: Config, r: Run, l: nat, k: nat, id: string)
    requires Behaves(cfg, r) && FoundAt(r, l, k, id)
    ensures id in Tagged(r.states[l].w.cloud)
  {
    Invariant(cfg, r, l);
    assert StepAt(cfg, r, l);
    var s, e := r.states[l], r.events[l];
    if e.DeleteListed? {
      ListedFromCloud(s.w.cloud, e.page, cfg.region, e.inst);
    } else {
      FoundFromCloud(s.w.cloud, e.call.page.value, cfg.region, s.deletes[k].d);
    }
  }

  lemma {:induction false} RemovalBegins(cfg: Config, r: Run, j: nat, k: nat, id: string)
    requires Behaves(cfg, r) && j < |r.states| && k in r.states[j].deletes && r.states[j].deletes[k] == Removing(id)
    ensures (exists l :: 0 <= l < j && FoundAt(r, l, k, id)) || (id in r.states[j].w.made && NamedBefore(r, k, j, id))
  {
    var s, e := r.states[j - 1], r.events[j - 1];
    assert StepAt(cfg, r, j - 1);
    if k in s.deletes && s.deletes[k] == Removing(id) {
      RemovalBegins(cfg, r, j - 1, k, id);
      PastKept(cfg, r, j - 1, j);
    } else if e.DeleteStarted? {
      Invariant(cfg, r, j - 1);
      assert Blank(e.claim) || Tied(s.w, e.claim);
      assert r.events[j - 1] == DeleteStarted(k, e.claim) && PoolAnnotation(e.claim) == id;
    } else {
      assert FoundAt(r, j - 1, k, id);
    }
  }

  lemma TaggedWhereItRests(cfg: Config, r: Run, l: nat, j: nat, id: string)
    requires Behaves(cfg, r) && j < |r.events| && Deletes(r.events[j], id) && RestsOn(r, l, j, id)
    ensures id in Tagged(r.states[l].w.cloud)
  {
    assert StepAt(cfg, r, j);
    if r.events[j].GcStep? {
      var page :| ListsAt(r, l, page);
      PassHoldsListed(cfg, r, l, page, j);
      Invariant(cfg, r, l);
      assert StepAt(cfg, r, l);
      ListedFromCloud(r.states[l].w.cloud, page, cfg.region, r.states[j].gc.worklist[0]);
    } else if r.events[j].DeleteStep? && FoundAt(r, l, r.events[j].k, id) {
      FoundIsTagged(cfg, r, l, r.events[j].k, id);
    } else {
      MadeIsTagged(cfg, r, l, id);
    }
  }

  lemma CleanupIsOfMadePool(cfg: Config, r: Run, j: nat, id: string)
    requires Behaves(cfg, r) && j < |r.events| && r.events[j].CreateStep? && Deletes(r.events[j], id)
    ensures id in r.states[j].w.made
  {
    Invariant(cfg, r, j);
    assert StepAt(cfg, r, j);
    assert CreateInv(cfg, r.states[j].w, r.states[j].creates[r.events[j].k].phase);
  }

  lemma RestsSomewhere(cfg: Config, r: Run, j: nat, id: string)
    requires Behaves(cfg, r) && j < |r.events| && Deletes(r.events[j], id)
    ensures exists l :: 0 <= l <= j && RestsOn(r, l, j, id)
  {
    if r.events[j].GcStep? {
      PassBegins(cfg, r, j) by {
        assert StepAt(cfg, r, j);
      }
      var l, page :| 0 <= l < j && ListsAt(r, l, page) && PassRuns(r, l, j);
      assert RestsOn(r, l, j, id);
    } else if r.events[j].DeleteStep? {
      var k := r.events[j].k;
      RemovalBegins(cfg, r, j, k, id) by {
        assert StepAt(cfg, r, j);
      }
      if l :| 0 <= l < j && FoundAt(r, l, k, id) {
        assert RestsOn(r, l, j, id);
      } else {
        MadeSometime(cfg, r, j, id);
        var l :| 0 <= l <= j && JustMade(r, l, id);
        assert RestsOn(r, l, j, id);
      }
    } else {
      CleanupIsOfMadePool(cfg, r, j, id);
      MadeSometime(cfg, r, j, id);
      var l :| 0 <= l <= j && JustMade(r, l, id);
      assert RestsOn(r, l, j, id);
    }
  }

  // Whoever deletes a pool, by whatever path: the pool exists, it was tagged when the
  // decision was taken, and it is tagged now exactly if no untagging since then was
  // left standing.
  lemma OnlyManagedPoolsAreDeleted(cfg: Config, r: Run, j: nat, id: string)
    requires Behaves(cfg, r) && j < |r.events| && Deletes(r.events[j], id)
    ensures id in r.states[j].w.cloud.pools
    ensures exists l :: 0 <= l <= j && RestsOn(r, l, j, id)
    ensures forall l :: 0 <= l <= j && RestsOn(r, l, j, id) ==>
      && id in Tagged(r.states[l].w.cloud)
      && (Managed(r.states[j].w.cloud.pools[id]) <==> TagRestored(r, l, j, id))
  {
    assert StepAt(cfg, r, j);
    RestsSomewhere(cfg, r, j, id);
    forall l | 0 <= l <= j && RestsOn(r, l, j, id)
      ensures id in Tagged(r.states[l].w.cloud)
      ensures Managed(r.states[j].w.cloud.pools[id]) <==> TagRestored(r, l, j, id)
    {
      TaggedWhereItRests(cfg, r, l, j, id);
      TaggedExactly(cfg, r, l, j, id);
    }
  }
}
