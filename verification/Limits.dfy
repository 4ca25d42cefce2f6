// Runs that show where the guarantees end.
module Limits {
  import opened Wrappers
  import opened Doks
  import opened Instances
  import opened Claims
  import opened Lifecycle
  import opened Runs
  import opened Lookups

  ghost function Extend(cfg: Config, r: Run, e: Event): Run
    requires r.states != [] && Enabled(cfg, r.states[|r.states| - 1], e)
  {
    Run(r.states + [Next(cfg, r.states[|r.states| - 1], e)], r.events + [e])
  }

  lemma ExtendBehaves(cfg: Config, r: Run, e: Event)
    requires Behaves(cfg, r) && Enabled(cfg, r.states[|r.states| - 1], e)
    ensures Behaves(cfg, Extend(cfg, r, e))
  {
    var x := Extend(cfg, r, e);
    forall i: nat ensures StepAt(cfg, x, i) {
      if i < |r.events| {
        assert StepAt(cfg, r, i);
        assert x.states[i] == r.states[i] && x.states[i + 1] == r.states[i + 1] && x.events[i] == r.events[i];
      }
    }
  }

  const CLAIM := NodeClaim("a", "default", [], map[], map[], "")
  const READY := Node("d", "a-1", None, 0)

  function PoolFor(r: PoolRequest, id: string, nodes: seq<Node>): Pool {
    Pool(id, r.name, r.size, r.count, r.tags, r.labels, r.taints, nodes)
  }

  lemma OnePoolPage(p: Pool)
    ensures IsPage([p], map[p.id := p])
  {
  }

  lemma OnePoolListed(p: Pool, region: string)
    requires Managed(p) && p.nodes == [READY]
    ensures InstancesOf(ManagedPools([p]), region) == [NodeToInstance(p, READY, region)]
  {
    assert [p][..0] == [];
    assert ManagedPools([p]) == [p];
    assert [READY][..0] == [];
    assert PoolInstances(p, [READY], region) == [NodeToInstance(p, READY, region)];
  }

  ghost function Last(r: Run): State
    requires r.states != []
  {
    r.states[|r.states| - 1]
  }

  lemma Step(cfg: Config, r: Run, e: Event, t: State) returns (x: Run)
    requires Behaves(cfg, r) && Enabled(cfg, Last(r), e) && Next(cfg, Last(r), e) == t
    ensures Behaves(cfg, x) && x.events == r.events + [e] && x.states == r.states + [t]
  {
    ExtendBehaves(cfg, r, e);
    x := Extend(cfg, r, e);
  }

  // ---- A pool collected under a Create ----

  function MadePool(cfg: Config, size: string, nodes: seq<Node>): Pool {
    PoolFor(Request(cfg.clusterName, cfg.region, CLAIM.name, size, []), "p", nodes)
  }

  function MadeInstance(cfg: Config, size: string): Instance {
    NodeToInstance(MadePool(cfg, size, [READY]), READY, cfg.region)
  }

  function At(pools: map<string, Pool>, homes: map<string, string>, phase: CreatePhase, gc: GcPhase): State {
    State(World(Cloud(pools, {"p"}, homes), {"p"}, {"p"}), map["a" := CLAIM], {CLAIM},
          map[0 := InFlight(CLAIM, phase)], map[], gc)
  }

  lemma CreateMakesPool(cfg: Config, size: string, s: State)
    requires s == INIT.(claims := map["a" := CLAIM], versions := {CLAIM},
      creates := map[0 := InFlight(CLAIM, Requesting(Request(cfg.clusterName, cfg.region, CLAIM.name, size, [])))])
    ensures var e := CreateStep(0, CreateCall(Request(cfg.clusterName, cfg.region, CLAIM.name, size, []), Some(MadePool(cfg, size, []))));
      Enabled(cfg, s, e) && Next(cfg, s, e) == At(map["p" := MadePool(cfg, size, [])], map[], Polling("p", 0), GcIdle)
  {
    var p := MadePool(cfg, size, []);
    assert Managed(p);
    assert Put(INIT.w.cloud, p) == Cloud(map["p" := p], {"p"}, map[]);
    assert Tagged(Put(INIT.w.cloud, p)) == {"p"};
  }

  lemma UpToPool(cfg: Config, size: string) returns (r: Run)
    ensures Behaves(cfg, r)
    ensures Last(r) == At(map["p" := MadePool(cfg, size, [])], map[], Polling("p", 0), GcIdle)
  {
    var request := Request(cfg.clusterName, cfg.region, CLAIM.name, size, []);
    r := Run([INIT], []);
    var s1 := INIT.(claims := map["a" := CLAIM], versions := {CLAIM});
    r := Step(cfg, r, ClaimStored(CLAIM), s1);
    var s2 := s1.(creates := map[0 := InFlight(CLAIM, Requesting(request))]);
    r := Step(cfg, r, CreateStarted(0, CLAIM, size, []), s2);
    CreateMakesPool(cfg, size, s2);
    r := Step(cfg, r, CreateStep(0, CreateCall(request, Some(MadePool(cfg, size, [])))),
              At(map["p" := MadePool(cfg, size, [])], map[], Polling("p", 0), GcIdle));
  }

  lemma NodeGetsDroplet(cfg: Config, size: string)
    ensures var s := At(map["p" := MadePool(cfg, size, [])], map[], Polling("p", 0), GcIdle);
      var e := Event.Provisioned(MadePool(cfg, size, [READY]));
      && Enabled(cfg, s, e)
      && Next(cfg, s, e) == At(map["p" := MadePool(cfg, size, [READY])], map["d" := "p"], Polling("p", 0), GcIdle)
  {
    var c := Cloud(map["p" := MadePool(cfg, size, [])], {"p"}, map[]);
    assert Droplets([READY]) == {"d"};
    assert Put(c, MadePool(cfg, size, [READY])) == Cloud(map["p" := MadePool(cfg, size, [READY])], {"p"}, map["d" := "p"]);
    assert Tagged(Put(c, MadePool(cfg, size, [READY]))) == {"p"};
  }

  lemma PollSeesDroplet(cfg: Config, size: string)
    ensures var pools := map["p" := MadePool(cfg, size, [READY])];
      var s := At(pools, map["d" := "p"], Polling("p", 0), GcIdle);
      var e := CreateStep(0, GetCall("p", Some(MadePool(cfg, size, [READY]))));
      && Enabled(cfg, s, e)
      && Next(cfg, s, e) == At(pools, map["d" := "p"], ClearingTaints("p", MadeInstance(cfg, size)), GcIdle)
  {
  }

  lemma PassListsPool(cfg: Config, size: string)
    ensures var pools := map["p" := MadePool(cfg, size, [READY])];
      var s := At(pools, map["d" := "p"], ClearingTaints("p", MadeInstance(cfg, size)), GcIdle);
      var e := GcStep(ListCall(Some([MadePool(cfg, size, [READY])])));
      && Enabled(cfg, s, e)
      && Next(cfg, s, e) == s.(gc := GcListed([MadeInstance(cfg, size)]))
  {
    OnePoolPage(MadePool(cfg, size, [READY]));
    OnePoolListed(MadePool(cfg, size, [READY]), cfg.region);
    assert Tagged(Cloud(map["p" := MadePool(cfg, size, [READY])], {"p"}, map["d" := "p"])) == {"p"};
  }

  lemma OrphansOfOne(inst: Instance, read: seq<NodeClaim>)
    requires forall c :: c in read ==> c.providerID == ""
    ensures Orphans([inst], KnownIDs(read)) == [inst]
  {
  }

  lemma PassReadsBlankClaim(cfg: Config, size: string)
    ensures var pools := map["p" := MadePool(cfg, size, [READY])];
      var s := At(pools, map["d" := "p"], ClearingTaints("p", MadeInstance(cfg, size)), GcListed([MadeInstance(cfg, size)]));
      && Enabled(cfg, s, GcClaims(Some([CLAIM])))
      && Next(cfg, s, GcClaims(Some([CLAIM]))) == s.(gc := GcSweeping([CLAIM], [MadeInstance(cfg, size)]))
  {
    OrphansOfOne(MadeInstance(cfg, size), [CLAIM]);
    assert Tagged(Cloud(map["p" := MadePool(cfg, size, [READY])], {"p"}, map["d" := "p"])) == {"p"};
  }

  lemma PassDeletesPool(cfg: Config, size: string)
    ensures var phase := ClearingTaints("p", MadeInstance(cfg, size));
      var s := At(map["p" := MadePool(cfg, size, [READY])], map["d" := "p"], phase, GcSweeping([CLAIM], [MadeInstance(cfg, size)]));
      var e := GcStep(DeleteCall("p", Deleted));
      && Enabled(cfg, s, e)
      && Next(cfg, s, e) == At(map[], map["d" := "p"], phase, GcSweeping([CLAIM], []))
  {
    assert map["p" := MadePool(cfg, size, [READY])] - {"p"} == map[];
    assert [MadeInstance(cfg, size)][1..] == [];
  }

  lemma CreateStillSucceeds(cfg: Config, size: string)
    ensures var s := At(map[], map["d" := "p"], ClearingTaints("p", MadeInstance(cfg, size)), GcSweeping([CLAIM], []));
      var e := CreateStep(0, TaintsCall("p", false));
      && Enabled(cfg, s, e)
      && Next(cfg, s, e) == At(map[], map["d" := "p"], Created(MadeInstance(cfg, size)), GcSweeping([CLAIM], []))
  {
  }

  lemma UpToReady(cfg: Config, size: string) returns (r: Run)
    ensures Behaves(cfg, r)
    ensures Last(r) == At(map["p" := MadePool(cfg, size, [READY])], map["d" := "p"],
                          ClearingTaints("p", MadeInstance(cfg, size)), GcIdle)
  {
    var pools, homes := map["p" := MadePool(cfg, size, [READY])], map["d" := "p"];
    r := UpToPool(cfg, size);
    NodeGetsDroplet(cfg, size);
    r := Step(cfg, r, Event.Provisioned(MadePool(cfg, size, [READY])), At(pools, homes, Polling("p", 0), GcIdle));
    PollSeesDroplet(cfg, size);
    r := Step(cfg, r, CreateStep(0, GetCall("p", Some(MadePool(cfg, size, [READY])))),
              At(pools, homes, ClearingTaints("p", MadeInstance(cfg, size)), GcIdle));
  }

  // Garbage collection may delete a pool while the Create that made it is about to
  // return it; that Create then reports success. The claim is stored and read all
  // along, but its provider ID is only recorded after Create has returned.
  lemma CreateCanReturnACollectedPool(cfg: Config, size: string) returns (r: Run)
    ensures Behaves(cfg, r)
    ensures exists i :: 0 <= i < |r.events| && r.events[i] == GcStep(DeleteCall("p", Deleted))
    ensures Last(r).creates == map[0 := InFlight(CLAIM, Created(MadeInstance(cfg, size)))]
    ensures MadeInstance(cfg, size).nodePoolID == "p" && "p" !in Last(r).w.cloud.pools && Last(r).claims == map["a" := CLAIM]
  {
    var pools, homes, inst := map["p" := MadePool(cfg, size, [READY])], map["d" := "p"], MadeInstance(cfg, size);
    var phase := ClearingTaints("p", inst);
    r := UpToReady(cfg, size);
    PassListsPool(cfg, size);
    r := Step(cfg, r, GcStep(ListCall(Some([MadePool(cfg, size, [READY])]))), At(pools, homes, phase, GcListed([inst])));
    PassReadsBlankClaim(cfg, size);
    r := Step(cfg, r, GcClaims(Some([CLAIM])), At(pools, homes, phase, GcSweeping([CLAIM], [inst])));
    PassDeletesPool(cfg, size);
    var n := |r.events|;
    r := Step(cfg, r, GcStep(DeleteCall("p", Deleted)), At(map[], homes, phase, GcSweeping([CLAIM], [])));
    CreateStillSucceeds(cfg, size);
    r := Step(cfg, r, CreateStep(0, TaintsCall("p", false)), At(map[], homes, Created(inst), GcSweeping([CLAIM], [])));
    assert r.events[n] == GcStep(DeleteCall("p", Deleted));
  }

  // ---- A pool that lost its tag while garbage collection was under way ----

  const TAGGED_POOL := Pool("p", "", "", 1, [TAG_MANAGED_BY], map[], [], [READY])

  function With(pool: Pool, gc: GcPhase): State {
    State(World(Cloud(map["p" := pool], {"p"}, map["d" := "p"]), {}, {"p"}), map[], {}, map[], map[], gc)
  }

  lemma TaggedPoolAppears(cfg: Config)
    ensures Enabled(cfg, INIT, PutByHand(TAGGED_POOL)) && Next(cfg, INIT, PutByHand(TAGGED_POOL)) == With(TAGGED_POOL, GcIdle)
  {
    assert Droplets([READY]) == {"d"};
    assert Tagged(Put(INIT.w.cloud, TAGGED_POOL)) == {"p"};
  }

  lemma TaggedInSuchState(pool: Pool, gc: GcPhase)
    ensures Tagged(With(pool, gc).w.cloud) == if Managed(pool) then {"p"} else {}
  {
  }

  lemma PassListsGivenPool(cfg: Config, pool: Pool)
    requires Managed(pool) && pool.nodes == [READY] && pool.id == "p"
    ensures var e := GcStep(ListCall(Some([pool])));
      && Enabled(cfg, With(pool, GcIdle), e)
      && Next(cfg, With(pool, GcIdle), e) == With(pool, GcListed([NodeToInstance(pool, READY, cfg.region)]))
  {
    OnePoolPage(pool);
    OnePoolListed(pool, cfg.region);
    TaggedInSuchState(pool, GcIdle);
  }

  lemma PassListsTaggedPool(cfg: Config)
    ensures var e := GcStep(ListCall(Some([TAGGED_POOL])));
      var inst := NodeToInstance(TAGGED_POOL, READY, cfg.region);
      && Enabled(cfg, With(TAGGED_POOL, GcIdle), e)
      && Next(cfg, With(TAGGED_POOL, GcIdle), e) == With(TAGGED_POOL, GcListed([inst]))
  {
    PassListsGivenPool(cfg, TAGGED_POOL);
  }

  lemma TagIsTakenOff(cfg: Config, gc: GcPhase)
    ensures var e := PutByHand(TAGGED_POOL.(tags := []));
      && Enabled(cfg, With(TAGGED_POOL, gc), e)
      && Next(cfg, With(TAGGED_POOL, gc), e) == With(TAGGED_POOL.(tags := []), gc)
  {
  }

  lemma PassTargetsUntaggedPool(cfg: Config, inst: Instance)
    ensures var s := With(TAGGED_POOL.(tags := []), GcListed([inst]));
      && Enabled(cfg, s, GcClaims(Some([])))
      && Next(cfg, s, GcClaims(Some([]))) == s.(gc := GcSweeping([], [inst]))
  {
    OrphansOfOne(inst, []);
    assert Tagged(With(TAGGED_POOL.(tags := []), GcIdle).w.cloud) == {};
  }

  lemma UntaggedPoolIsDeletable(cfg: Config)
    ensures var untagged := TAGGED_POOL.(tags := []);
      && !Managed(untagged)
      && Enabled(cfg, With(untagged, GcSweeping([], [NodeToInstance(TAGGED_POOL, READY, cfg.region)])),
                 GcStep(DeleteCall("p", Deleted)))
  {
  }

  // The tag goes between the listing and the deletion: the pool is deleted all the same.
  lemma UntaggedPoolCanBeCollected(cfg: Config) returns (r: Run)
    ensures Behaves(cfg, r)
    ensures Last(r).w.cloud.pools == map["p" := TAGGED_POOL.(tags := [])] && !Managed(TAGGED_POOL.(tags := []))
    ensures Enabled(cfg, Last(r), GcStep(DeleteCall("p", Deleted)))
  {
    var inst := NodeToInstance(TAGGED_POOL, READY, cfg.region);
    var untagged := TAGGED_POOL.(tags := []);
    r := Run([INIT], []);
    TaggedPoolAppears(cfg);
    r := Step(cfg, r, PutByHand(TAGGED_POOL), With(TAGGED_POOL, GcIdle));
    PassListsTaggedPool(cfg);
    r := Step(cfg, r, GcStep(ListCall(Some([TAGGED_POOL]))), With(TAGGED_POOL, GcListed([inst])));
    TagIsTakenOff(cfg, GcListed([inst]));
    r := Step(cfg, r, PutByHand(untagged), With(untagged, GcListed([inst])));
    PassTargetsUntaggedPool(cfg, inst);
    r := Step(cfg, r, GcClaims(Some([])), With(untagged, GcSweeping([], [inst])));
    UntaggedPoolIsDeletable(cfg);
  }

  // ---- A pool off the one page that is listed ----

  function RecordedClaim(cfg: Config, size: string): NodeClaim {
    InstanceToNodeClaim(MadeInstance(cfg, size), Some(CLAIM))
  }

  function OtherID(n: nat): string {
    seq(n + 2, i => 'x')
  }

  function OtherIDs(n: nat): set<string> {
    set k | 0 <= k < n :: OtherID(k)
  }

  function Bare(id: string): Pool {
    Pool(id, "", "", 0, [], map[], [], [])
  }

  function PoolsWithOthers(cfg: Config, size: string, n: nat): map<string, Pool> {
    map id | id in {"p"} + OtherIDs(n) :: if id == "p" then MadePool(cfg, size, [READY]) else Bare(id)
  }

  function WithOthers(cfg: Config, size: string, n: nat): State {
    State(World(Cloud(PoolsWithOthers(cfg, size, n), {"p"} + OtherIDs(n), map["d" := "p"]), {"p"}, {"p"}),
          map["a" := RecordedClaim(cfg, size)], {CLAIM, RecordedClaim(cfg, size)}, map[], map[], GcIdle)
  }

  lemma OtherIsNew(n: nat)
    ensures OtherID(n) !in {"p"} + OtherIDs(n) && OtherID(n) != ""
    ensures OtherIDs(n + 1) == OtherIDs(n) + {OtherID(n)}
  {
    forall k | 0 <= k < n ensures OtherID(k) != OtherID(n) {
      assert |OtherID(k)| != |OtherID(n)|;
    }
    assert |OtherID(n)| != |"p"|;
  }

  lemma {:induction false} OthersCount(n: nat)
    ensures |OtherIDs(n)| == n && "p" !in OtherIDs(n)
  {
    if n > 0 {
      OthersCount(n - 1);
      OtherIsNew(n - 1);
    }
  }

  lemma PoolsCount(cfg: Config, size: string, n: nat)
    ensures |PoolsWithOthers(cfg, size, n)| == n + 1
  {
    OthersCount(n);
    assert PoolsWithOthers(cfg, size, n).Keys == OtherIDs(n) + {"p"};
    assert |PoolsWithOthers(cfg, size, n)| == |PoolsWithOthers(cfg, size, n).Keys|;
  }

  lemma PutsOther(cfg: Config, size: string, n: nat)
    ensures Put(WithOthers(cfg, size, n).w.cloud, Bare(OtherID(n))) == WithOthers(cfg, size, n + 1).w.cloud
  {
    OtherIsNew(n);
    assert PoolsWithOthers(cfg, size, n + 1) == PoolsWithOthers(cfg, size, n)[OtherID(n) := Bare(OtherID(n))];
    assert Settle(map["d" := "p"], Bare(OtherID(n))) == map["d" := "p"];
  }

  lemma OnlyMadeIsTagged(cfg: Config, size: string, n: nat)
    ensures Tagged(WithOthers(cfg, size, n).w.cloud) == {"p"}
  {
    assert Managed(MadePool(cfg, size, [READY]));
  }

  lemma OtherAppears(cfg: Config, size: string, n: nat)
    ensures var e := PutByHand(Bare(OtherID(n)));
      && Enabled(cfg, WithOthers(cfg, size, n), e)
      && Next(cfg, WithOthers(cfg, size, n), e) == WithOthers(cfg, size, n + 1)
  {
    PutsOther(cfg, size, n);
    OtherIsNew(n);
    OnlyMadeIsTagged(cfg, size, n + 1);
  }

  lemma TaintsStay(cfg: Config, size: string)
    ensures var pools := map["p" := MadePool(cfg, size, [READY])];
      var s := At(pools, map["d" := "p"], ClearingTaints("p", MadeInstance(cfg, size)), GcIdle);
      var e := CreateStep(0, TaintsCall("p", false));
      && Enabled(cfg, s, e)
      && Next(cfg, s, e) == At(pools, map["d" := "p"], Created(MadeInstance(cfg, size)), GcIdle)
  {
    assert Tagged(Cloud(map["p" := MadePool(cfg, size, [READY])], {"p"}, map["d" := "p"])) == {"p"};
  }

  lemma RecordingStores(cfg: Config, s: State, size: string)
    requires s == At(map["p" := MadePool(cfg, size, [READY])], map["d" := "p"], Created(MadeInstance(cfg, size)), GcIdle)
    ensures Enabled(cfg, s, CreateRecorded(0)) && StoredBy(cfg, s, CreateRecorded(0)) == Some(RecordedClaim(cfg, size))
    ensures CreatesAfter(cfg, s, CreateRecorded(0)) == map[]
  {
  }

  lemma ClaimIsRecorded(cfg: Config, size: string)
    ensures var s := At(map["p" := MadePool(cfg, size, [READY])], map["d" := "p"], Created(MadeInstance(cfg, size)), GcIdle);
      Enabled(cfg, s, CreateRecorded(0)) && Next(cfg, s, CreateRecorded(0)) == WithOthers(cfg, size, 0)
  {
    var s := At(map["p" := MadePool(cfg, size, [READY])], map["d" := "p"], Created(MadeInstance(cfg, size)), GcIdle);
    RecordingStores(cfg, s, size);
    assert WorldAfter(s.w, CreateRecorded(0)) == WithOthers(cfg, size, 0).w by {
      assert OtherIDs(0) == {};
      assert PoolsWithOthers(cfg, size, 0) == map["p" := MadePool(cfg, size, [READY])];
      OnlyMadeIsTagged(cfg, size, 0);
    }
    assert RecordedClaim(cfg, size).name == "a";
  }

  lemma {:induction false} UpToOthers(cfg: Config, size: string, n: nat) returns (r: Run)
    ensures Behaves(cfg, r) && Last(r) == WithOthers(cfg, size, n)
  {
    if n == 0 {
      var pools, homes := map["p" := MadePool(cfg, size, [READY])], map["d" := "p"];
      r := UpToReady(cfg, size);
      TaintsStay(cfg, size);
      r := Step(cfg, r, CreateStep(0, TaintsCall("p", false)), At(pools, homes, Created(MadeInstance(cfg, size)), GcIdle));
      ClaimIsRecorded(cfg, size);
      r := Step(cfg, r, CreateRecorded(0), WithOthers(cfg, size, 0));
    } else {
      r := UpToOthers(cfg, size, n - 1);
      OtherAppears(cfg, size, n - 1);
      r := Step(cfg, r, PutByHand(Bare(OtherID(n - 1))), WithOthers(cfg, size, n));
    }
  }

  // With 200 further pools a listing may miss the claim's pool: then Delete by provider
  // ID reports success and leaves a pool that Delete by annotation would remove.
  lemma DeleteCanMissItsPool(cfg: Config, size: string) returns (r: Run, c: NodeClaim, page: seq<Pool>)
    ensures Behaves(cfg, r) && c in Last(r).versions && Tied(Last(r).w, c)
    ensures |Last(r).w.cloud.pools| == PAGE_SIZE + 1 && IsPage(page, Last(r).w.cloud.pools)
    ensures PoolAnnotation(c) in Tagged(Last(r).w.cloud) && !PathsAgree(cfg, Last(r), c, page)
  {
    r := UpToOthers(cfg, size, PAGE_SIZE);
    c := RecordedClaim(cfg, size);
    PoolsCount(cfg, size, PAGE_SIZE);
    OnlyMadeIsTagged(cfg, size, PAGE_SIZE);
    Invariant(cfg, r, |r.states| - 1);
    page := PageMissing(Last(r).w.cloud, "p");
    DeletePathsAgree(cfg, Last(r), c, page);
  }

  // ---- A recorded pool that lost its tag ----

  function Untagged(cfg: Config, size: string): State {
    var pool := MadePool(cfg, size, [READY]).(tags := []);
    WithOthers(cfg, size, 0).(w := World(Cloud(map["p" := pool], {"p"}, map["d" := "p"]), {"p"}, {"p"}))
  }

  lemma TagOfMadeIsTakenOff(cfg: Config, size: string)
    ensures var e := Retagged("p", []);
      Enabled(cfg, WithOthers(cfg, size, 0), e) && Next(cfg, WithOthers(cfg, size, 0), e) == Untagged(cfg, size)
  {
    assert OtherIDs(0) == {};
    assert WithOthers(cfg, size, 0).w.cloud.pools["p" := MadePool(cfg, size, [READY]).(tags := [])] ==
           Untagged(cfg, size).w.cloud.pools;
    assert Tagged(Untagged(cfg, size).w.cloud) == {};
  }

  lemma DeleteByAnnotationStarts(cfg: Config, size: string)
    ensures var e := DeleteStarted(0, RecordedClaim(cfg, size));
      && Enabled(cfg, Untagged(cfg, size), e)
      && Next(cfg, Untagged(cfg, size), e) == Untagged(cfg, size).(deletes := map[0 := Removing("p")])
  {
    assert StartDelete(RecordedClaim(cfg, size)) == Removing("p");
    assert Tagged(Untagged(cfg, size).w.cloud) == {};
  }

  lemma DeleteByAnnotationGoesOn(cfg: Config, s: State)
    requires s.deletes == map[0 := Removing("p")] && "p" in s.w.cloud.pools
    ensures Enabled(cfg, s, DeleteStep(0, DeleteCall("p", Deleted)))
  {
  }

  // Delete by annotation never looks at the tag: a pool that lost it is deleted.
  lemma UntaggedPoolCanBeDeletedByAnnotation(cfg: Config, size: string) returns (r: Run)
    ensures Behaves(cfg, r) && "p" in Last(r).w.cloud.pools && !Managed(Last(r).w.cloud.pools["p"])
    ensures Enabled(cfg, Last(r), DeleteStep(0, DeleteCall("p", Deleted)))
  {
    r := UpToOthers(cfg, size, 0);
    TagOfMadeIsTakenOff(cfg, size);
    r := Step(cfg, r, Retagged("p", []), Untagged(cfg, size));
    DeleteByAnnotationStarts(cfg, size);
    r := Step(cfg, r, DeleteStarted(0, RecordedClaim(cfg, size)), Untagged(cfg, size).(deletes := map[0 := Removing("p")]));
    DeleteByAnnotationGoesOn(cfg, Last(r));
  }
}
