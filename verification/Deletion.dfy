// A Delete call of the cloud provider from first to last: its calls, what they leave, and
// what repeating it does.
module Deletion {
  import opened Wrappers
  import Seqs
  import opened Doks
  import opened Instances
  import opened Claims
  import InstanceProvider

  function DeleteRun(region: string, phase: DeletePhase, calls: seq<Call>): Option<DeletePhase>
    decreases |calls|
  {
    if calls == [] then Some(phase)
    else
      var next := AdvanceDelete(region, phase, calls[0]);
      if next.None? then None else DeleteRun(region, next.value, calls[1..])
  }

  function EffectAll(c: Cloud, calls: seq<Call>): Cloud
    decreases |calls|
  {
    if calls == [] then c else EffectAll(Effect(c, calls[0]), calls[1..])
  }

  // The cloud, changing as it goes, may give all these replies one after the other.
  ghost predicate MayReplyAll(c: Cloud, calls: seq<Call>)
    decreases |calls|
  {
    calls == [] || (MayReply(c, calls[0]) && MayReplyAll(Effect(c, calls[0]), calls[1..]))
  }

  // A finished Delete call: its calls went through the phases to this outcome, and the
  // cloud is what those calls made of it.
  ghost predicate DeleteOutcome(region: string, claim: NodeClaim, c: Cloud, log: seq<Call>, calls: seq<Call>,
                                t: Cloud, log': seq<Call>, failure: Option<Error>)
  {
    && log' == log + calls && t == EffectAll(c, calls) && MayReplyAll(c, calls)
    && DeleteRun(region, StartDelete(claim), calls) == Some(DeleteDone(failure))
  }

  lemma UnparsedOutcome(region: string, claim: NodeClaim, c: Cloud, log: seq<Call>)
    requires PoolAnnotation(claim) == "" && ParseProviderID(claim.providerID).Err?
    ensures DeleteOutcome(region, claim, c, log, [], c, log, Some(ParseProviderID(claim.providerID).error))
  {
  }

  lemma AnnotatedOutcome(region: string, claim: NodeClaim, c: Cloud, log: seq<Call>, reply: DeleteReply,
                         t: Cloud, log': seq<Call>, failure: Option<Error>)
    requires PoolAnnotation(claim) != ""
    requires InstanceProvider.Removed(c, log, PoolAnnotation(claim), reply, t, log', failure)
    ensures DeleteOutcome(region, claim, c, log, [DeleteCall(PoolAnnotation(claim), reply)], t, log', failure)
  {
  }

  lemma MissedOutcome(region: string, claim: NodeClaim, page: Option<seq<Pool>>, c: Cloud, log: seq<Call>)
    requires PoolAnnotation(claim) == "" && ParseProviderID(claim.providerID).Ok?
    requires InstanceProvider.Answer(page, ParseProviderID(claim.providerID).value, region).Err?
    requires MayReply(c, ListCall(page))
    ensures var error := InstanceProvider.Answer(page, ParseProviderID(claim.providerID).value, region).error;
      DeleteOutcome(region, claim, c, log, [ListCall(page)], c, log + [ListCall(page)],
                    if error == NodeClaimNotFound then None else Some(error))
  {
  }

  lemma FoundOutcome(region: string, claim: NodeClaim, page: Option<seq<Pool>>, c: Cloud, log: seq<Call>, reply: DeleteReply,
                     t: Cloud, log': seq<Call>, failure: Option<Error>)
    requires PoolAnnotation(claim) == "" && ParseProviderID(claim.providerID).Ok?
    requires MayReply(c, ListCall(page))
    requires var found := InstanceProvider.Answer(page, ParseProviderID(claim.providerID).value, region);
      found.Ok? && InstanceProvider.Removed(c, log + [ListCall(page)], found.value.nodePoolID, reply, t, log', failure)
    ensures var id := InstanceProvider.Answer(page, ParseProviderID(claim.providerID).value, region).value.nodePoolID;
      DeleteOutcome(region, claim, c, log, [ListCall(page), DeleteCall(id, reply)], t, log', failure)
  {
    var id := InstanceProvider.Answer(page, ParseProviderID(claim.providerID).value, region).value.nodePoolID;
    var list, delete := ListCall(page), DeleteCall(id, reply);
    assert [list, delete][1..] == [delete] && [delete][1..] == [];
    assert EffectAll(c, [list, delete]) == EffectAll(c, [delete]) == EffectAll(t, []);
    assert AdvanceDelete(region, StartDelete(claim), list) == Some(Removing(id));
    assert DeleteRun(region, Removing(id), [delete]) == Some(DeleteDone(failure));
    assert log + [list] + [delete] == log + [list, delete];
  }

  // ---- What a finished call must have done ----

  lemma DoneEnds(region: string, failure: Option<Error>, calls: seq<Call>, end: DeletePhase)
    requires DeleteRun(region, DeleteDone(failure), calls) == Some(end)
    ensures calls == [] && end == DeleteDone(failure)
  {
  }

  // Once the pool is known there is one request, and it decides everything.
  lemma RemovingRun(region: string, id: string, c: Cloud, calls: seq<Call>, failure: Option<Error>)
    requires DeleteRun(region, Removing(id), calls) == Some(DeleteDone(failure)) && MayReplyAll(c, calls)
    ensures |calls| == 1 && calls[0].DeleteCall? && calls[0].id == id && MayReply(c, calls[0])
    ensures failure == if calls[0].reply.DeleteError? then Some(DeleteFailed) else None
    ensures EffectAll(c, calls) == Effect(c, calls[0])
    ensures EffectAll(c, calls).pools == if failure.None? then c.pools - {id} else c.pools
  {
    DoneEnds(region, if calls[0].reply.DeleteError? then Some(DeleteFailed) else None, calls[1..], DeleteDone(failure));
    assert EffectAll(c, calls) == EffectAll(Effect(c, calls[0]), []);
    if calls[0].reply.NotFound? {
      assert c.pools - {id} == c.pools;
    }
  }

  // By provider ID there is a listing first; without a hit the call ends there.
  lemma LookingRun(region: string, d: string, c: Cloud, calls: seq<Call>, failure: Option<Error>)
    requires DeleteRun(region, LookingUp(d), calls) == Some(DeleteDone(failure)) && MayReplyAll(c, calls)
    ensures |calls| > 0 && calls[0].ListCall? && MayReply(c, calls[0])
    ensures calls[0].page.None? ==> |calls| == 1 && failure == Some(ApiFailed) && EffectAll(c, calls) == c
    ensures calls[0].page.Some? ==>
      var found := FindInstance(ManagedPools(calls[0].page.value), d, region);
      && (found.None? ==> |calls| == 1 && failure == None && EffectAll(c, calls) == c)
      && (found.Some? ==>
            && |calls| == 2 && calls[1].DeleteCall?
            && failure == (if calls[1].reply.DeleteError? then Some(DeleteFailed) else None)
            && (failure.None? ==> EffectAll(c, calls).pools == c.pools - {found.value.nodePoolID}))
  {
    var next := AdvanceDelete(region, LookingUp(d), calls[0]).value;
    assert EffectAll(c, calls) == EffectAll(c, calls[1..]);
    match next {
      case DeleteDone(f) => DoneEnds(region, f, calls[1..], DeleteDone(failure));
      case Removing(id) => RemovingRun(region, id, c, calls[1..], failure);
    }
  }

  // ---- Where a claim leads ----

  // The tagged pools with a node of this droplet ID.
  ghost function Matches(c: Cloud, d: string): set<string> {
    set id | id in c.pools && Managed(c.pools[id]) && HasDroplet(c.pools[id], d)
  }

  // The claim leads somewhere: by annotation, or by a provider ID that can be parsed.
  predicate Leads(claim: NodeClaim) {
    PoolAnnotation(claim) != "" || ParseProviderID(claim.providerID).Ok?
  }

  // The pool the claim leads to is gone.
  ghost predicate AlreadyGone(claim: NodeClaim, c: Cloud)
    requires Leads(claim)
  {
    if PoolAnnotation(claim) != "" then PoolAnnotation(claim) !in c.pools
    else Matches(c, ParseProviderID(claim.providerID).value) == {}
  }

  lemma FoundOnPage(c: Cloud, page: seq<Pool>, d: string, region: string)
    requires IsPage(page, c.pools) && FindInstance(ManagedPools(page), d, region).Some?
    ensures FindInstance(ManagedPools(page), d, region).value.nodePoolID in Matches(c, d) * PageIDs(page)
  {
    FindExact(ManagedPools(page), d, region);
    var p, node :| p in ManagedPools(page) && node in p.nodes && node.dropletID == d &&
      FindInstance(ManagedPools(page), d, region).value == NodeToInstance(p, node, region);
    assert HasDroplet(p, d);
  }

  lemma ShownIsFound(c: Cloud, page: seq<Pool>, d: string, region: string, id: string)
    requires IsPage(page, c.pools) && id in Matches(c, d) && id in PageIDs(page)
    ensures FindInstance(ManagedPools(page), d, region).Some?
  {
    FindExact(ManagedPools(page), d, region);
    Seqs.FilterKeeps((q: Pool) => Managed(q), page, c.pools[id]);
  }

  // A lookup finds one of the tagged pools with the droplet ID, if the page shows any.
  lemma FoundMatches(c: Cloud, page: seq<Pool>, d: string, region: string)
    requires IsPage(page, c.pools)
    ensures var found := FindInstance(ManagedPools(page), d, region);
      && (found.None? <==> forall id :: id in Matches(c, d) ==> id !in PageIDs(page))
      && (found.Some? ==> found.value.nodePoolID in Matches(c, d) * PageIDs(page))
  {
    if FindInstance(ManagedPools(page), d, region).Some? {
      FoundOnPage(c, page, d, region);
    }
    forall id | id in Matches(c, d) && id in PageIDs(page) ensures FindInstance(ManagedPools(page), d, region).Some? {
      ShownIsFound(c, page, d, region, id);
    }
  }

  predicate Explains(calls: seq<Call>, failure: Option<Error>) {
    && calls != []
    && var last := calls[|calls| - 1];
       match failure
       case None => calls[0] != ListCall(None) && !(last.DeleteCall? && last.reply.DeleteError?)
       case Some(e) =>
         if e == ApiFailed then calls == [ListCall(None)] else e == DeleteFailed && last.DeleteCall? && last.reply.DeleteError?
  }

  lemma RemovingFails(region: string, id: string, c: Cloud, calls: seq<Call>, failure: Option<Error>)
    requires DeleteRun(region, Removing(id), calls) == Some(DeleteDone(failure)) && MayReplyAll(c, calls)
    ensures Explains(calls, failure)
  {
    RemovingRun(region, id, c, calls, failure);
  }

  lemma LookingFails(region: string, d: string, c: Cloud, calls: seq<Call>, failure: Option<Error>)
    requires DeleteRun(region, LookingUp(d), calls) == Some(DeleteDone(failure)) && MayReplyAll(c, calls)
    ensures Explains(calls, failure)
  {
    LookingRun(region, d, c, calls, failure);
  }

  // Why a Delete fails, and that it fails for no other reason: the claim leads nowhere,
  // the listing failed, or the one deletion asked for failed. A pool not found is a success.
  lemma DeleteFailsExactly(region: string, claim: NodeClaim, c: Cloud, log: seq<Call>, calls: seq<Call>,
                           t: Cloud, log': seq<Call>, failure: Option<Error>)
    requires DeleteOutcome(region, claim, c, log, calls, t, log', failure)
    ensures !Leads(claim) ==> calls == [] && failure == Some(ParseProviderID(claim.providerID).error)
    ensures PoolAnnotation(claim) != "" ==> |calls| == 1 && calls[0].DeleteCall? && calls[0].id == PoolAnnotation(claim)
    ensures Leads(claim) ==> Explains(calls, failure)
  {
    if PoolAnnotation(claim) != "" {
      RemovingRun(region, PoolAnnotation(claim), c, calls, failure);
      RemovingFails(region, PoolAnnotation(claim), c, calls, failure);
    } else if Leads(claim) {
      LookingFails(region, ParseProviderID(claim.providerID).value, c, calls, failure);
    } else {
      DoneEnds(region, Some(ParseProviderID(claim.providerID).error), calls, DeleteDone(failure));
    }
  }

  // ---- Deleting again ----

  lemma RemovingAgain(region: string, id: string, c: Cloud, calls: seq<Call>, failure: Option<Error>)
    requires DeleteRun(region, Removing(id), calls) == Some(DeleteDone(failure)) && MayReplyAll(c, calls) && id !in c.pools
    ensures EffectAll(c, calls).pools == c.pools && |calls| == 1
    ensures failure.Some? <==> calls[0] == DeleteCall(id, DeleteError)
    ensures calls[0] != ListCall(None)
  {
    RemovingRun(region, id, c, calls, failure);
    assert c.pools - {id} == c.pools;
  }

  lemma LookingAgain(region: string, d: string, c: Cloud, calls: seq<Call>, failure: Option<Error>)
    requires DeleteRun(region, LookingUp(d), calls) == Some(DeleteDone(failure)) && MayReplyAll(c, calls) && Matches(c, d) == {}
    ensures EffectAll(c, calls) == c && |calls| == 1 && calls[0].ListCall?
    ensures failure.Some? <==> calls[0] == ListCall(None)
  {
    LookingRun(region, d, c, calls, failure);
    if calls[0].page.Some? {
      FoundMatches(c, calls[0].page.value, d, region);
    }
  }

  // When the pool is gone, deleting changes nothing, and succeeds unless the one
  // request it makes fails.
  lemma DeletingAgainChangesNothing(region: string, claim: NodeClaim, c: Cloud, log: seq<Call>, calls: seq<Call>,
                                    t: Cloud, log': seq<Call>, failure: Option<Error>)
    requires DeleteOutcome(region, claim, c, log, calls, t, log', failure) && Leads(claim) && AlreadyGone(claim, c)
    ensures t.pools == c.pools && |calls| == 1
    ensures failure.Some? <==> calls[0] == ListCall(None) || calls[0] == DeleteCall(PoolAnnotation(claim), DeleteError)
  {
    if PoolAnnotation(claim) != "" {
      RemovingAgain(region, PoolAnnotation(claim), c, calls, failure);
    } else {
      LookingAgain(region, ParseProviderID(claim.providerID).value, c, calls, failure);
    }
  }

  // A single pool has the droplet ID, and the page shows it; or none has it.
  ghost predicate Singled(c: Cloud, page: seq<Pool>, d: string) {
    forall id :: id in Matches(c, d) ==> id in PageIDs(page) && Matches(c, d) == {id}
  }

  lemma SingledOut(matches: set<string>, shown: set<string>, found: Option<string>)
    requires found.None? <==> forall id :: id in matches ==> id !in shown
    requires found.Some? ==> found.value in matches * shown
    ensures (if found.None? then matches else matches - {found.value}) == {}
      <==> forall id :: id in matches ==> id in shown && matches == {id}
  {
    if found.Some? && matches - {found.value} == {} {
      assert matches == {found.value};
    }
  }

  lemma MatchesWithout(c: Cloud, t: Cloud, d: string, id: string)
    requires t.pools == c.pools - {id}
    ensures Matches(t, d) == Matches(c, d) - {id}
  {
  }

  lemma RemovalLeavesNone(c: Cloud, t: Cloud, page: seq<Pool>, d: string, region: string)
    requires IsPage(page, c.pools)
    requires var found := FindInstance(ManagedPools(page), d, region);
      t.pools == if found.None? then c.pools else c.pools - {found.value.nodePoolID}
    ensures Matches(t, d) == {} <==> Singled(c, page, d)
  {
    var found := FindInstance(ManagedPools(page), d, region);
    var id := if found.None? then None else Some(found.value.nodePoolID);
    FoundMatches(c, page, d, region);
    if id.Some? {
      MatchesWithout(c, t, d, id.value);
    }
    SingledOut(Matches(c, d), PageIDs(page), id);
  }

  // What a successful Delete leaves. By annotation the pool is gone; by provider ID
  // exactly if a single tagged pool had the droplet ID and was listed, or none had it.
  lemma SuccessLeavesGone(region: string, claim: NodeClaim, c: Cloud, log: seq<Call>, calls: seq<Call>, t: Cloud, log': seq<Call>)
    requires DeleteOutcome(region, claim, c, log, calls, t, log', None) && WellFormed(c) && Leads(claim)
    ensures PoolAnnotation(claim) == "" ==> |calls| > 0 && calls[0].ListCall? && calls[0].page.Some?
    ensures AlreadyGone(claim, t) <==>
      PoolAnnotation(claim) != "" || Singled(c, calls[0].page.value, ParseProviderID(claim.providerID).value)
  {
    if PoolAnnotation(claim) != "" {
      RemovingRun(region, PoolAnnotation(claim), c, calls, None);
    } else {
      var d := ParseProviderID(claim.providerID).value;
      LookingRun(region, d, c, calls, None);
      RemovalLeavesNone(c, t, calls[0].page.value, d, region);
    }
  }

  lemma OneHome(c: Cloud, d: string, id: string)
    requires WellFormed(c) && ValidDropletID(d) && id in Matches(c, d)
    ensures d in c.homes && c.homes[d] == id
  {
    var node :| node in c.pools[id].nodes && node.dropletID == d;
    assert d in Droplets(c.pools[id].nodes);
  }

  // A droplet that exists belongs to one pool; with at most one page that pool is listed.
  lemma RealDropletIsSingled(c: Cloud, page: seq<Pool>, d: string)
    requires WellFormed(c) && IsPage(page, c.pools) && ValidDropletID(d) && |c.pools| <= PAGE_SIZE
    ensures Singled(c, page, d)
  {
    forall id | id in Matches(c, d) ensures id in PageIDs(page) && Matches(c, d) == {id} {
      PageIsComplete(page, c, id);
      assert c.pools[id].id == id;
      OneHome(c, d, id);
      forall other | other in Matches(c, d) ensures other == id {
        OneHome(c, d, other);
      }
    }
  }

  ghost predicate CertainlySingled(c: Cloud, calls: seq<Call>, d: string) {
    || (ValidDropletID(d) && |c.pools| <= PAGE_SIZE)
    || (calls != [] && calls[0].ListCall? && calls[0].page.Some? && Singled(c, calls[0].page.value, d))
  }

  // A Delete that succeeded, repeated: one request, no change, success unless that
  // request fails. By provider ID this needs a single pool with the droplet ID, listed;
  // a droplet that exists, with at most one page of pools, is enough.
  lemma DeletingTwice(region: string, claim: NodeClaim, c: Cloud, log: seq<Call>, calls: seq<Call>, t: Cloud, log': seq<Call>,
                      again: seq<Call>, u: Cloud, log'': seq<Call>, failure: Option<Error>)
    requires WellFormed(c) && Leads(claim) && DeleteOutcome(region, claim, c, log, calls, t, log', None)
    requires PoolAnnotation(claim) != "" || CertainlySingled(c, calls, ParseProviderID(claim.providerID).value)
    requires DeleteOutcome(region, claim, t, log', again, u, log'', failure)
    ensures u.pools == t.pools && |again| == 1
    ensures failure.Some? <==> again[0] == ListCall(None) || again[0] == DeleteCall(PoolAnnotation(claim), DeleteError)
  {
    SuccessLeavesGone(region, claim, c, log, calls, t, log');
    if PoolAnnotation(claim) == "" && |c.pools| <= PAGE_SIZE && ValidDropletID(ParseProviderID(claim.providerID).value) {
      RealDropletIsSingled(c, calls[0].page.value, ParseProviderID(claim.providerID).value);
    }
    DeletingAgainChangesNothing(region, claim, t, log', again, u, log'', failure);
  }

  // While the claim still leads to a pool, some further Delete succeeds and removes one.
  lemma FurtherDelete(region: string, claim: NodeClaim, c: Cloud, log: seq<Call>) returns (calls: seq<Call>, t: Cloud, log': seq<Call>)
    requires WellFormed(c) && Leads(claim) && !AlreadyGone(claim, c)
    ensures DeleteOutcome(region, claim, c, log, calls, t, log', None) && t.pools != c.pools
  {
    if PoolAnnotation(claim) != "" {
      var call := DeleteCall(PoolAnnotation(claim), Deleted);
      calls, t, log' := [call], Effect(c, call), log + [call];
      AnnotatedOutcome(region, claim, c, log, Deleted, t, log', None);
      assert call.id !in t.pools;
    } else {
      var d := ParseProviderID(claim.providerID).value;
      var id :| id in Matches(c, d);
      var page := PageShowing(c, id);
      FoundMatches(c, page, d, region);
      var call := DeleteCall(FindInstance(ManagedPools(page), d, region).value.nodePoolID, Deleted);
      calls, t, log' := [ListCall(Some(page)), call], Effect(c, call), log + [ListCall(Some(page))] + [call];
      FoundOutcome(region, claim, Some(page), c, log, Deleted, t, log', None);
      assert call.id in c.pools && call.id !in t.pools;
    }
  }

  // In short: a further Delete never changes anything exactly if the claim's pool is gone.
  lemma RepeatableExactly(region: string, claim: NodeClaim, c: Cloud, log: seq<Call>)
    requires WellFormed(c) && Leads(claim)
    ensures AlreadyGone(claim, c) <==>
      forall calls, t, log', failure :: DeleteOutcome(region, claim, c, log, calls, t, log', failure) ==> t.pools == c.pools
  {
    if AlreadyGone(claim, c) {
      forall calls, t, log', failure | DeleteOutcome(region, claim, c, log, calls, t, log', failure) ensures t.pools == c.pools {
        DeletingAgainChangesNothing(region, claim, c, log, calls, t, log', failure);
      }
    } else {
      var calls, t, log' := FurtherDelete(region, claim, c, log);
    }
  }

  // Two tagged pools that wait for their droplets, and a claim with droplet "0": one
  // Delete succeeds and removes one, a second one succeeds and removes the other.
  const WAITING := [Node("0", "a", None, 0)]
  const ZERO := NodeClaim("a", "default", [], map[], map[], PROVIDER_ID_PREFIX + "0")

  function Waiting(id: string): Pool {
    Pool(id, "", "", 1, [TAG_MANAGED_BY], map[], [], WAITING)
  }

  lemma {:induction false} AllKept(pools: seq<Pool>)
    requires forall p :: p in pools ==> Managed(p)
    ensures ManagedPools(pools) == pools
    decreases |pools|
  {
    if pools != [] {
      AllKept(pools[..|pools| - 1]);
    }
  }

  lemma WaitingFound(pools: seq<Pool>, id: string, region: string)
    requires pools != [] && pools[0] == Waiting(id) && forall p :: p in pools ==> Managed(p)
    ensures InstanceProvider.Answer(Some(pools), "0", region) == Ok(NodeToInstance(Waiting(id), WAITING[0], region))
  {
    AllKept(pools);
  }

  lemma RemoveWaiting(region: string, c: Cloud, log: seq<Call>, page: seq<Pool>, id: string) returns (calls: seq<Call>, t: Cloud, log': seq<Call>)
    requires WellFormed(c) && IsPage(page, c.pools) && page != [] && page[0] == Waiting(id) && forall p :: p in page ==> Managed(p)
    ensures DeleteOutcome(region, ZERO, c, log, calls, t, log', None) && t.pools == c.pools - {id} && WellFormed(t)
  {
    ParseInvertsProviderID(ZERO.providerID, "0");
    WaitingFound(page, id, region);
    var call := DeleteCall(id, Deleted);
    calls, t, log' := [ListCall(Some(page)), call], Effect(c, call), log + [ListCall(Some(page))] + [call];
    EffectKeepsWellFormed(c, call);
    FoundOutcome(region, ZERO, Some(page), c, log, Deleted, t, log', None);
  }

  lemma WaitingPages()
    ensures IsPage([Waiting("p"), Waiting("q")], map["p" := Waiting("p"), "q" := Waiting("q")])
    ensures IsPage([Waiting("q")], map["q" := Waiting("q")])
  {
    var two, one := map["p" := Waiting("p"), "q" := Waiting("q")], map["q" := Waiting("q")];
    assert |two| == |two.Keys| && two.Keys == {"p", "q"} && |one| == |one.Keys| && one.Keys == {"q"};
  }

  lemma ZeroTakesAnother(region: string)
    returns (c: Cloud, calls: seq<Call>, t: Cloud, log': seq<Call>, again: seq<Call>, u: Cloud, log'': seq<Call>)
    ensures WellFormed(c) && c.pools == map["p" := Waiting("p"), "q" := Waiting("q")]
    ensures DeleteOutcome(region, ZERO, c, [], calls, t, log', None) && t.pools == map["q" := Waiting("q")]
    ensures DeleteOutcome(region, ZERO, t, log', again, u, log'', None) && u.pools == map[]
  {
    c := Cloud(map["p" := Waiting("p"), "q" := Waiting("q")], {"p", "q"}, map[]);
    WaitingPages();
    calls, t, log' := RemoveWaiting(region, c, [], [Waiting("p"), Waiting("q")], "p");
    assert t.pools == map["q" := Waiting("q")];
    again, u, log'' := RemoveWaiting(region, t, log', [Waiting("q")], "q");
  }
}
