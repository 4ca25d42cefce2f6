// Every pool Create made is in somebody's hands until a step of a known kind drops it.
module Ownership {
  import opened Wrappers
  import opened Doks
  import opened Instances
  import opened Claims
  import opened Lifecycle
  import opened Runs
  import opened Tags

  // Who answers for a pool: a running Create, or the claim of that name.
  datatype Keeper = ByCreate(k: nat) | ByClaim(name: string)

  predicate Keeps(s: State, a: Keeper, id: string) {
    match a
    case ByCreate(k) => k in s.creates && Holds(s.creates[k].phase) == Some(id)
    case ByClaim(name) => id != "" && name in s.claims && PoolAnnotation(s.claims[name]) == id
  }

  ghost predicate Kept(s: State, id: string) {
    exists a :: Keeps(s, a, id)
  }

  ghost predicate AtMostOne(s: State) {
    forall a, b, id :: Keeps(s, a, id) && Keeps(s, b, id) ==> a == b
  }

  // The ways a pool can lose its keeper: cleanup fails, the process dies, the claim goes
  // away, or another Create for the same claim is recorded over it.
  predicate Strands(s: State, e: Event, id: string) {
    match e
    case CreateStep(_, call) => call == DeleteCall(id, DeleteError)
    case CreateAbandoned(k) => Keeps(s, ByCreate(k), id)
    case CreateRecorded(k) => k in s.creates && Keeps(s, ByClaim(s.creates[k].claim.name), id)
    case ClaimRemoved(name) => Keeps(s, ByClaim(name), id)
    case _ => false
  }

  // Recording hands a pool from a Create to its claim; otherwise keepers stay who they are.
  function Before(s: State, e: Event, a: Keeper): Keeper {
    if e.CreateRecorded? && e.k in s.creates && a == ByClaim(s.creates[e.k].claim.name) then ByCreate(e.k) else a
  }

  function Afterwards(s: State, e: Event, a: Keeper): Keeper {
    if e.CreateRecorded? && e.k in s.creates && a == ByCreate(e.k) then ByClaim(s.creates[e.k].claim.name) else a
  }

  lemma KeptIsMade(cfg: Config, s: State, a: Keeper, id: string)
    requires Inv(cfg, s) && Keeps(s, a, id)
    ensures id in s.w.made
  {
    if a.ByCreate? {
      assert CreateInv(cfg, s.w, s.creates[a.k].phase);
    } else {
      assert s.claims[a.name] in s.versions;
    }
  }

  lemma CreateWas(cfg: Config, s: State, e: Event, k: nat, id: string)
    requires CreatesInv(cfg, s.w, s.versions, s.creates) && WorldInv(s.w) && Enabled(cfg, s, e)
    requires k in CreatesAfter(cfg, s, e) && Holds(CreatesAfter(cfg, s, e)[k].phase) == Some(id)
    ensures !e.CreateRecorded? || e.k != k
    ensures Keeps(s, ByCreate(k), id) || (id !in s.w.made && e.CreateStep? && e.k == k)
  {
    if e.CreateStep? && e.k == k {
      assert CreateInv(cfg, s.w, s.creates[k].phase);
    }
  }

  lemma ClaimWas(cfg: Config, s: State, e: Event, name: string, id: string)
    requires CreatesInv(cfg, s.w, s.versions, s.creates) && ClaimsInv(s) && Enabled(cfg, s, e)
    requires Keeps(Next(cfg, s, e), ByClaim(name), id)
    ensures Keeps(s, Before(s, e, ByClaim(name)), id)
  {
    if e.CreateRecorded? {
      RecordedIsTied(cfg, s.w, s.creates[e.k]);
    } else if e.ClaimRelabelled? {
      assert PoolAnnotation(s.claims[e.name].(labels := e.labels)) == PoolAnnotation(s.claims[e.name]);
    }
  }

  // Whoever keeps a pool after a step, its predecessor kept it before, unless the step
  // made the pool.
  lemma KeeperWas(cfg: Config, s: State, e: Event, a: Keeper, id: string)
    requires Inv(cfg, s) && Enabled(cfg, s, e) && Keeps(Next(cfg, s, e), a, id)
    ensures !e.CreateRecorded? || a != ByCreate(e.k)
    ensures Keeps(s, Before(s, e, a), id) || (id !in s.w.made && e.CreateStep? && a == ByCreate(e.k))
  {
    if a.ByCreate? {
      CreateWas(cfg, s, e, a.k, id);
    } else {
      ClaimWas(cfg, s, e, a.name, id);
    }
  }

  lemma AtMostOneStep(cfg: Config, s: State, e: Event)
    requires Inv(cfg, s) && AtMostOne(s) && Enabled(cfg, s, e)
    ensures AtMostOne(Next(cfg, s, e))
  {
    var t := Next(cfg, s, e);
    forall a, b, id | Keeps(t, a, id) && Keeps(t, b, id) ensures a == b {
      KeeperWas(cfg, s, e, a, id);
      KeeperWas(cfg, s, e, b, id);
      if Keeps(s, Before(s, e, a), id) {
        KeptIsMade(cfg, s, Before(s, e, a), id);
      }
      if Keeps(s, Before(s, e, b), id) {
        KeptIsMade(cfg, s, Before(s, e, b), id);
      }
    }
  }

  lemma AtMostOneStepAt(cfg: Config, r: Run, i: nat)
    requires Behaves(cfg, r) && i < |r.events| && AtMostOne(r.states[i])
    ensures AtMostOne(r.states[i + 1])
  {
    Invariant(cfg, r, i);
    assert StepAt(cfg, r, i);
    AtMostOneStep(cfg, r.states[i], r.events[i]);
  }

  // At every moment of every run at most one Create or claim answers for a pool.
  lemma {:induction false} AtMostOneKeeper(cfg: Config, r: Run, i: nat)
    requires Behaves(cfg, r) && i < |r.states|
    ensures AtMostOne(r.states[i])
  {
    if i > 0 {
      AtMostOneKeeper(cfg, r, i - 1);
      AtMostOneStepAt(cfg, r, i - 1);
    }
  }

  lemma CreateGoesOn(cfg: Config, s: State, e: Event, k: nat, id: string)
    requires CreatesInv(cfg, s.w, s.versions, s.creates) && Enabled(cfg, s, e) && Keeps(s, ByCreate(k), id)
    requires id in CloudAfter(s.w.cloud, e).pools && !Strands(s, e, id) && (!e.CreateRecorded? || e.k != k)
    ensures k in CreatesAfter(cfg, s, e) && Holds(CreatesAfter(cfg, s, e)[k].phase) == Some(id)
  {
    assert CreateInv(cfg, s.w, s.creates[k].phase);
  }

  lemma ClaimGoesOn(cfg: Config, s: State, e: Event, name: string, id: string)
    requires CreatesInv(cfg, s.w, s.versions, s.creates) && ClaimsInv(s) && Enabled(cfg, s, e)
    requires Keeps(s, ByClaim(name), id) && !Strands(s, e, id)
    ensures Keeps(Next(cfg, s, e), ByClaim(name), id)
  {
    if e.CreateRecorded? {
      RecordedIsTied(cfg, s.w, s.creates[e.k]);
    } else if e.ClaimRelabelled? {
      assert PoolAnnotation(s.claims[e.name].(labels := e.labels)) == PoolAnnotation(s.claims[e.name]);
    }
  }

  lemma RecordingHandsOver(cfg: Config, s: State, e: Event, id: string)
    requires CreatesInv(cfg, s.w, s.versions, s.creates) && WorldInv(s.w) && Enabled(cfg, s, e) && e.CreateRecorded?
    requires Keeps(s, ByCreate(e.k), id)
    ensures Keeps(Next(cfg, s, e), ByClaim(s.creates[e.k].claim.name), id)
  {
    assert CreateInv(cfg, s.w, s.creates[e.k].phase);
    RecordedIsTied(cfg, s.w, s.creates[e.k]);
  }

  lemma KeeperGoesOn(cfg: Config, s: State, e: Event, a: Keeper, id: string)
    requires CreatesInv(cfg, s.w, s.versions, s.creates) && WorldInv(s.w) && ClaimsInv(s)
    requires Enabled(cfg, s, e) && Keeps(s, a, id)
    requires id in CloudAfter(s.w.cloud, e).pools && !Strands(s, e, id)
    ensures Keeps(Next(cfg, s, e), Afterwards(s, e, a), id)
  {
    if a.ByClaim? {
      ClaimGoesOn(cfg, s, e, a.name, id);
    } else if e.CreateRecorded? && e.k == a.k {
      RecordingHandsOver(cfg, s, e, id);
    } else {
      CreateGoesOn(cfg, s, e, a.k, id);
    }
  }

  // Whom a stranding step takes the pool from.
  function Loser(s: State, e: Event): Keeper
    requires e.CreateStep? || e.CreateAbandoned? || (e.CreateRecorded? && e.k in s.creates) || e.ClaimRemoved?
  {
    match e
    case CreateRecorded(k) => ByClaim(s.creates[k].claim.name)
    case ClaimRemoved(name) => ByClaim(name)
    case _ => ByCreate(e.k)
  }

  lemma LoserKept(cfg: Config, s: State, e: Event, id: string)
    requires CreatesInv(cfg, s.w, s.versions, s.creates) && Enabled(cfg, s, e) && Strands(s, e, id)
    ensures Keeps(s, Loser(s, e), id)
  {
  }

  lemma LoserLoses(cfg: Config, s: State, e: Event, id: string)
    requires CreatesInv(cfg, s.w, s.versions, s.creates) && Enabled(cfg, s, e) && Strands(s, e, id)
    ensures e.CreateRecorded? || !Keeps(Next(cfg, s, e), Loser(s, e), id)
  {
  }

  // Only a pool that is kept can be stranded, and then nobody keeps it.
  lemma StrandingDrops(cfg: Config, s: State, e: Event, id: string)
    requires Inv(cfg, s) && AtMostOne(s) && Enabled(cfg, s, e) && Strands(s, e, id)
    ensures id in s.w.made && !Kept(Next(cfg, s, e), id)
  {
    var loser := Loser(s, e);
    LoserKept(cfg, s, e, id);
    LoserLoses(cfg, s, e, id);
    KeptIsMade(cfg, s, loser, id);
    if b :| Keeps(Next(cfg, s, e), b, id) {
      KeeperWas(cfg, s, e, b, id);
      assert false;
    }
  }

  lemma NewPoolIsKept(cfg: Config, s: State, e: Event, id: string)
    requires Enabled(cfg, s, e) && id !in s.w.made && id in Next(cfg, s, e).w.made
    ensures Kept(Next(cfg, s, e), id) && id in Next(cfg, s, e).w.cloud.pools
  {
    assert Keeps(Next(cfg, s, e), ByCreate(e.k), id);
  }

  // A step leaves a pool that stays with a keeper exactly if it had one and the step
  // does not strand it.
  lemma KeptStep(cfg: Config, s: State, e: Event, id: string)
    requires Inv(cfg, s) && AtMostOne(s) && Enabled(cfg, s, e)
    requires id in s.w.made && id in CloudAfter(s.w.cloud, e).pools
    ensures Kept(Next(cfg, s, e), id) <==> Kept(s, id) && !Strands(s, e, id)
  {
    if Strands(s, e, id) {
      StrandingDrops(cfg, s, e, id);
    } else if a :| Keeps(s, a, id) {
      KeeperGoesOn(cfg, s, e, a, id);
    }
    if b :| Keeps(Next(cfg, s, e), b, id) {
      KeeperWas(cfg, s, e, b, id);
    }
  }

  predicate Removes(e: Event, id: string) {
    Deletes(e, id) || e == RemovedByHand(id)
  }

  lemma RestRemoves(c: Cloud, e: Event, id: string)
    requires !Adds(e) && !e.Retagged? && (e.DeleteStep? || e.GcStep? ==> !e.call.CreateCall?)
    ensures id in CloudAfter(c, e).pools <==> id in c.pools && !Removes(e, id)
  {
  }

  // A pool handed out before is there after a step exactly if it was and is not removed.
  lemma StaysStep(cfg: Config, s: State, e: Event, id: string)
    requires Inv(cfg, s) && Enabled(cfg, s, e) && id in s.w.cloud.usedIDs
    ensures id in CloudAfter(s.w.cloud, e).pools <==> id in s.w.cloud.pools && !Removes(e, id)
  {
    StepKinds(cfg, s, e);
    if !Adds(e) && !e.Retagged? {
      RestRemoves(s.w.cloud, e, id);
    }
  }

  ghost predicate RemovedBefore(r: Run, i: nat, id: string) {
    exists j :: 0 <= j < i && j < |r.events| && Removes(r.events[j], id)
  }

  ghost predicate StrandedBefore(r: Run, i: nat, id: string)
    requires |r.states| == |r.events| + 1
  {
    exists j :: 0 <= j < i && j < |r.events| && Strands(r.states[j], r.events[j], id)
  }

  lemma BeforeOn(r: Run, i: nat, id: string)
    requires |r.states| == |r.events| + 1 && i < |r.events|
    ensures RemovedBefore(r, i + 1, id) <==> RemovedBefore(r, i, id) || Removes(r.events[i], id)
    ensures StrandedBefore(r, i + 1, id) <==> StrandedBefore(r, i, id) || Strands(r.states[i], r.events[i], id)
  {
  }

  // No step removes or strands a pool before it is made.
  lemma NotTouchedYet(cfg: Config, r: Run, i: nat, id: string)
    requires Behaves(cfg, r) && 0 < i < |r.states| && id in r.states[i].w.made && id !in r.states[i - 1].w.made
    ensures !RemovedBefore(r, i, id) && !StrandedBefore(r, i, id)
  {
    assert id !in r.states[i - 1].w.cloud.usedIDs by {
      Invariant(cfg, r, i - 1);
      assert StepAt(cfg, r, i - 1);
    }
    forall j | 0 <= j < i ensures !Removes(r.events[j], id) && !Strands(r.states[j], r.events[j], id) {
      Invariant(cfg, r, j);
      AtMostOneKeeper(cfg, r, j);
      assert StepAt(cfg, r, j);
      PastKept(cfg, r, j, i - 1);
      if Strands(r.states[j], r.events[j], id) {
        StrandingDrops(cfg, r.states[j], r.events[j], id);
      }
    }
  }

  // At every moment of every run, for every pool Create made: it is gone exactly if
  // a step removed it, and while it is there it has a keeper exactly if no step
  // stranded it.
  lemma {:induction false} NoPoolIsLost(cfg: Config, r: Run, i: nat, id: string)
    requires Behaves(cfg, r) && i < |r.states| && id in r.states[i].w.made
    ensures id !in r.states[i].w.cloud.pools <==> RemovedBefore(r, i, id)
    ensures id in r.states[i].w.cloud.pools ==> (Kept(r.states[i], id) <==> !StrandedBefore(r, i, id))
  {
    var s, e := r.states[i - 1], r.events[i - 1];
    Invariant(cfg, r, i - 1);
    AtMostOneKeeper(cfg, r, i - 1);
    assert StepAt(cfg, r, i - 1);
    if id !in s.w.made {
      NewPoolIsKept(cfg, s, e, id);
      NotTouchedYet(cfg, r, i, id);
    } else {
      NoPoolIsLost(cfg, r, i - 1, id);
      StaysStep(cfg, s, e, id);
      if id in r.states[i].w.cloud.pools {
        KeptStep(cfg, s, e, id);
      }
      BeforeOn(r, i - 1, id);
    }
  }
}
