// Runs of the lifecycle, and the invariant that holds all along every one of them.
module Runs {
  import opened Lifecycle

  datatype Run = Run(states: seq<State>, events: seq<Event>)

  ghost predicate StepAt(cfg: Config, r: Run, i: nat)
    requires |r.states| == |r.events| + 1
  {
    i < |r.events| ==> Enabled(cfg, r.states[i], r.events[i]) && r.states[i + 1] == Next(cfg, r.states[i], r.events[i])
  }

  ghost predicate Behaves(cfg: Config, r: Run) {
    && |r.states| == |r.events| + 1
    && r.states[0] == INIT
    && forall i: nat :: StepAt(cfg, r, i)
  }

  lemma {:induction false} Invariant(cfg: Config, r: Run, i: nat)
    requires Behaves(cfg, r) && i < |r.states|
    ensures Inv(cfg, r.states[i])
  {
    if i > 0 {
      Invariant(cfg, r, i - 1);
      assert StepAt(cfg, r, i - 1);
      InvStep(cfg, r.states[i - 1], r.events[i - 1]);
    }
  }

  lemma LaterOn(w: World, t: World, u: World)
    requires Later(w, t) && Later(t, u)
    ensures Later(w, u)
  {
  }

  lemma StepKeepsPast(cfg: Config, r: Run, i: nat)
    requires Behaves(cfg, r) && i < |r.events|
    ensures Later(r.states[i].w, r.states[i + 1].w)
  {
    Invariant(cfg, r, i);
    assert StepAt(cfg, r, i);
    InvStep(cfg, r.states[i], r.events[i]);
  }

  lemma {:induction false} PastKept(cfg: Config, r: Run, i: nat, j: nat)
    requires Behaves(cfg, r) && i <= j < |r.states|
    ensures Later(r.states[i].w, r.states[j].w)
    decreases j
  {
    if i < j {
      PastKept(cfg, r, i, j - 1);
      StepKeepsPast(cfg, r, j - 1);
      LaterOn(r.states[i].w, r.states[j - 1].w, r.states[j].w);
    }
  }
}
