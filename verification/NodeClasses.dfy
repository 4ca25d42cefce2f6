// The DONodeClass controller: conditions, their transition times, and reconciliation.
module NodeClasses {
  import opened Wrappers
  import Seqs
  import Regions

  const VALID_REGION := "ValidRegion"
  const READY := "Ready"

  datatype Status = True | False | Unknown

  // now is the reading of the clock when the condition was set; since is the
  // transition time the condition carries.
  datatype Setting = Setting(kind: string, status: Status, reason: string, message: string, now: int)
  datatype Condition = Condition(kind: string, status: Status, reason: string, message: string, since: int)

  function Fresh(s: Setting): Condition {
    Condition(s.kind, s.status, s.reason, s.message, s.now)
  }

  // The list after setCondition: the first entry of the kind is replaced, keeping its
  // time if its status stays; without such an entry a new one goes to the end.
  function Set(conditions: seq<Condition>, s: Setting): seq<Condition> {
    if conditions == [] then [Fresh(s)]
    else if conditions[0].kind != s.kind then [conditions[0]] + Set(conditions[1..], s)
    else [Fresh(s).(since := if conditions[0].status != s.status then s.now else conditions[0].since)] + conditions[1..]
  }

  // ---- The controller ----

  class DONodeClass {
    const region: string
    var conditions: seq<Condition>

    constructor (region: string, conditions: seq<Condition>)
      ensures this.region == region && this.conditions == conditions
    {
      this.region, this.conditions := region, conditions;
    }

    method SetCondition(s: Setting)
      modifies this
      ensures conditions == Set(old(conditions), s)
    {
      for i := 0 to |conditions|
        invariant conditions == old(conditions)
        invariant Set(conditions, s) == conditions[..i] + Set(conditions[i..], s)
      {
        var existing := conditions[i];
        if existing.kind == s.kind {
          var since := if existing.status != s.status then s.now else existing.since;
          assert conditions[i..][1..] == conditions[i + 1..];
          conditions := conditions[i := Fresh(s).(since := since)];
          return;
        }
        assert conditions[i..][1..] == conditions[i + 1..];
        assert conditions[..i] + [existing] == conditions[..i + 1];
      }
      assert conditions[..|conditions|] == conditions && conditions[|conditions|..] == [];
      conditions := conditions + [Fresh(s)];
    }
  }

  function InvalidRegion(region: string, now: int): Setting {
    Setting(VALID_REGION, False, "InvalidRegion", "Region \"" + region + "\" is not available", now)
  }

  function RegionMismatch(region: string, clusterRegion: string, now: int): Setting {
    Setting(VALID_REGION, False, "RegionMismatch",
            "DONodeClass region \"" + region + "\" does not match cluster region \"" + clusterRegion + "\"", now)
  }

  function ValidRegion(region: string, now: int): Setting {
    Setting(VALID_REGION, True, "Valid", "Region \"" + region + "\" is valid and matches cluster", now)
  }

  function Ready(now: int): Setting {
    Setting(READY, True, "Ready", "DONodeClass is ready", now)
  }

  // What one pass does to the conditions it read.
  function Reconciled(conditions: seq<Condition>, region: string, available: bool, clusterRegion: string, now: int, later: int)
    : seq<Condition>
  {
    if !available then Set(conditions, InvalidRegion(region, now))
    else if region != clusterRegion then Set(conditions, RegionMismatch(region, clusterRegion, now))
    else Set(Set(conditions, ValidRegion(region, now)), Ready(later))
  }

  // ---- What a list of conditions says about a kind ----

  function Find(conditions: seq<Condition>, kind: string): (r: Option<Condition>)
    ensures r.Some? ==> r.value in conditions && r.value.kind == kind
    ensures r.None? ==> forall c :: c in conditions ==> c.kind != kind
  {
    if conditions == [] then None
    else if conditions[0].kind == kind then Some(conditions[0])
    else Find(conditions[1..], kind)
  }

  function Updated(previous: Option<Condition>, s: Setting): Condition {
    if previous.Some? && previous.value.status == s.status then Fresh(s).(since := previous.value.since) else Fresh(s)
  }

  lemma {:induction false} FindAfterSet(conditions: seq<Condition>, s: Setting, kind: string)
    ensures Find(Set(conditions, s), kind) ==
      if kind == s.kind then Some(Updated(Find(conditions, kind), s)) else Find(conditions, kind)
  {
    if conditions != [] && conditions[0].kind != s.kind {
      FindAfterSet(conditions[1..], s, kind);
      assert Set(conditions, s)[1..] == Set(conditions[1..], s);
    } else if conditions != [] {
      assert Set(conditions, s)[1..] == conditions[1..];
    }
  }

  // ---- What a pass leaves ----

  // One pass over the stored class; it leaves a trace only if its update was accepted.
  datatype Visit = Visit(region: string, available: bool, now: int, later: int, updated: bool)

  predicate Good(v: Visit, clusterRegion: string) {
    v.available && v.region == clusterRegion
  }

  // What ValidRegion says after a visit.
  predicate Verdict(c: Condition, v: Visit, clusterRegion: string) {
    if !v.available then
      && c.status == False && c.reason == "InvalidRegion"
      && c.message == "Region \"" + v.region + "\" is not available"
    else if v.region != clusterRegion then
      && c.status == False && c.reason == "RegionMismatch"
      && c.message == "DONodeClass region \"" + v.region + "\" does not match cluster region \"" + clusterRegion + "\""
    else
      && c.status == True && c.reason == "Valid"
      && c.message == "Region \"" + v.region + "\" is valid and matches cluster"
  }

  predicate SaysReady(c: Condition) {
    c.status == True && c.reason == "Ready" && c.message == "DONodeClass is ready"
  }

  function SinceWhen(before: Option<Condition>, status: Status, now: int): int {
    if before.Some? && before.value.status == status then before.value.since else now
  }

  lemma FindAfterBad(conditions: seq<Condition>, s: Setting)
    requires s.kind == VALID_REGION
    ensures Find(Set(conditions, s), VALID_REGION) == Some(Updated(Find(conditions, VALID_REGION), s))
    ensures Find(Set(conditions, s), READY) == Find(conditions, READY)
  {
    assert |VALID_REGION| != |READY|;
    FindAfterSet(conditions, s, VALID_REGION);
    FindAfterSet(conditions, s, READY);
  }

  lemma FindAfterGood(conditions: seq<Condition>, s: Setting, ready: Setting)
    requires s.kind == VALID_REGION && ready.kind == READY
    ensures var after := Set(Set(conditions, s), ready);
      && Find(after, VALID_REGION) == Some(Updated(Find(conditions, VALID_REGION), s))
      && Find(after, READY) == Some(Updated(Find(conditions, READY), ready))
  {
    FindAfterBad(conditions, s);
    FindAfterSet(Set(conditions, s), ready, VALID_REGION);
    FindAfterSet(Set(conditions, s), ready, READY);
  }

  lemma FindAfterVisit(conditions: seq<Condition>, v: Visit, clusterRegion: string)
    ensures var after := Reconciled(conditions, v.region, v.available, clusterRegion, v.now, v.later);
      var status := if Good(v, clusterRegion) then True else False;
      && Find(after, VALID_REGION).Some?
      && Verdict(Find(after, VALID_REGION).value, v, clusterRegion)
      && Find(after, VALID_REGION).value.since == SinceWhen(Find(conditions, VALID_REGION), status, v.now)
      && (if Good(v, clusterRegion) then
            && Find(after, READY).Some? && SaysReady(Find(after, READY).value)
            && Find(after, READY).value.since == SinceWhen(Find(conditions, READY), True, v.later)
          else Find(after, READY) == Find(conditions, READY))
  {
    if !v.available {
      FindAfterBad(conditions, InvalidRegion(v.region, v.now));
    } else if v.region != clusterRegion {
      FindAfterBad(conditions, RegionMismatch(v.region, clusterRegion, v.now));
    } else {
      FindAfterGood(conditions, ValidRegion(v.region, v.now), Ready(v.later));
    }
  }

  datatype Outcome = Done | FetchFailed | UpdateFailed | RegionUnavailable | RegionDiffers

  // What fetching the class answers: a missing class is not an error.
  datatype Fetch = Found | Missing | FetchError

  // The API server's copy of a node class.
  class Store {
    var region: string
    var conditions: seq<Condition>
  }

  class Controller {
    const regions: Regions.Provider
    const clusterRegion: string

    constructor (regions: Regions.Provider, clusterRegion: string)
      ensures this.regions == regions && this.clusterRegion == clusterRegion
    {
      this.regions, this.clusterRegion := regions, clusterRegion;
    }

    // now and later are the clock's readings as conditions are set, updates tells
    // whether the status update will be accepted. A pass works on a copy, so nothing
    // of it is seen unless the update is accepted.
    method Reconcile(store: Store, fetch: Fetch, api: Option<seq<Regions.Region>>, now: int, later: int, updates: bool)
      returns (outcome: Outcome)
      modifies regions, store`conditions
      ensures !fetch.Found? ==> regions.regions == old(regions.regions) && store.conditions == old(store.conditions) &&
                                outcome == if fetch.Missing? then Done else FetchFailed
      ensures fetch.Found? ==>
        var available := Regions.UpIn(regions.regions, store.region);
        && store.conditions == (if updates then Reconciled(old(store.conditions), store.region, available, clusterRegion, now, later)
                                else old(store.conditions))
        && (updates ==>
              && Find(store.conditions, VALID_REGION).Some?
              && Verdict(Find(store.conditions, VALID_REGION).value, Visit(store.region, available, now, later, true), clusterRegion))
        && outcome == if !updates then UpdateFailed
                      else if !available then RegionUnavailable
                      else if store.region != clusterRegion then RegionDiffers else Done
    {
      if !fetch.Found? {
        return if fetch.Missing? then Done else FetchFailed;
      }
      var copy := new DONodeClass(store.region, store.conditions);
      var available := regions.IsAvailable(copy.region, api);
      FindAfterVisit(old(store.conditions), Visit(store.region, available, now, later, true), clusterRegion);
      if !available {
        copy.SetCondition(InvalidRegion(copy.region, now));
        if !updates {
          return UpdateFailed;
        }
        store.conditions := copy.conditions;
        return RegionUnavailable;
      }
      if copy.region != clusterRegion {
        copy.SetCondition(RegionMismatch(copy.region, clusterRegion, now));
        if !updates {
          return UpdateFailed;
        }
        store.conditions := copy.conditions;
        return RegionDiffers;
      }
      copy.SetCondition(ValidRegion(copy.region, now));
      copy.SetCondition(Ready(later));
      if !updates {
        return UpdateFailed;
      }
      store.conditions := copy.conditions;
      return Done;
    }
  }

  // ---- The entries of a list ----

  function Kinds(conditions: seq<Condition>): seq<string>
    decreases |conditions|
  {
    if conditions == [] then [] else [conditions[0].kind] + Kinds(conditions[1..])
  }

  lemma {:induction false} KindsAfterSet(conditions: seq<Condition>, s: Setting)
    ensures Kinds(Set(conditions, s)) ==
      if Find(conditions, s.kind).Some? then Kinds(conditions) else Kinds(conditions) + [s.kind]
  {
    if conditions == [] {
      assert Set(conditions, s)[1..] == [];
    } else if conditions[0].kind != s.kind {
      KindsAfterSet(conditions[1..], s);
      assert Set(conditions, s)[1..] == Set(conditions[1..], s);
    } else {
      assert Set(conditions, s)[1..] == conditions[1..];
    }
  }

  // ---- A history of settings ----

  function After(history: seq<Setting>): seq<Condition>
    decreases |history|
  {
    if history == [] then []
    else Set(After(history[..|history| - 1]), history[|history| - 1])
  }

  function OfKind(history: seq<Setting>, kind: string): seq<Setting> {
    Seqs.Filter((s: Setting) => s.kind == kind, history)
  }

  // The kinds in the order of their first use.
  function FirstUses(history: seq<Setting>): seq<string>
    decreases |history|
  {
    if history == [] then []
    else
      var n := |history| - 1;
      var before := FirstUses(history[..n]);
      if OfKind(history[..n], history[n].kind) == [] then before + [history[n].kind] else before
  }

  // From index k on the status has been what it is now, and not longer than that.
  predicate RunStart(settings: seq<Setting>, k: int) {
    && 0 <= k < |settings|
    && (forall j :: k <= j < |settings| ==> settings[j].status == settings[|settings| - 1].status)
    && (k > 0 ==> settings[k - 1].status != settings[|settings| - 1].status)
  }

  // A condition against all the settings of its kind: the last one's words, and the
  // time at which the present status set in.
  ghost predicate Tells(c: Condition, settings: seq<Setting>) {
    && settings != []
    && (var last := settings[|settings| - 1];
        c.kind == last.kind && c.status == last.status && c.reason == last.reason && c.message == last.message)
    && exists k :: RunStart(settings, k) && c.since == settings[k].now
  }

  // The entry of a kind, if any, against all the settings of the kind.
  ghost predicate Fits(entry: Option<Condition>, settings: seq<Setting>) {
    if entry.None? then settings == [] else Tells(entry.value, settings)
  }

  lemma FitsOn(entry: Option<Condition>, settings: seq<Setting>, s: Setting)
    requires Fits(entry, settings) && (entry.Some? ==> entry.value.kind == s.kind)
    ensures Fits(Some(Updated(entry, s)), settings + [s])
  {
    var longer := settings + [s];
    if entry.Some? && entry.value.status == s.status {
      var k :| RunStart(settings, k) && entry.value.since == settings[k].now;
      assert RunStart(longer, k) && longer[k].now == entry.value.since;
    } else {
      assert RunStart(longer, |settings|) && longer[|settings|].now == s.now;
    }
  }

  lemma OfKindOn(history: seq<Setting>, kind: string)
    requires history != []
    ensures var n := |history| - 1;
      OfKind(history, kind) == if history[n].kind == kind then OfKind(history[..n], kind) + [history[n]] else OfKind(history[..n], kind)
  {
  }

  // After any history of settings a kind has an entry if and only if it was ever set;
  // the entry has the last setting's status, reason and message, and the time of the
  // first setting of the unbroken run of that status.
  lemma {:induction false} EntryTellsTheHistory(history: seq<Setting>, kind: string)
    ensures Fits(Find(After(history), kind), OfKind(history, kind))
    decreases |history|
  {
    if history != [] {
      var n := |history| - 1;
      EntryTellsTheHistory(history[..n], kind);
      FindAfterSet(After(history[..n]), history[n], kind);
      OfKindOn(history, kind);
      if kind == history[n].kind {
        FitsOn(Find(After(history[..n]), kind), OfKind(history[..n], kind), history[n]);
      }
    }
  }

  // There is one entry per kind ever set, and they stand in the order of first use.
  lemma {:induction false} EntriesInOrderOfFirstUse(history: seq<Setting>)
    ensures Kinds(After(history)) == FirstUses(history)
    ensures forall i, j :: 0 <= i < j < |FirstUses(history)| ==> FirstUses(history)[i] != FirstUses(history)[j]
    ensures forall kind :: kind in FirstUses(history) <==> OfKind(history, kind) != []
    decreases |history|
  {
    if history != [] {
      var n := |history| - 1;
      EntriesInOrderOfFirstUse(history[..n]);
      KindsAfterSet(After(history[..n]), history[n]);
      EntryTellsTheHistory(history[..n], history[n].kind);
      forall kind ensures OfKind(history, kind) != [] <==> history[n].kind == kind || OfKind(history[..n], kind) != [] {
        OfKindOn(history, kind);
      }
    }
  }

  // ---- Runs of the controller ----

  function Stored(visits: seq<Visit>, clusterRegion: string): seq<Condition>
    decreases |visits|
  {
    if visits == [] then []
    else
      var v := visits[|visits| - 1];
      var before := Stored(visits[..|visits| - 1], clusterRegion);
      if v.updated then Reconciled(before, v.region, v.available, clusterRegion, v.now, v.later) else before
  }

  // ValidRegion is the verdict of the last visit that was stored, reason and message
  // included: the reason tells the three verdicts apart.
  lemma {:induction false} ValidRegionIsLastVerdict(visits: seq<Visit>, clusterRegion: string, i: nat)
    requires i < |visits| && visits[i].updated && forall j :: i < j < |visits| ==> !visits[j].updated
    ensures var c := Find(Stored(visits, clusterRegion), VALID_REGION);
      && c.Some? && Verdict(c.value, visits[i], clusterRegion)
      && (c.value.status == True <==> Good(visits[i], clusterRegion))
      && (c.value.reason == "InvalidRegion" <==> !visits[i].available)
      && (c.value.reason == "RegionMismatch" <==> visits[i].available && visits[i].region != clusterRegion)
      && (c.value.reason == "Valid" <==> Good(visits[i], clusterRegion))
    decreases |visits|
  {
    var n := |visits| - 1;
    if i == n {
      FindAfterVisit(Stored(visits[..n], clusterRegion), visits[n], clusterRegion);
    } else {
      ValidRegionIsLastVerdict(visits[..n], clusterRegion, i);
    }
  }

  predicate EverGood(visits: seq<Visit>, clusterRegion: string) {
    exists i :: 0 <= i < |visits| && visits[i].updated && Good(visits[i], clusterRegion)
  }

  lemma EverGoodOn(visits: seq<Visit>, clusterRegion: string)
    requires visits != []
    ensures var n := |visits| - 1;
      EverGood(visits, clusterRegion)
      <==> EverGood(visits[..n], clusterRegion) || (visits[n].updated && Good(visits[n], clusterRegion))
  {
    var n := |visits| - 1;
    if i :| 0 <= i < n && visits[..n][i].updated && Good(visits[..n][i], clusterRegion) {
      assert visits[i].updated;
    }
    if i :| 0 <= i < n && visits[i].updated && Good(visits[i], clusterRegion) {
      assert visits[..n][i].updated;
    }
  }

  // Ready is True exactly when some stored visit, however long ago, was good; until
  // then there is no such condition.
  lemma {:induction false} ReadyMeansOnceGood(visits: seq<Visit>, clusterRegion: string)
    ensures var c := Find(Stored(visits, clusterRegion), READY);
      && (c.Some? <==> EverGood(visits, clusterRegion))
      && (c.Some? ==> SaysReady(c.value))
    decreases |visits|
  {
    if visits != [] {
      var n := |visits| - 1;
      ReadyMeansOnceGood(visits[..n], clusterRegion);
      FindAfterVisit(Stored(visits[..n], clusterRegion), visits[n], clusterRegion);
      EverGoodOn(visits, clusterRegion);
    }
  }

  // Visit k was stored, and no stored visit before it was good.
  predicate FirstGood(visits: seq<Visit>, clusterRegion: string, k: int) {
    && 0 <= k < |visits| && visits[k].updated && Good(visits[k], clusterRegion)
    && forall j :: 0 <= j < k && visits[j].updated ==> !Good(visits[j], clusterRegion)
  }

  lemma NeverGood(visits: seq<Visit>, clusterRegion: string)
    requires visits != [] && visits[|visits| - 1].updated && Good(visits[|visits| - 1], clusterRegion)
    requires !EverGood(visits[..|visits| - 1], clusterRegion)
    ensures FirstGood(visits, clusterRegion, |visits| - 1)
  {
    forall j | 0 <= j < |visits| - 1 && visits[j].updated ensures !Good(visits[j], clusterRegion) {
      assert visits[..|visits| - 1][j] == visits[j];
    }
  }

  lemma FirstGoodStays(visits: seq<Visit>, clusterRegion: string, k: int)
    requires visits != [] && FirstGood(visits[..|visits| - 1], clusterRegion, k)
    ensures FirstGood(visits, clusterRegion, k)
  {
    forall j | 0 <= j < |visits| - 1 ensures visits[..|visits| - 1][j] == visits[j] {
    }
  }

  ghost predicate ReadySince(visits: seq<Visit>, clusterRegion: string) {
    var c := Find(Stored(visits, clusterRegion), READY);
    c.Some? ==> exists k :: FirstGood(visits, clusterRegion, k) && c.value.since == visits[k].later
  }

  lemma ReadySinceStep(visits: seq<Visit>, clusterRegion: string)
    requires visits != [] && ReadySince(visits[..|visits| - 1], clusterRegion)
    ensures ReadySince(visits, clusterRegion)
  {
    var n := |visits| - 1;
    var before := Stored(visits[..n], clusterRegion);
    ReadyMeansOnceGood(visits[..n], clusterRegion);
    FindAfterVisit(before, visits[n], clusterRegion);
    if Find(before, READY).Some? {
      var k :| FirstGood(visits[..n], clusterRegion, k) && Find(before, READY).value.since == visits[..n][k].later;
      FirstGoodStays(visits, clusterRegion, k);
    } else if visits[n].updated && Good(visits[n], clusterRegion) {
      NeverGood(visits, clusterRegion);
    }
  }

  // Ready dates from the first good visit that was stored.
  lemma {:induction false} ReadySinceFirstGood(visits: seq<Visit>, clusterRegion: string)
    ensures ReadySince(visits, clusterRegion)
    decreases |visits|
  {
    if visits != [] {
      ReadySinceFirstGood(visits[..|visits| - 1], clusterRegion);
      ReadySinceStep(visits, clusterRegion);
    }
  }

  // From the stored visit k on the verdict has been what it is now, and the stored visit
  // before k, if any, found otherwise.
  predicate VerdictStart(visits: seq<Visit>, clusterRegion: string, k: int, good: bool) {
    && 0 <= k < |visits| && visits[k].updated
    && (forall j :: k <= j < |visits| && visits[j].updated ==> Good(visits[j], clusterRegion) == good)
    && forall j :: 0 <= j < k && visits[j].updated && (forall m :: j < m < k ==> !visits[m].updated) ==>
         Good(visits[j], clusterRegion) != good
  }

  lemma VerdictStartOn(visits: seq<Visit>, clusterRegion: string, k: int, good: bool)
    requires visits != [] && VerdictStart(visits[..|visits| - 1], clusterRegion, k, good)
    ensures var n := |visits| - 1;
      if visits[n].updated && Good(visits[n], clusterRegion) != good
      then VerdictStart(visits, clusterRegion, n, !good) else VerdictStart(visits, clusterRegion, k, good)
  {
    var n := |visits| - 1;
    var front := visits[..n];
    forall j | 0 <= j < n ensures front[j] == visits[j] {
    }
    if visits[n].updated && Good(visits[n], clusterRegion) != good {
      forall j | 0 <= j < n && visits[j].updated && (forall m :: j < m < n ==> !visits[m].updated)
        ensures Good(visits[j], clusterRegion) == good
      {
        assert j >= k;
        assert front[j].updated;
      }
    }
  }

  // The entry, if any, against the stored visits.
  ghost predicate ValidRegionSince(entry: Option<Condition>, visits: seq<Visit>, clusterRegion: string) {
    if entry.None? then forall j :: 0 <= j < |visits| ==> !visits[j].updated
    else
      && entry.value.status != Unknown
      && exists k :: VerdictStart(visits, clusterRegion, k, entry.value.status == True) && entry.value.since == visits[k].now
  }

  lemma FirstVerdict(visits: seq<Visit>, clusterRegion: string)
    requires visits != [] && visits[|visits| - 1].updated && forall j :: 0 <= j < |visits| - 1 ==> !visits[j].updated
    ensures VerdictStart(visits, clusterRegion, |visits| - 1, Good(visits[|visits| - 1], clusterRegion))
  {
  }

  lemma ValidRegionSinceStep(before: Option<Condition>, after: Option<Condition>, visits: seq<Visit>, clusterRegion: string)
    requires visits != []
    requires var n := |visits| - 1;
      var status := if Good(visits[n], clusterRegion) then True else False;
      && ValidRegionSince(before, visits[..n], clusterRegion)
      && if visits[n].updated then
           after.Some? && after.value.status == status && after.value.since == SinceWhen(before, status, visits[n].now)
         else after == before
    ensures ValidRegionSince(after, visits, clusterRegion)
  {
    var n := |visits| - 1;
    forall j | 0 <= j < n ensures visits[..n][j] == visits[j] {
    }
    if before.None? {
      if visits[n].updated {
        FirstVerdict(visits, clusterRegion);
      }
    } else {
      var good := before.value.status == True;
      var k :| VerdictStart(visits[..n], clusterRegion, k, good) && before.value.since == visits[..n][k].now;
      VerdictStartOn(visits, clusterRegion, k, good);
    }
  }

  // ValidRegion dates from the first of the unbroken run of stored visits that found
  // what the last one found: good or not.
  lemma {:induction false} ValidRegionSinceVerdict(visits: seq<Visit>, clusterRegion: string)
    ensures ValidRegionSince(Find(Stored(visits, clusterRegion), VALID_REGION), visits, clusterRegion)
    decreases |visits|
  {
    if visits != [] {
      var n := |visits| - 1;
      var before := Stored(visits[..n], clusterRegion);
      ValidRegionSinceVerdict(visits[..n], clusterRegion);
      FindAfterVisit(before, visits[n], clusterRegion);
      ValidRegionSinceStep(Find(before, VALID_REGION), Find(Stored(visits, clusterRegion), VALID_REGION), visits, clusterRegion);
    }
  }

  // Ready is never taken back: a class whose region is invalid can go on being Ready.
  lemma ReadyOutlivesValidRegion(clusterRegion: string, good: Visit, bad: Visit)
    requires good.updated && Good(good, clusterRegion) && bad.updated && !Good(bad, clusterRegion)
    ensures var conditions := Stored([good, bad], clusterRegion);
      && Find(conditions, READY).Some? && Find(conditions, READY).value.status == True
      && Find(conditions, VALID_REGION).Some? && Find(conditions, VALID_REGION).value.status == False
  {
    var visits := [good, bad];
    ReadyMeansOnceGood(visits, clusterRegion);
    assert visits[0].updated && Good(visits[0], clusterRegion);
    ValidRegionIsLastVerdict(visits, clusterRegion, 1);
  }

  // ---- Reconciling again ----

  predicate Settled(conditions: seq<Condition>, s: Setting) {
    var c := Find(conditions, s.kind);
    c.Some? && c.value.status == s.status && c.value.reason == s.reason && c.value.message == s.message
  }

  lemma {:induction false} SettingAgainChangesNothing(conditions: seq<Condition>, s: Setting)
    requires Settled(conditions, s)
    ensures Set(conditions, s) == conditions
  {
    if conditions[0].kind != s.kind {
      SettingAgainChangesNothing(conditions[1..], s);
    }
  }

  // A pass over the same class with the same verdict changes nothing, whatever the
  // clock says: transition times included.
  lemma ReconcilingAgainChangesNothing(conditions: seq<Condition>, v: Visit, clusterRegion: string, now: int, later: int)
    ensures var once := Reconciled(conditions, v.region, v.available, clusterRegion, v.now, v.later);
      Reconciled(once, v.region, v.available, clusterRegion, now, later) == once
  {
    var once := Reconciled(conditions, v.region, v.available, clusterRegion, v.now, v.later);
    if !v.available {
      FindAfterSet(conditions, InvalidRegion(v.region, v.now), VALID_REGION);
      SettingAgainChangesNothing(once, InvalidRegion(v.region, now));
    } else if v.region != clusterRegion {
      FindAfterSet(conditions, RegionMismatch(v.region, clusterRegion, v.now), VALID_REGION);
      SettingAgainChangesNothing(once, RegionMismatch(v.region, clusterRegion, now));
    } else {
      assert |VALID_REGION| != |READY|;
      FindAfterSet(conditions, ValidRegion(v.region, v.now), VALID_REGION);
      FindAfterSet(Set(conditions, ValidRegion(v.region, v.now)), Ready(v.later), VALID_REGION);
      FindAfterSet(Set(conditions, ValidRegion(v.region, v.now)), Ready(v.later), READY);
      SettingAgainChangesNothing(once, ValidRegion(v.region, now));
      SettingAgainChangesNothing(once, Ready(later));
    }
  }
}
