// The region cache: filled by the first listing that names any region, then kept.
module Regions {
  import opened Wrappers

  datatype Region = Region(slug: string, available: bool)

  // What the list last says about a slug.
  function LastEntry(list: seq<Region>, slug: string): (r: Option<bool>)
    ensures r.None? <==> forall x :: x in list ==> x.slug != slug
    decreases |list|
  {
    if list == [] then None
    else
      var n := |list| - 1;
      assert list == list[..n] + [list[n]];
      if list[n].slug == slug then Some(list[n].available) else LastEntry(list[..n], slug)
  }

  function Known(regions: map<string, bool>, slug: string): Option<bool> {
    if slug in regions then Some(regions[slug]) else None
  }

  predicate UpIn(regions: map<string, bool>, slug: string) {
    Known(regions, slug) == Some(true)
  }

  // The cache holds exactly what the list last says about each region it names.
  ghost predicate Records(regions: map<string, bool>, list: seq<Region>) {
    forall slug :: Known(regions, slug) == LastEntry(list, slug)
  }

  // The available entries of a list, in order.
  function Ups(list: seq<Region>): (r: seq<string>)
    ensures forall slug :: slug in r <==> Region(slug, true) in list
    decreases |list|
  {
    if list == [] then []
    else
      var n := |list| - 1;
      assert list == list[..n] + [list[n]];
      Ups(list[..n]) + (if list[n].available then [list[n].slug] else [])
  }

  class Provider {
    var regions: map<string, bool>

    constructor ()
      ensures regions == map[]
    {
      regions := map[];
    }

    // api is what the Regions API answers, should it be asked: only an empty cache asks.
    method List(api: Option<seq<Region>>) returns (r: Option<seq<string>>)
      modifies this
      ensures old(regions) != map[] ==>
        && regions == old(regions) && r.Some?
        && (forall slug :: slug in r.value <==> UpIn(regions, slug))
        && (forall i, j :: 0 <= i < j < |r.value| ==> r.value[i] != r.value[j])
      ensures old(regions) == map[] && api.None? ==> regions == map[] && r.None?
      ensures old(regions) == map[] && api.Some? ==> Records(regions, api.value) && r == Some(Ups(api.value))
    {
      if regions != map[] {
        var result: seq<string> := [];
        var rest := regions.Keys;
        while rest != {}
          invariant rest <= regions.Keys && regions == old(regions)
          invariant forall slug :: slug in result <==> slug !in rest && UpIn(regions, slug)
          invariant forall i, j :: 0 <= i < j < |result| ==> result[i] != result[j]
          decreases rest
        {
          var slug :| slug in rest;
          rest := rest - {slug};
          if regions[slug] {
            result := result + [slug];
          }
        }
        return Some(result);
      }
      if api.None? {
        return None;
      }
      var list := api.value;
      var result: seq<string> := [];
      for i := 0 to |list|
        invariant Records(regions, list[..i]) && result == Ups(list[..i])
      {
        assert list[..i + 1][..i] == list[..i];
        regions := regions[list[i].slug := list[i].available];
        if list[i].available {
          result := result + [list[i].slug];
        }
      }
      assert list[..|list|] == list;
      r := Some(result);
    }

    // Whatever branch is taken, the answer is the cache's after the call.
    method IsAvailable(region: string, api: Option<seq<Region>>) returns (r: bool)
      modifies this
      ensures r <==> UpIn(regions, region)
      ensures old(regions) != map[] || api.None? ==> regions == old(regions)
      ensures old(regions) == map[] && api.Some? ==> Records(regions, api.value)
    {
      if region in regions {
        return regions[region];
      }
      var listed := List(api);
      if listed.None? {
        return false;
      }
      r := region in regions && regions[region];
    }
  }

  lemma {:induction false} LastEntryIsEntry(list: seq<Region>, slug: string)
    requires LastEntry(list, slug).Some?
    ensures Region(slug, LastEntry(list, slug).value) in list
    decreases |list|
  {
    var n := |list| - 1;
    assert list == list[..n] + [list[n]];
    if list[n].slug != slug {
      LastEntryIsEntry(list[..n], slug);
    }
  }

  // The answer of the filling call and the later answers name the same regions exactly
  // when no region that is up somewhere in the list is last said to be down.
  lemma FillAnswersLikeCache(regions: map<string, bool>, list: seq<Region>)
    requires Records(regions, list)
    ensures (forall slug :: slug in Ups(list) <==> UpIn(regions, slug))
      <==> forall x :: x in list && x.available ==> LastEntry(list, x.slug) == Some(true)
  {
    forall slug | UpIn(regions, slug) ensures slug in Ups(list) {
      LastEntryIsEntry(list, slug);
    }
    if forall slug :: slug in Ups(list) <==> UpIn(regions, slug) {
      forall x | x in list && x.available ensures LastEntry(list, x.slug) == Some(true) {
        assert x == Region(x.slug, true);
        assert x.slug in Ups(list);
      }
    }
    if forall x :: x in list && x.available ==> LastEntry(list, x.slug) == Some(true) {
      forall slug | slug in Ups(list) ensures UpIn(regions, slug) {
        assert Region(slug, true) in list;
      }
    }
  }

  // A list that names a region first up, then down: the filling call reports it, no later one does.
  lemma FillCanMislead(regions: map<string, bool>, list: seq<Region>)
    requires list == [Region("nyc1", true), Region("nyc1", false)] && Records(regions, list)
    ensures Ups(list) == ["nyc1"] && forall slug :: !UpIn(regions, slug)
  {
    assert list[..1] == [Region("nyc1", true)] && list[..1][..0] == [];
    assert Ups(list[..1]) == ["nyc1"];
    forall slug ensures !UpIn(regions, slug) {
      assert Known(regions, slug) == LastEntry(list, slug);
    }
  }

  // ---- The cache over a whole history ----

  ghost predicate StepOf(before: map<string, bool>, api: Option<seq<Region>>, after: map<string, bool>) {
    if before != map[] || api.None? then after == before else Records(after, api.value)
  }

  // caches[i + 1] is the cache after the i-th call, whose answer from the API, had it
  // been asked, would have been apis[i].
  ghost predicate History(caches: seq<map<string, bool>>, apis: seq<Option<seq<Region>>>) {
    && |caches| == |apis| + 1 && caches[0] == map[]
    && forall i :: 0 <= i < |apis| ==> StepOf(caches[i], apis[i], caches[i + 1])
  }

  predicate Names(api: Option<seq<Region>>) {
    api.Some? && api.value != []
  }

  lemma RecordsEmpty(regions: map<string, bool>, list: seq<Region>)
    requires Records(regions, list)
    ensures regions == map[] <==> list == []
  {
    if list != [] {
      assert list[0] in list;
      assert Known(regions, list[0].slug).Some?;
    } else {
      forall slug ensures slug !in regions {
        assert Known(regions, slug) == LastEntry(list, slug);
      }
    }
  }

  // Up to the first answer that names a region the cache is empty; from then on it is
  // what that answer says and never changes, and so is every availability.
  lemma {:induction false} FirstAnswerIsKept(caches: seq<map<string, bool>>, apis: seq<Option<seq<Region>>>, i: nat, n: nat)
    requires History(caches, apis) && n < |caches|
    requires forall j :: 0 <= j < i && j < |apis| ==> !Names(apis[j])
    ensures n <= i ==> caches[n] == map[]
    ensures i < n && Names(apis[i]) ==> Records(caches[n], apis[i].value) && caches[n] != map[]
    decreases n
  {
    if n > 0 {
      FirstAnswerIsKept(caches, apis, i, n - 1);
      assert StepOf(caches[n - 1], apis[n - 1], caches[n]);
      if caches[n - 1] == map[] && apis[n - 1].Some? {
        RecordsEmpty(caches[n], apis[n - 1].value);
      }
    }
  }
}
