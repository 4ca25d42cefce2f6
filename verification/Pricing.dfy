// Hourly prices per size and region, refreshed as a whole from the size catalogue.
module Pricing {
  import opened Wrappers

  // The Sizes API's description of a droplet size; memory in MB, disk in GB.
  datatype Size = Size(
    slug: string, available: bool, vcpus: int, memory: int, disk: int,
    regions: seq<string>, priceHourly: real)

  datatype PriceKey = PriceKey(size: string, region: string)

  predicate Prices(z: Size, k: PriceKey) {
    z.slug == k.size && k.region in z.regions
  }

  // The price of the last size in the list that has this slug and region.
  function LastPrice(sizes: seq<Size>, k: PriceKey): (r: Option<real>)
    ensures r.None? <==> forall z :: z in sizes ==> !Prices(z, k)
    ensures r.Some? ==>
      exists i :: 0 <= i < |sizes| && Prices(sizes[i], k) && r.value == sizes[i].priceHourly &&
                  forall j :: i < j < |sizes| ==> !Prices(sizes[j], k)
    decreases |sizes|
  {
    if sizes == [] then None
    else
      var n := |sizes| - 1;
      assert sizes == sizes[..n] + [sizes[n]];
      if Prices(sizes[n], k) then Some(sizes[n].priceHourly) else LastPrice(sizes[..n], k)
  }

  function Lookup(prices: map<PriceKey, real>, k: PriceKey): Option<real> {
    if k in prices then Some(prices[k]) else None
  }

  class Provider {
    var prices: map<PriceKey, real>

    constructor ()
      ensures prices == map[]
    {
      prices := map[];
    }

    method InstanceTypePrice(size: string, region: string) returns (r: Option<real>)
      ensures r == Lookup(prices, PriceKey(size, region))
    {
      r := if PriceKey(size, region) in prices then Some(prices[PriceKey(size, region)]) else None;
    }

    // sizes is the Sizes API's answer, None on error. The new map replaces the old one
    // as a whole: nothing of the old map remains, and later sizes win over earlier ones.
    method LivePricing(sizes: Option<seq<Size>>) returns (failure: Option<Error>)
      modifies this
      ensures sizes.None? ==> failure == Some(ApiFailed) && prices == old(prices)
      ensures sizes.Some? ==> failure == None && forall k :: Lookup(prices, k) == LastPrice(sizes.value, k)
    {
      if sizes.None? {
        return Some(ApiFailed);
      }
      var list := sizes.value;
      var rebuilt: map<PriceKey, real> := map[];
      for i := 0 to |list|
        invariant forall k :: Lookup(rebuilt, k) == LastPrice(list[..i], k)
      {
        ghost var before := rebuilt;
        for j := 0 to |list[i].regions|
          invariant forall k :: Lookup(rebuilt, k) ==
                                if k.size == list[i].slug && k.region in list[i].regions[..j]
                                then Some(list[i].priceHourly) else Lookup(before, k)
        {
          rebuilt := rebuilt[PriceKey(list[i].slug, list[i].regions[j]) := list[i].priceHourly];
        }
        assert list[i].regions[..|list[i].regions|] == list[i].regions;
        assert list[..i + 1][..i] == list[..i];
      }
      assert list[..|list|] == list;
      prices := rebuilt;
      failure := None;
    }
  }

  // What an offering costs: the cached price, or the catalogue's if there is none.
  function OfferingPrice(prices: map<PriceKey, real>, z: Size, region: string): real {
    var cached := Lookup(prices, PriceKey(z.slug, region));
    if cached.Some? then cached.value else z.priceHourly
  }

  // No two sizes of the same name disagree on the price in a region they share.
  ghost predicate Consistent(sizes: seq<Size>) {
    forall y, z, region :: y in sizes && z in sizes && y.slug == z.slug && region in y.regions && region in z.regions
      ==> y.priceHourly == z.priceHourly
  }

  // With the same catalogue behind both, it cannot be told from the offerings whether
  // the refresh succeeded (prices) or the map stayed empty, exactly when the
  // catalogue is consistent.
  lemma RefreshIsUnobservable(sizes: seq<Size>, prices: map<PriceKey, real>)
    requires forall k :: Lookup(prices, k) == LastPrice(sizes, k)
    ensures (forall z, region :: z in sizes && region in z.regions ==>
              OfferingPrice(prices, z, region) == OfferingPrice(map[], z, region))
      <==> Consistent(sizes)
  {
  }
}
