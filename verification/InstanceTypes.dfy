// From the DigitalOcean size catalogue to the one size Create launches.
module InstanceTypes {
  import opened Wrappers
  import opened Pricing
  import Seqs

  datatype Offering = Offering(region: string, price: real)
  datatype InstanceType = InstanceType(
    name: string, regions: seq<string>, offerings: seq<Offering>,
    cpuMilli: int, memoryBytes: int, diskBytes: int)

  // ---- Quantities ----

  // Go's int64 arithmetic wraps around.
  function Int64(x: int): (r: int)
    ensures -0x8000_0000_0000_0000 <= r < 0x8000_0000_0000_0000
  {
    (x + 0x8000_0000_0000_0000) % 0x1_0000_0000_0000_0000 - 0x8000_0000_0000_0000
  }

  function MemoryBytes(megabytes: int): int {
    Int64(Int64(megabytes * 1024) * 1024)
  }

  // The memory sizes whose byte count is representable.
  predicate Fits(megabytes: int) {
    -0x800_0000_0000 <= megabytes < 0x800_0000_0000
  }

  // The byte count only depends on the megabytes modulo 2^44.
  lemma BytesOf(m: int, n: int, q: int)
    requires Fits(n) && m == n + q * 0x1000_0000_0000
    ensures MemoryBytes(m) == n * 1024 * 1024
  {
  }

  // Comparing bytes is comparing megabytes, for every int64 amount that fits and for
  // no other: one that does not fit looks the same as one that does.
  lemma BytesCompareExactly(m: int)
    requires -0x8000_0000_0000_0000 <= m < 0x8000_0000_0000_0000
    ensures Fits(m) <==> forall n :: Fits(n) ==>
      (MemoryBytes(m) < MemoryBytes(n) <==> m < n) && (MemoryBytes(n) < MemoryBytes(m) <==> n < m)
  {
    forall n | Fits(n) ensures MemoryBytes(n) == n * 1024 * 1024 {
      BytesOf(n, n, 0);
    }
    if Fits(m) {
      BytesOf(m, m, 0);
    } else {
      var n := (m + 0x800_0000_0000) % 0x1000_0000_0000 - 0x800_0000_0000;
      assert Fits(n) && n != m;
      BytesOf(m, n, (m + 0x800_0000_0000) / 0x1000_0000_0000);
    }
  }

  // ---- Catalogue to instance types ----

  type PriceMap = map<PriceKey, real>

  function OfferingsOf(z: Size, regions: seq<string>, prices: PriceMap): (r: seq<Offering>)
    ensures |r| == |regions|
    ensures forall i :: 0 <= i < |r| ==> r[i] == Offering(regions[i], OfferingPrice(prices, z, regions[i]))
    decreases |regions|
  {
    if regions == [] then []
    else
      var n := |regions| - 1;
      OfferingsOf(z, regions[..n], prices) + [Offering(regions[n], OfferingPrice(prices, z, regions[n]))]
  }

  function ToInstanceType(z: Size, prices: PriceMap): InstanceType {
    InstanceType(z.slug, z.regions, OfferingsOf(z, z.regions, prices),
                 z.vcpus * 1000, MemoryBytes(z.memory), Int64(Int64(Int64(z.disk * 1024) * 1024) * 1024))
  }

  predicate Launchable(z: Size, doks: set<string>) {
    z.available && z.slug in doks
  }

  function Fetched(sizes: seq<Size>, doks: set<string>, prices: PriceMap): seq<InstanceType>
    decreases |sizes|
  {
    if sizes == [] then []
    else
      var n := |sizes| - 1;
      Fetched(sizes[..n], doks, prices) +
      (if Launchable(sizes[n], doks) then [ToInstanceType(sizes[n], prices)] else [])
  }

  predicate Offers(t: InstanceType, region: string) {
    exists o :: o in t.offerings && o.region == region
  }

  function InRegion(types: seq<InstanceType>, region: string): seq<InstanceType> {
    Seqs.Filter((t: InstanceType) => Offers(t, region), types)
  }

  lemma OffersItsRegions(z: Size, prices: PriceMap, region: string)
    ensures Offers(ToInstanceType(z, prices), region) <==> region in z.regions
  {
  }

  // Within the amounts that fit nothing wraps, and the region requirement names exactly
  // the regions offered.
  lemma TypeDescribesItsSize(z: Size, prices: PriceMap)
    ensures var t := ToInstanceType(z, prices);
      && t.name == z.slug && t.cpuMilli == z.vcpus * 1000
      && (Fits(z.memory) ==> t.memoryBytes == z.memory * 0x10_0000)
      && (-0x2_0000_0000 <= z.disk < 0x2_0000_0000 ==> t.diskBytes == z.disk * 0x4000_0000)
      && forall region :: region in t.regions <==> Offers(t, region)
  {
    if Fits(z.memory) {
      BytesOf(z.memory, z.memory, 0);
    }
    forall region ensures Offers(ToInstanceType(z, prices), region) <==> region in z.regions {
      OffersItsRegions(z, prices, region);
    }
  }

  // Taking the launchable sizes of one region straight from the catalogue.
  function OfRegion(sizes: seq<Size>, doks: set<string>, region: string): seq<Size> {
    Seqs.Filter((z: Size) => Launchable(z, doks) && region in z.regions, sizes)
  }

  ghost predicate StandsFor(types: seq<InstanceType>, sizes: seq<Size>, prices: PriceMap) {
    |types| == |sizes| && forall i :: 0 <= i < |types| ==> types[i] == ToInstanceType(sizes[i], prices)
  }

  lemma FetchedOn(sizes: seq<Size>, doks: set<string>, prices: PriceMap, region: string)
    requires sizes != []
    ensures var n := |sizes| - 1;
      && OfRegion(sizes, doks, region) ==
           OfRegion(sizes[..n], doks, region) + (if Launchable(sizes[n], doks) && region in sizes[n].regions then [sizes[n]] else [])
      && InRegion(Fetched(sizes, doks, prices), region) ==
           InRegion(Fetched(sizes[..n], doks, prices), region) +
           (if Launchable(sizes[n], doks) && region in sizes[n].regions then [ToInstanceType(sizes[n], prices)] else [])
  {
    var n := |sizes| - 1;
    var rest, last := Fetched(sizes[..n], doks, prices), ToInstanceType(sizes[n], prices);
    OffersItsRegions(sizes[n], prices, region);
    if Launchable(sizes[n], doks) {
      assert Fetched(sizes, doks, prices) == rest + [last];
      assert (rest + [last])[..|rest|] == rest;
    } else {
      assert Fetched(sizes, doks, prices) == rest;
    }
  }

  // The fetched list cut to one region stands, entry by entry and in order, for the
  // launchable sizes of that region.
  lemma {:induction false} RegionListExact(sizes: seq<Size>, doks: set<string>, prices: PriceMap, region: string)
    ensures StandsFor(InRegion(Fetched(sizes, doks, prices), region), OfRegion(sizes, doks, region), prices)
    decreases |sizes|
  {
    if sizes != [] {
      RegionListExact(sizes[..|sizes| - 1], doks, prices, region);
      FetchedOn(sizes, doks, prices, region);
    }
  }

  // ---- Prices seen through the types ----

  ghost predicate SamePrices(z: Size, p: PriceMap, q: PriceMap) {
    forall region :: region in z.regions ==> OfferingPrice(p, z, region) == OfferingPrice(q, z, region)
  }

  lemma SameTypeSamePrices(z: Size, p: PriceMap, q: PriceMap)
    ensures ToInstanceType(z, p) == ToInstanceType(z, q) <==> SamePrices(z, p, q)
  {
    var s, t := OfferingsOf(z, z.regions, p), OfferingsOf(z, z.regions, q);
    if s == t {
      forall region | region in z.regions ensures OfferingPrice(p, z, region) == OfferingPrice(q, z, region) {
        var i :| 0 <= i < |z.regions| && z.regions[i] == region;
        assert s[i] == t[i];
      }
    }
  }

  lemma AppendsEqual<T>(s: seq<T>, t: seq<T>, x: T, y: T)
    requires |s| == |t|
    ensures s + [x] == t + [y] <==> s == t && x == y
  {
    if s + [x] == t + [y] {
      assert s == (s + [x])[..|s|] && t == (t + [y])[..|t|];
      assert x == (s + [x])[|s|] && y == (t + [y])[|t|];
    }
  }

  ghost predicate AllSamePrices(sizes: seq<Size>, doks: set<string>, p: PriceMap, q: PriceMap) {
    forall z :: z in sizes && Launchable(z, doks) ==> SamePrices(z, p, q)
  }

  lemma AllSamePricesOn(sizes: seq<Size>, doks: set<string>, p: PriceMap, q: PriceMap)
    requires sizes != []
    ensures var n := |sizes| - 1;
      AllSamePrices(sizes, doks, p, q) <==>
      AllSamePrices(sizes[..n], doks, p, q) && (Launchable(sizes[n], doks) ==> SamePrices(sizes[n], p, q))
  {
    var n := |sizes| - 1;
    assert forall z :: z in sizes <==> z in sizes[..n] || z == sizes[n] by {
      assert sizes == sizes[..n] + [sizes[n]];
    }
  }

  lemma {:induction false} SameListSamePrices(sizes: seq<Size>, doks: set<string>, p: PriceMap, q: PriceMap)
    ensures |Fetched(sizes, doks, p)| == |Fetched(sizes, doks, q)|
    ensures Fetched(sizes, doks, p) == Fetched(sizes, doks, q) <==> AllSamePrices(sizes, doks, p, q)
    decreases |sizes|
  {
    if sizes != [] {
      var n := |sizes| - 1;
      var s, t := Fetched(sizes[..n], doks, p), Fetched(sizes[..n], doks, q);
      var x, y := ToInstanceType(sizes[n], p), ToInstanceType(sizes[n], q);
      SameListSamePrices(sizes[..n], doks, p, q);
      AllSamePricesOn(sizes, doks, p, q);
      SameTypeSamePrices(sizes[n], p, q);
      AppendsEqual(s, t, x, y);
      if Launchable(sizes[n], doks) {
        assert Fetched(sizes, doks, p) == s + [x] && Fetched(sizes, doks, q) == t + [y];
      } else {
        assert Fetched(sizes, doks, p) == s && Fetched(sizes, doks, q) == t;
      }
    }
  }

  // With the same catalogue behind both, the fetched types are the same whether prices
  // were seeded or not, exactly when no launchable size has its price in some region
  // overruled by a later size of the same name. In particular they are if sizes of the
  // same name agree.
  lemma SeedingIsUnobservable(sizes: seq<Size>, doks: set<string>, prices: PriceMap)
    requires forall k :: Lookup(prices, k) == LastPrice(sizes, k)
    ensures Fetched(sizes, doks, prices) == Fetched(sizes, doks, map[]) <==>
      forall z, region :: z in sizes && Launchable(z, doks) && region in z.regions ==>
        LastPrice(sizes, PriceKey(z.slug, region)) == Some(z.priceHourly)
    ensures Consistent(sizes) ==> Fetched(sizes, doks, prices) == Fetched(sizes, doks, map[])
  {
    SameListSamePrices(sizes, doks, prices, map[]);
    RefreshIsUnobservable(sizes, prices);
    forall z, region | z in sizes && region in z.regions
      ensures OfferingPrice(prices, z, region) == OfferingPrice(map[], z, region) <==>
              LastPrice(sizes, PriceKey(z.slug, region)) == Some(z.priceHourly)
    {
      assert Prices(z, PriceKey(z.slug, region));
      assert Lookup(prices, PriceKey(z.slug, region)) == LastPrice(sizes, PriceKey(z.slug, region));
    }
  }

  ghost predicate Priced(t: InstanceType, o: Offering, sizes: seq<Size>) {
    exists z :: z in sizes && t.name == z.slug && o.region in z.regions && o.price == z.priceHourly
  }

  lemma OfferingCosts(sizes: seq<Size>, prices: PriceMap, z: Size, o: Offering)
    requires prices == map[] || forall k :: Lookup(prices, k) == LastPrice(sizes, k)
    requires z in sizes && o in OfferingsOf(z, z.regions, prices)
    ensures Priced(ToInstanceType(z, prices), o, sizes)
    ensures prices == map[] || Consistent(sizes) ==> o.price == z.priceHourly
  {
    var offerings := OfferingsOf(z, z.regions, prices);
    var i :| 0 <= i < |offerings| && offerings[i] == o;
    var k := PriceKey(z.slug, z.regions[i]);
    assert Prices(z, k);
    if prices != map[] {
      assert Lookup(prices, k) == LastPrice(sizes, k);
      var j :| 0 <= j < |sizes| && Prices(sizes[j], k) && LastPrice(sizes, k).value == sizes[j].priceHourly;
    }
  }

  // Seeded or not, every offering of a fetched type costs the hourly price of a size of
  // that name in that region.
  lemma {:induction false} OfferingsArePriced(sizes: seq<Size>, part: seq<Size>, doks: set<string>, prices: PriceMap, t: InstanceType, o: Offering)
    requires prices == map[] || forall k :: Lookup(prices, k) == LastPrice(sizes, k)
    requires (forall z :: z in part ==> z in sizes) && t in Fetched(part, doks, prices) && o in t.offerings
    ensures Priced(t, o, sizes)
    decreases |part|
  {
    var n := |part| - 1;
    assert part[n] in sizes;
    if t in Fetched(part[..n], doks, prices) {
      OfferingsArePriced(sizes, part[..n], doks, prices, t, o);
    } else {
      OfferingCosts(sizes, prices, part[n], o);
    }
  }

  // With sizes of the same name agreeing, and so in particular with distinct names, it
  // costs exactly what the size it stands for costs.
  lemma OfferingCostsItsSize(sizes: seq<Size>, prices: PriceMap, z: Size)
    requires prices == map[] || forall k :: Lookup(prices, k) == LastPrice(sizes, k)
    requires z in sizes && Consistent(sizes)
    ensures ToInstanceType(z, prices).offerings == seq(|z.regions|, i requires 0 <= i < |z.regions| => Offering(z.regions[i], z.priceHourly))
  {
    var offerings := ToInstanceType(z, prices).offerings;
    forall i | 0 <= i < |offerings| ensures offerings[i] == Offering(z.regions[i], z.priceHourly) {
      assert offerings[i] in offerings;
      OfferingCosts(sizes, prices, z, offerings[i]);
    }
  }

  // ---- The cached provider ----

  datatype Catalogue = Catalogue(doks: Option<set<string>>, sizes: Option<seq<Size>>)

  // What one fetch makes of the two API answers and the prices at hand.
  function FetchResult(api: Catalogue, prices: PriceMap): Result<seq<InstanceType>> {
    if api.doks.None? || api.sizes.None? then Err(ApiFailed)
    else Ok(Fetched(api.sizes.value, api.doks.value, prices))
  }

  datatype ListRequest = ListRequest(api: Catalogue, prices: PriceMap, region: string)

  // One List call: the cache after it, and its answer.
  function Serve(cache: seq<InstanceType>, q: ListRequest): (seq<InstanceType>, Result<seq<InstanceType>>) {
    if cache != [] then (cache, Ok(InRegion(cache, q.region)))
    else
      match FetchResult(q.api, q.prices)
      case Err(e) => (cache, Err(e))
      case Ok(types) => (types, Ok(InRegion(types, q.region)))
  }

  // An empty cache is Go's nil slice: it is never told apart from an unfilled one.
  class Provider {
    const pricing: Pricing.Provider
    var cache: seq<InstanceType>

    constructor (pricing: Pricing.Provider)
      ensures this.pricing == pricing && cache == []
    {
      this.pricing := pricing;
      cache := [];
    }

    // api is what the two endpoints answer, if they are asked.
    method Fetch(api: Catalogue) returns (r: Result<seq<InstanceType>>)
      ensures r == FetchResult(api, pricing.prices)
    {
      if api.doks.None? || api.sizes.None? {
        return Err(ApiFailed);
      }
      var sizes, doks := api.sizes.value, api.doks.value;
      var types := [];
      for i := 0 to |sizes|
        invariant types == Fetched(sizes[..i], doks, pricing.prices)
      {
        assert sizes[..i + 1][..i] == sizes[..i];
        if sizes[i].available && sizes[i].slug in doks {
          var t := Convert(sizes[i]);
          types := types + [t];
        }
      }
      assert sizes[..|sizes|] == sizes;
      r := Ok(types);
    }

    method Convert(z: Size) returns (t: InstanceType)
      ensures t == ToInstanceType(z, pricing.prices)
    {
      var offerings := [];
      for i := 0 to |z.regions|
        invariant offerings == OfferingsOf(z, z.regions[..i], pricing.prices)
      {
        assert z.regions[..i + 1][..i] == z.regions[..i];
        var price := pricing.InstanceTypePrice(z.slug, z.regions[i]);
        offerings := offerings + [Offering(z.regions[i], if price.Some? then price.value else z.priceHourly)];
      }
      assert z.regions[..|z.regions|] == z.regions;
      var memoryBytes := Int64(Int64(z.memory * 1024) * 1024);
      t := InstanceType(z.slug, z.regions, offerings, z.vcpus * 1000, memoryBytes,
                        Int64(Int64(Int64(z.disk * 1024) * 1024) * 1024));
    }

    method FilterByRegion(types: seq<InstanceType>, region: string) returns (r: seq<InstanceType>)
      ensures r == InRegion(types, region)
    {
      r := [];
      for i := 0 to |types|
        invariant r == InRegion(types[..i], region)
      {
        assert types[..i + 1][..i] == types[..i];
        var j := 0;
        while j < |types[i].offerings| && types[i].offerings[j].region != region
          invariant j <= |types[i].offerings|
          invariant forall k :: 0 <= k < j ==> types[i].offerings[k].region != region
        {
          j := j + 1;
        }
        if j < |types[i].offerings| {
          assert types[i].offerings[j] in types[i].offerings;
          r := r + [types[i]];
        }
      }
      assert types[..|types|] == types;
    }

    method List(api: Catalogue, region: string) returns (r: Result<seq<InstanceType>>)
      modifies `cache
      ensures (cache, r) == Serve(old(cache), ListRequest(api, pricing.prices, region))
    {
      if cache != [] {
        var filtered := FilterByRegion(cache, region);
        return Ok(filtered);
      }
      var fetched := Fetch(api);
      if fetched.Err? {
        return Err(fetched.error);
      }
      cache := fetched.value;
      var filtered := FilterByRegion(fetched.value, region);
      r := Ok(filtered);
    }
  }

  // ---- The cache over a whole history ----

  function CacheAfter(history: seq<ListRequest>): seq<InstanceType>
    decreases |history|
  {
    if history == [] then []
    else Serve(CacheAfter(history[..|history| - 1]), history[|history| - 1]).0
  }

  predicate Fills(q: ListRequest) {
    FetchResult(q.api, q.prices).Ok? && FetchResult(q.api, q.prices).value != []
  }

  // Until the first fetch that yields anything every fetch leaves the cache empty;
  // from then on the cache is what that fetch yielded, whatever the API says later.
  lemma {:induction false} CacheIsFirstYield(history: seq<ListRequest>, i: nat)
    requires i <= |history| && forall j :: 0 <= j < i ==> !Fills(history[j])
    ensures i == |history| ==> CacheAfter(history) == []
    ensures i < |history| && Fills(history[i]) ==>
      CacheAfter(history) == FetchResult(history[i].api, history[i].prices).value
    decreases |history|
  {
    if history != [] {
      var n := |history| - 1;
      if i <= n {
        CacheIsFirstYield(history[..n], i);
      } else {
        CacheIsFirstYield(history[..n], n);
        assert !Fills(history[n]);
      }
    }
  }

  // Every answer after the fill is the filling catalogue cut to the region asked for.
  lemma AnswersAfterFill(history: seq<ListRequest>, i: nat, q: ListRequest)
    requires i < |history| && Fills(history[i]) && forall j :: 0 <= j < i ==> !Fills(history[j])
    ensures var r := Serve(CacheAfter(history), q).1;
      var chosen := OfRegion(history[i].api.sizes.value, history[i].api.doks.value, q.region);
      r.Ok? && StandsFor(r.value, chosen, history[i].prices)
  {
    CacheIsFirstYield(history, i);
    RegionListExact(history[i].api.sizes.value, history[i].api.doks.value, history[i].prices, q.region);
  }
}
