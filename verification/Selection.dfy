// Which size Create launches: the filter by requirements, the in-place sort, and what
// the first element then stands for in the size catalogue.
module Selection {
  import opened Wrappers
  import opened Pricing
  import opened InstanceTypes
  import opened Claims
  import Seqs

  // ---- Sorting ----

  predicate Less(x: InstanceType, y: InstanceType) {
    if x.cpuMilli != y.cpuMilli then x.cpuMilli < y.cpuMilli else x.memoryBytes < y.memoryBytes
  }

  predicate Ordered(s: seq<InstanceType>) {
    forall i, j :: 0 <= i < j < |s| ==> !Less(s[j], s[i])
  }

  // A strict weak order: what sort.Slice asks of its comparison.
  lemma LessIsStrictWeak(x: InstanceType, y: InstanceType, z: InstanceType)
    ensures !(Less(x, y) && Less(y, x))
    ensures Less(x, y) && Less(y, z) ==> Less(x, z)
    ensures Less(x, z) ==> Less(x, y) || Less(y, z)
  {
  }

  lemma PartIsNotLarger<T>(part: multiset<T>, whole: multiset<T>)
    requires part <= whole
    ensures |part| <= |whole|
  {
    assert |whole - part| == |whole| - |part|;
  }

  // Of two rearrangements, the first i + 1 of one and the last from i of the other meet.
  lemma HeadMeetsTail<T>(s: seq<T>, t: seq<T>, i: nat)
    requires i < |s| == |t| && multiset(s) == multiset(t)
    ensures exists p, q :: 0 <= p <= i <= q < |t| && s[p] == t[q]
  {
    var head, front, back := s[..i + 1], t[..i], t[i..];
    assert s == head + s[i + 1..] && t == front + back;
    if multiset(head) <= multiset(front) {
      PartIsNotLarger(multiset(head), multiset(front));
      assert false;
    } else {
      var x :| multiset(head)[x] > multiset(front)[x];
      assert multiset(s)[x] == multiset(head)[x] + multiset(s[i + 1..])[x];
      assert multiset(t)[x] == multiset(front)[x] + multiset(back)[x];
      assert x in multiset(head) && x in multiset(back);
      var p :| 0 <= p < |head| && head[p] == x;
      var q :| 0 <= q < |back| && back[q] == x;
      assert s[p] == t[i + q];
    }
  }

  // So any two sorting algorithms put sizes the comparison cannot tell apart in the same place.
  lemma SortsAgreeUpToTies(s: seq<InstanceType>, t: seq<InstanceType>, i: nat)
    requires Ordered(s) && Ordered(t) && multiset(s) == multiset(t) && i < |s| == |t|
    ensures !Less(s[i], t[i]) && !Less(t[i], s[i])
  {
    if Less(s[i], t[i]) {
      HeadMeetsTail(s, t, i);
      assert false;
    }
    if Less(t[i], s[i]) {
      HeadMeetsTail(t, s, i);
      assert false;
    }
  }

  // sort.Slice promises no more than this: an ordered rearrangement, ties in any order.
  method SortByResources(a: array<InstanceType>)
    modifies a
    ensures Ordered(a[..]) && multiset(a[..]) == old(multiset(a[..]))
  {
    for i := 0 to a.Length
      invariant Ordered(a[..i])
      invariant multiset(a[..]) == old(multiset(a[..]))
    {
      var j := i;
      while j > 0 && Less(a[j], a[j - 1])
        invariant j <= i
        invariant forall p, q :: 0 <= p < q <= i && q != j ==> !Less(a[q], a[p])
        invariant multiset(a[..]) == old(multiset(a[..]))
      {
        a[j], a[j - 1] := a[j - 1], a[j];
        j := j - 1;
      }
    }
    assert a[..a.Length] == a[..];
  }

  // ---- Filtering by requirements ----

  predicate NamesTypes(q: Requirement) {
    q.key == LABEL_INSTANCE_TYPE && q.operator == In
  }

  // Only the first requirement of the right kind is looked at.
  function AllowedTypes(reqs: seq<Requirement>): (r: Option<set<string>>)
    ensures r.None? <==> forall q :: q in reqs ==> !(q.key == LABEL_INSTANCE_TYPE && q.operator.In?)
    ensures r.Some? ==> exists i :: 0 <= i < |reqs| && NamesTypes(reqs[i]) && r.value == (set v | v in reqs[i].values) &&
                                    forall j :: 0 <= j < i ==> !NamesTypes(reqs[j])
  {
    if reqs == [] then None
    else if NamesTypes(reqs[0]) then Some(set v | v in reqs[0].values)
    else
      assert reqs == [reqs[0]] + reqs[1..];
      AllowedTypes(reqs[1..])
  }

  // A requirement on another key, or with another operator, says nothing here, wherever it stands.
  lemma {:induction false} OtherRequirementsAreIgnored(front: seq<Requirement>, q: Requirement, back: seq<Requirement>)
    requires q.key != LABEL_INSTANCE_TYPE || !q.operator.In?
    ensures AllowedTypes(front + [q] + back) == AllowedTypes(front + back)
  {
    var all, others := front + [q] + back, front + back;
    if front == [] {
      assert all[1..] == back == others;
    } else {
      assert all[0] == front[0] == others[0];
      assert all[1..] == front[1..] + [q] + back && others[1..] == front[1..] + back;
      OtherRequirementsAreIgnored(front[1..], q, back);
    }
  }

  // The first In requirement on the instance type decides, whatever stands around it.
  lemma {:induction false} FirstRequirementDecides(front: seq<Requirement>, values: seq<string>, back: seq<Requirement>)
    requires forall q :: q in front ==> q.key != LABEL_INSTANCE_TYPE || !q.operator.In?
    ensures AllowedTypes(front + [Requirement(LABEL_INSTANCE_TYPE, In, values)] + back) == Some(set v | v in values)
  {
    var all := front + [Requirement(LABEL_INSTANCE_TYPE, In, values)] + back;
    if front != [] {
      assert all[0] == front[0] && front[0] in front;
      assert all[1..] == front[1..] + [Requirement(LABEL_INSTANCE_TYPE, In, values)] + back;
      FirstRequirementDecides(front[1..], values, back);
    }
  }

  function Allowed(types: seq<InstanceType>, names: set<string>): seq<InstanceType> {
    Seqs.Filter((t: InstanceType) => t.name in names, types)
  }

  // Without an instance-type requirement the caller's own list comes back, neither
  // filtered nor sorted. Otherwise the answer is a new list; the caller's is left alone.
  method FilterByRequirements(types: array<InstanceType>, reqs: seq<Requirement>) returns (out: array<InstanceType>)
    ensures AllowedTypes(reqs).None? ==> out == types
    ensures AllowedTypes(reqs).Some? ==>
      && fresh(out) && Ordered(out[..])
      && multiset(out[..]) == multiset(Allowed(types[..], AllowedTypes(reqs).value))
  {
    var i := 0;
    while i < |reqs| && !NamesTypes(reqs[i])
      invariant i <= |reqs|
      invariant AllowedTypes(reqs) == AllowedTypes(reqs[i..])
    {
      i := i + 1;
    }
    if i == |reqs| {
      return types;
    }
    var names: set<string> := set v | v in reqs[i].values;
    var filtered: seq<InstanceType> := [];
    for k := 0 to types.Length
      invariant filtered == Allowed(types[..k], names)
    {
      assert types[..k + 1][..k] == types[..k];
      if types[k].name in names {
        filtered := filtered + [types[k]];
      }
    }
    assert types[..types.Length] == types[..];
    out := new InstanceType[|filtered|](n requires 0 <= n < |filtered| => filtered[n]);
    assert out[..] == filtered;
    SortByResources(out);
  }

  // Every allowed type comes out as often as it went in, and nothing else does.
  lemma ComesOutAsOften(types: seq<InstanceType>, names: set<string>, out: seq<InstanceType>, t: InstanceType)
    requires multiset(out) == multiset(Allowed(types, names))
    ensures multiset(out)[t] == if t.name in names then multiset(types)[t] else 0
  {
    Seqs.FilterCounts((u: InstanceType) => u.name in names, types, t);
  }

  // ---- What is selected ----

  predicate Candidate(z: Size, doks: set<string>, region: string, names: set<string>) {
    z.available && z.slug in doks && region in z.regions && z.slug in names
  }

  predicate Smaller(y: Size, z: Size) {
    if y.vcpus != z.vcpus then y.vcpus < z.vcpus else y.memory < z.memory
  }

  lemma SameMembers<T>(s: seq<T>, t: seq<T>)
    requires multiset(s) == multiset(t)
    ensures |s| == |t| && forall x :: x in s <==> x in t
  {
    assert |multiset(s)| == |s| && |multiset(t)| == |t|;
    forall x ensures x in s <==> x in t {
      assert x in s <==> x in multiset(s);
      assert x in t <==> x in multiset(t);
    }
  }

  lemma CandidateIsSelectable(sizes: seq<Size>, doks: set<string>, prices: PriceMap, region: string, names: set<string>, z: Size)
    requires z in sizes && Candidate(z, doks, region, names)
    ensures ToInstanceType(z, prices) in Allowed(InRegion(Fetched(sizes, doks, prices), region), names)
  {
    var types, chosen := InRegion(Fetched(sizes, doks, prices), region), OfRegion(sizes, doks, region);
    RegionListExact(sizes, doks, prices, region);
    Seqs.FilterKeeps((y: Size) => Launchable(y, doks) && region in y.regions, sizes, z);
    var i :| 0 <= i < |chosen| && chosen[i] == z;
    assert types[i] in types;
    Seqs.FilterKeeps((u: InstanceType) => u.name in names, types, types[i]);
  }

  lemma SelectableIsCandidate(sizes: seq<Size>, doks: set<string>, prices: PriceMap, region: string, names: set<string>, t: InstanceType)
    requires t in Allowed(InRegion(Fetched(sizes, doks, prices), region), names)
    ensures exists z :: z in sizes && Candidate(z, doks, region, names) && t == ToInstanceType(z, prices)
  {
    var types, chosen := InRegion(Fetched(sizes, doks, prices), region), OfRegion(sizes, doks, region);
    RegionListExact(sizes, doks, prices, region);
    var i :| 0 <= i < |types| && types[i] == t;
    assert chosen[i] in sizes && Candidate(chosen[i], doks, region, names);
  }

  // A type can be selected exactly if it stands for a candidate of the catalogue.
  lemma SelectableExactly(sizes: seq<Size>, doks: set<string>, prices: PriceMap, region: string, names: set<string>, t: InstanceType)
    ensures t in Allowed(InRegion(Fetched(sizes, doks, prices), region), names) <==>
      exists z :: z in sizes && Candidate(z, doks, region, names) && t == ToInstanceType(z, prices)
  {
    if t in Allowed(InRegion(Fetched(sizes, doks, prices), region), names) {
      SelectableIsCandidate(sizes, doks, prices, region, names, t);
    } else {
      forall z | z in sizes && Candidate(z, doks, region, names) ensures t != ToInstanceType(z, prices) {
        CandidateIsSelectable(sizes, doks, prices, region, names, z);
      }
    }
  }

  lemma ComparedAsSizes(y: Size, z: Size, prices: PriceMap)
    requires Fits(y.memory) && Fits(z.memory)
    ensures Less(ToInstanceType(y, prices), ToInstanceType(z, prices)) <==> Smaller(y, z)
  {
    BytesOf(y.memory, y.memory, 0);
    BytesOf(z.memory, z.memory, 0);
  }

  // Any ordered rearrangement of the allowed types begins with a candidate of the
  // catalogue no candidate is smaller than, by vCPUs and then memory.
  lemma SelectsTheLeastCandidate(sizes: seq<Size>, doks: set<string>, prices: PriceMap, region: string, names: set<string>,
                                 out: seq<InstanceType>)
    requires Ordered(out)
    requires multiset(out) == multiset(Allowed(InRegion(Fetched(sizes, doks, prices), region), names))
    requires forall z :: z in sizes && Candidate(z, doks, region, names) ==> Fits(z.memory)
    ensures out == [] <==> forall z :: z in sizes ==> !Candidate(z, doks, region, names)
    ensures out != [] ==>
      exists z :: z in sizes && Candidate(z, doks, region, names) && out[0] == ToInstanceType(z, prices) &&
                  forall y :: y in sizes && Candidate(y, doks, region, names) ==> !Smaller(y, z)
  {
    var allowed := Allowed(InRegion(Fetched(sizes, doks, prices), region), names);
    SameMembers(out, allowed);
    forall z | z in sizes && Candidate(z, doks, region, names) ensures ToInstanceType(z, prices) in out {
      SelectableExactly(sizes, doks, prices, region, names, ToInstanceType(z, prices));
    }
    if out != [] {
      assert out[0] in out;
      SelectableExactly(sizes, doks, prices, region, names, out[0]);
      var z :| z in sizes && Candidate(z, doks, region, names) && out[0] == ToInstanceType(z, prices);
      forall y | y in sizes && Candidate(y, doks, region, names) ensures !Smaller(y, z) {
        ComparedAsSizes(y, z, prices);
        assert ToInstanceType(y, prices) in out;
      }
    }
  }

  const HUGE := Size("huge", true, 1, 0x800_0000_0000, 0, ["nyc1"], 1.0)
  const TINY := Size("tiny", true, 1, 1, 0, ["nyc1"], 1.0)

  lemma HugeComparesLess()
    ensures Less(ToInstanceType(HUGE, map[]), ToInstanceType(TINY, map[])) && Smaller(TINY, HUGE)
    ensures !Less(ToInstanceType(TINY, map[]), ToInstanceType(HUGE, map[]))
  {
    assert MemoryBytes(0x800_0000_0000) < 0 < MemoryBytes(1);
  }

  const BOTH := {"tiny", "huge"}

  function BothAllowed(): seq<InstanceType> {
    Allowed(InRegion(Fetched([TINY, HUGE], BOTH, map[]), "nyc1"), BOTH)
  }

  lemma OnlyTheseTwo(t: InstanceType)
    ensures t in BothAllowed() <==> t == ToInstanceType(TINY, map[]) || t == ToInstanceType(HUGE, map[])
  {
    SelectableExactly([TINY, HUGE], BOTH, map[], "nyc1", BOTH, t);
    assert Candidate(TINY, BOTH, "nyc1", BOTH) && Candidate(HUGE, BOTH, "nyc1", BOTH);
    assert TINY in [TINY, HUGE] && HUGE in [TINY, HUGE];
  }

  // Beyond the sizes that fit the order is lost: 2^43 MB count as negative bytes, and
  // whatever way the list is sorted, the larger size comes first.
  lemma OverflowMisleads()
    ensures Smaller(TINY, HUGE)
    ensures forall out :: Ordered(out) && multiset(out) == multiset(BothAllowed()) ==>
      out != [] && out[0] == ToInstanceType(HUGE, map[])
  {
    var huge := ToInstanceType(HUGE, map[]);
    HugeComparesLess();
    forall out | Ordered(out) && multiset(out) == multiset(BothAllowed()) ensures out != [] && out[0] == huge {
      SameMembers(out, BothAllowed());
      OnlyTheseTwo(huge);
      var j :| 0 <= j < |out| && out[j] == huge;
      OnlyTheseTwo(out[0]);
      assert j == 0 || !Less(out[j], out[0]);
    }
  }
}
