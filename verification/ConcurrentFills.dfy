// The two lazily filled caches when several calls run at once. A call looks at the cache
// under the read lock, fetches without any lock, and writes under the write lock, so
// several calls may have found the cache empty before the first of them writes.
module ConcurrentFills {
  import opened Wrappers
  import opened InstanceTypes
  import opened Regions

  // answer is what the API said to the call.
  datatype Op<A> = Look(k: nat) | Ask(k: nat, answer: A) | Write(k: nat)

  // How a cache starts, what a fetch makes of the API's answer, and what a write does.
  datatype Kind<!A, !C, !V> = Kind(empty: C, fetch: A -> Option<V>, write: (C, V) -> C)

  // The cache, and the calls between their look and their write: None before the
  // fetch, Some after it.
  datatype State<C, V> = State(cache: C, calls: map<nat, Option<V>>)

  predicate May<A, C, V>(s: State<C, V>, op: Op<A>) {
    match op
    case Look(k) => k !in s.calls
    case Ask(k, _) => k in s.calls && s.calls[k].None?
    case Write(k) => k in s.calls && s.calls[k].Some?
  }

  // A call that finds the cache filled, or whose fetch fails, is over.
  function Next<A, C(==), V>(kind: Kind<A, C, V>, s: State<C, V>, op: Op<A>): State<C, V>
    requires May(s, op)
  {
    match op
    case Look(k) => if s.cache == kind.empty then s.(calls := s.calls[k := None]) else s
    case Ask(k, answer) =>
      if kind.fetch(answer).None? then s.(calls := s.calls - {k}) else s.(calls := s.calls[k := kind.fetch(answer)])
    case Write(k) => State(kind.write(s.cache, s.calls[k].value), s.calls - {k})
  }

  // The state after the operations, if they can happen in this order.
  function After<A, C(==), V>(kind: Kind<A, C, V>, ops: seq<Op<A>>): Option<State<C, V>>
    decreases |ops|
  {
    if ops == [] then Some(State(kind.empty, map[]))
    else
      var before := After(kind, ops[..|ops| - 1]);
      if before.None? || !May(before.value, ops[|ops| - 1]) then None
      else Some(Next(kind, before.value, ops[|ops| - 1]))
  }

  // ---- What has been written ----

  // The values written, in order.
  function Written<A, C(==), V>(kind: Kind<A, C, V>, ops: seq<Op<A>>): seq<V>
    requires After(kind, ops).Some?
    decreases |ops|
  {
    if ops == [] then []
    else
      var n := |ops| - 1;
      Written(kind, ops[..n]) +
      (if ops[n].Write? then [After(kind, ops[..n]).value.calls[ops[n].k].value] else [])
  }

  function Fold<A, C, V>(kind: Kind<A, C, V>, values: seq<V>): C
    decreases |values|
  {
    if values == [] then kind.empty
    else kind.write(Fold(kind, values[..|values| - 1]), values[|values| - 1])
  }

  lemma FoldOn<A, C, V>(kind: Kind<A, C, V>, values: seq<V>, v: V)
    ensures Fold(kind, values + [v]) == kind.write(Fold(kind, values), v)
  {
    assert (values + [v])[..|values|] == values;
  }

  // Under any interleaving the cache is what the writes, one after the other, make of
  // the empty one.
  lemma {:induction false} CacheFoldsWrites<A, C, V>(kind: Kind<A, C, V>, ops: seq<Op<A>>)
    requires After(kind, ops).Some?
    ensures After(kind, ops).value.cache == Fold(kind, Written(kind, ops))
    decreases |ops|
  {
    if ops != [] {
      var n := |ops| - 1;
      CacheFoldsWrites(kind, ops[..n]);
      if ops[n].Write? {
        FoldOn(kind, Written(kind, ops[..n]), After(kind, ops[..n]).value.calls[ops[n].k].value);
      } else {
        assert Written(kind, ops) == Written(kind, ops[..n]);
      }
    }
  }

  // Some call was given an answer that its fetch turned into v.
  ghost predicate Fetched<A, C, V>(kind: Kind<A, C, V>, ops: seq<Op<A>>, v: V) {
    exists i :: 0 <= i < |ops| && ops[i].Ask? && kind.fetch(ops[i].answer) == Some(v)
  }

  lemma FetchedOn<A, C, V>(kind: Kind<A, C, V>, ops: seq<Op<A>>, n: nat, v: V)
    requires n <= |ops| && Fetched(kind, ops[..n], v)
    ensures Fetched(kind, ops, v)
  {
    var i :| 0 <= i < n && ops[..n][i].Ask? && kind.fetch(ops[..n][i].answer) == Some(v);
    assert ops[i].Ask?;
  }

  // Whatever is written, or about to be, is what a fetch made of one answer.
  lemma {:induction false} WritesAreFetched<A, C, V>(kind: Kind<A, C, V>, ops: seq<Op<A>>)
    requires After(kind, ops).Some?
    ensures forall v :: v in Written(kind, ops) ==> Fetched(kind, ops, v)
    ensures forall k :: k in After(kind, ops).value.calls && After(kind, ops).value.calls[k].Some? ==>
      Fetched(kind, ops, After(kind, ops).value.calls[k].value)
    decreases |ops|
  {
    if ops != [] {
      var n := |ops| - 1;
      WritesAreFetched(kind, ops[..n]);
      forall v | Fetched(kind, ops[..n], v) ensures Fetched(kind, ops, v) {
        FetchedOn(kind, ops, n, v);
      }
    }
  }

  // The call k looked at l, found the cache empty, and has done nothing since but, if
  // asked is given, fetch successfully there.
  ghost predicate UnderWay<A, C, V>(kind: Kind<A, C, V>, ops: seq<Op<A>>, k: nat, l: int, asked: Option<int>) {
    && 0 <= l < |ops| && ops[l] == Look(k)
    && After(kind, ops[..l]).Some? && After(kind, ops[..l]).value.cache == kind.empty
    && (asked.Some? ==> l < asked.value < |ops| && ops[asked.value].Ask?
                        && ops[asked.value].k == k && kind.fetch(ops[asked.value].answer).Some?)
    && forall m :: l < m < |ops| && ops[m].k == k ==> asked == Some(m)
  }

  lemma UnderWayOn<A, C, V>(kind: Kind<A, C, V>, ops: seq<Op<A>>, k: nat, l: int, asked: Option<int>)
    requires ops != [] && UnderWay(kind, ops[..|ops| - 1], k, l, asked) && ops[|ops| - 1].k != k
    ensures UnderWay(kind, ops, k, l, asked)
  {
    assert ops[..|ops| - 1][..l] == ops[..l];
  }

  lemma UnderWayAsked<A, C, V>(kind: Kind<A, C, V>, ops: seq<Op<A>>, k: nat, l: int)
    requires ops != [] && UnderWay(kind, ops[..|ops| - 1], k, l, None)
    requires ops[|ops| - 1].Ask? && ops[|ops| - 1].k == k && kind.fetch(ops[|ops| - 1].answer).Some?
    ensures UnderWay(kind, ops, k, l, Some(|ops| - 1))
  {
    assert ops[..|ops| - 1][..l] == ops[..l];
  }

  // Only a call that found the cache empty fetches, a failed fetch ends it, and what it
  // holds to write is what its own one fetch made of its answer.
  lemma {:induction false} OnlyOwnFetchIsWritten<A, C, V>(kind: Kind<A, C, V>, ops: seq<Op<A>>, k: nat)
    requires After(kind, ops).Some? && k in After(kind, ops).value.calls
    ensures var held := After(kind, ops).value.calls[k];
      exists l, asked :: UnderWay(kind, ops, k, l, asked)
        && held == if asked.Some? then kind.fetch(ops[asked.value].answer) else None
    decreases |ops|
  {
    var n := |ops| - 1;
    if ops[n].k != k {
      OnlyOwnFetchIsWritten(kind, ops[..n], k);
      var l, asked :| UnderWay(kind, ops[..n], k, l, asked)
        && After(kind, ops[..n]).value.calls[k] == if asked.Some? then kind.fetch(ops[..n][asked.value].answer) else None;
      UnderWayOn(kind, ops, k, l, asked);
    } else if ops[n].Ask? {
      OnlyOwnFetchIsWritten(kind, ops[..n], k);
      var l, asked :| UnderWay(kind, ops[..n], k, l, asked)
        && After(kind, ops[..n]).value.calls[k] == if asked.Some? then kind.fetch(ops[..n][asked.value].answer) else None;
      UnderWayAsked(kind, ops, k, l);
    } else {
      assert UnderWay(kind, ops, k, n, None);
    }
  }

  // ---- Instance types: a write replaces ----

  datatype Source = Source(api: Catalogue, prices: PriceMap)

  function TypesFrom(source: Source): Option<seq<InstanceType>> {
    match FetchResult(source.api, source.prices)
    case Ok(types) => Some(types)
    case Err(_) => None
  }

  type TypesState = State<seq<InstanceType>, seq<InstanceType>>

  const TYPES: Kind<Source, seq<InstanceType>, seq<InstanceType>> := Kind([], TypesFrom, (c, types) => types)

  // The cache is the value of the last write, hence empty or one whole fetch of one
  // catalogue, never a mixture.
  lemma TypeCacheIsLastWrite(ops: seq<Op<Source>>)
    requires After(TYPES, ops).Some?
    ensures var cache, written := After(TYPES, ops).value.cache, Written(TYPES, ops);
      && cache == (if written == [] then [] else written[|written| - 1])
      && (cache == [] || Fetched(TYPES, ops, cache))
  {
    CacheFoldsWrites(TYPES, ops);
    WritesAreFetched(TYPES, ops);
  }

  // A filled cache is emptied by a step exactly if the step writes a fetch that found nothing.
  lemma UnfillsExactly(s: TypesState, op: Op<Source>)
    requires s.cache != [] && May(s, op)
    ensures Next(TYPES, s, op).cache == [] <==> op.Write? && s.calls[op.k] == Some([])
  {
  }

  // The write at j puts v there, and no write follows.
  ghost predicate WritesLast(ops: seq<Op<Source>>, j: int, v: seq<InstanceType>) {
    && 0 <= j < |ops| && ops[j].Write? && After(TYPES, ops[..j]).Some?
    && ops[j].k in After(TYPES, ops[..j]).value.calls && After(TYPES, ops[..j]).value.calls[ops[j].k] == Some(v)
    && forall i :: j < i < |ops| ==> !ops[i].Write?
  }

  lemma WritesLastOn(ops: seq<Op<Source>>, j: int, v: seq<InstanceType>)
    requires ops != [] && WritesLast(ops[..|ops| - 1], j, v) && !ops[|ops| - 1].Write?
    ensures WritesLast(ops, j, v)
  {
    assert ops[..|ops| - 1][..j] == ops[..j];
  }

  // From m on either nothing is written and the cache stays, or it is what was written last.
  lemma {:induction false} SinceWrite(ops: seq<Op<Source>>, m: nat)
    requires m <= |ops| && After(TYPES, ops).Some?
    ensures After(TYPES, ops[..m]).Some?
    ensures
      || (After(TYPES, ops).value.cache == After(TYPES, ops[..m]).value.cache && forall i :: m <= i < |ops| ==> !ops[i].Write?)
      || exists j :: m <= j < |ops| && WritesLast(ops, j, After(TYPES, ops).value.cache)
    decreases |ops|
  {
    if m == |ops| {
      assert ops[..m] == ops;
    } else {
      var n := |ops| - 1;
      SinceWrite(ops[..n], m);
      assert ops[..n][..m] == ops[..m];
      if ops[n].Write? {
        assert WritesLast(ops, n, After(TYPES, ops).value.cache);
      } else if j :| m <= j < n && WritesLast(ops[..n], j, After(TYPES, ops[..n]).value.cache) {
        WritesLastOn(ops, j, After(TYPES, ops).value.cache);
      }
    }
  }

  // Over a whole run: a cache filled after m operations is empty at the end exactly if
  // the last write, after those m, was of a fetch that found nothing.
  lemma FilledCacheIsEmptiedExactly(ops: seq<Op<Source>>, m: nat)
    requires m <= |ops| && After(TYPES, ops).Some?
    requires After(TYPES, ops[..m]).Some? && After(TYPES, ops[..m]).value.cache != []
    ensures After(TYPES, ops).value.cache == [] <==> exists j :: m <= j < |ops| && WritesLast(ops, j, [])
  {
    SinceWrite(ops, m);
  }

  // What a List call for a region answers when it takes its last step in state s.
  ghost predicate Answers(s: TypesState, op: Op<Source>, region: string, r: Result<seq<InstanceType>>)
    requires May(s, op)
  {
    match op
    case Look(_) => s.cache != [] && r == Ok(InRegion(s.cache, region))
    case Ask(_, source) => FetchResult(source.api, source.prices).Err? && r == Err(ApiFailed)
    case Write(k) => r == Ok(InRegion(s.calls[k].value, region))
  }

  ghost predicate Yields(source: Source, region: string, types: seq<InstanceType>) {
    && source.api.sizes.Some? && source.api.doks.Some?
    && StandsFor(types, OfRegion(source.api.sizes.value, source.api.doks.value, region), source.prices)
  }

  // Every list answered under any interleaving stands, entry by entry, for the
  // launchable sizes of the region in one catalogue one call was given.
  lemma EveryAnswerIsOneCatalogue(ops: seq<Op<Source>>, op: Op<Source>, region: string, types: seq<InstanceType>)
    requires After(TYPES, ops).Some? && May(After(TYPES, ops).value, op)
    requires Answers(After(TYPES, ops).value, op, region, Ok(types))
    ensures exists i :: 0 <= i < |ops| && ops[i].Ask? && Yields(ops[i].answer, region, types)
  {
    var s := After(TYPES, ops).value;
    var whole := if op.Look? then s.cache else s.calls[op.k].value;
    TypeCacheIsLastWrite(ops);
    WritesAreFetched(TYPES, ops);
    assert Fetched(TYPES, ops, whole);
    var i :| 0 <= i < |ops| && ops[i].Ask? && TypesFrom(ops[i].answer) == Some(whole);
    var source := ops[i].answer;
    RegionListExact(source.api.sizes.value, source.api.doks.value, source.prices, region);
    assert Yields(source, region, types);
  }

  // ---- Two calls that both found the cache empty ----

  function TwoFills<A>(a: A, b: A): seq<Op<A>> {
    [Look(0), Look(1), Ask(0, a), Ask(1, b), Write(0), Write(1)]
  }

  lemma Played<A, C, V>(kind: Kind<A, C, V>, ops: seq<Op<A>>, op: Op<A>, s: State<C, V>, t: State<C, V>)
    returns (longer: seq<Op<A>>)
    requires After(kind, ops) == Some(s) && May(s, op) && Next(kind, s, op) == t
    ensures longer == ops + [op] && After(kind, longer) == Some(t)
  {
    longer := ops + [op];
    assert longer[..|ops|] == ops;
  }

  lemma BothAsk<A, C, V>(kind: Kind<A, C, V>, a: A, b: A, v: V, w: V)
    requires kind.fetch(a) == Some(v) && kind.fetch(b) == Some(w)
    ensures After(kind, TwoFills(a, b)[..4]) == Some(State(kind.empty, map[0 := Some(v), 1 := Some(w)]))
  {
    var none: Option<V> := None;
    var ops := Played(kind, [], Look(0), State(kind.empty, map[]), State(kind.empty, map[0 := none]));
    ops := Played(kind, ops, Look(1), State(kind.empty, map[0 := none]), State(kind.empty, map[0 := none, 1 := none]));
    ops := Played(kind, ops, Ask(0, a), State(kind.empty, map[0 := none, 1 := none]),
                  State(kind.empty, map[0 := Some(v), 1 := none]));
    ops := Played(kind, ops, Ask(1, b), State(kind.empty, map[0 := Some(v), 1 := none]),
                  State(kind.empty, map[0 := Some(v), 1 := Some(w)]));
    assert ops == TwoFills(a, b)[..4];
  }

  lemma BothWrite<A, C, V>(kind: Kind<A, C, V>, a: A, b: A, v: V, w: V)
    requires kind.fetch(a) == Some(v) && kind.fetch(b) == Some(w)
    ensures After(kind, TwoFills(a, b)[..5]) == Some(State(kind.write(kind.empty, v), map[1 := Some(w)]))
    ensures After(kind, TwoFills(a, b)) == Some(State(kind.write(kind.write(kind.empty, v), w), map[]))
  {
    BothAsk(kind, a, b, v, w);
    var one := kind.write(kind.empty, v);
    var ops := Played(kind, TwoFills(a, b)[..4], Write(0),
                      State(kind.empty, map[0 := Some(v), 1 := Some(w)]), State(one, map[1 := Some(w)]));
    assert ops == TwoFills(a, b)[..5];
    ops := Played(kind, ops, Write(1), State(one, map[1 := Some(w)]), State(kind.write(one, w), map[]));
    assert ops == TwoFills(a, b);
  }

  // A cache filled by one call is emptied by a slower one whose answer lists no size.
  lemma LateEmptyFetchUnfills(full: Source, late: Source, types: seq<InstanceType>)
    requires TypesFrom(full) == Some(types) && types != [] && late.api == Catalogue(Some({}), Some([]))
    ensures var ops := TwoFills(full, late);
      && After(TYPES, ops[..5]).Some? && After(TYPES, ops[..5]).value.cache == types
      && After(TYPES, ops) == Some(State([], map[]))
  {
    BothWrite(TYPES, full, late, types, []);
  }

  // ---- Regions: a write adds to what is there ----

  function Merge(regions: map<string, bool>, list: seq<Region>): (r: map<string, bool>)
    ensures forall slug ::
      Known(r, slug) == if LastEntry(list, slug).Some? then LastEntry(list, slug) else Known(regions, slug)
    decreases |list|
  {
    if list == [] then regions
    else
      var n := |list| - 1;
      Merge(regions, list[..n])[list[n].slug := list[n].available]
  }

  const REGIONS: Kind<Option<seq<Region>>, map<string, bool>, seq<Region>> := Kind(map[], answer => answer, Merge)

  ghost predicate Named(lists: seq<seq<Region>>, slug: string) {
    exists list :: list in lists && LastEntry(list, slug).Some?
  }

  // What the last list that names the region last says of it.
  function LastWord(lists: seq<seq<Region>>, slug: string): (r: Option<bool>)
    ensures r.Some? <==> Named(lists, slug)
    decreases |lists|
  {
    if lists == [] then None
    else
      var n := |lists| - 1;
      assert lists == lists[..n] + [lists[n]];
      if LastEntry(lists[n], slug).Some? then LastEntry(lists[n], slug) else LastWord(lists[..n], slug)
  }

  lemma {:induction false} FoldIsLastWord(lists: seq<seq<Region>>, slug: string)
    ensures Known(Fold(REGIONS, lists), slug) == LastWord(lists, slug)
    decreases |lists|
  {
    if lists != [] {
      FoldIsLastWord(lists[..|lists| - 1], slug);
    }
  }

  // Under any interleaving the region cache has, for every region, the last word of the
  // lists written, each of which is one whole answer of the API.
  lemma RegionCacheIsLastWord(ops: seq<Op<Option<seq<Region>>>>)
    requires After(REGIONS, ops).Some?
    ensures forall slug :: Known(After(REGIONS, ops).value.cache, slug) == LastWord(Written(REGIONS, ops), slug)
    ensures forall list :: list in Written(REGIONS, ops) ==> Fetched(REGIONS, ops, list)
  {
    CacheFoldsWrites(REGIONS, ops);
    WritesAreFetched(REGIONS, ops);
    forall slug ensures Known(After(REGIONS, ops).value.cache, slug) == LastWord(Written(REGIONS, ops), slug) {
      FoldIsLastWord(Written(REGIONS, ops), slug);
    }
  }

  // A write leaves exactly its own list exactly if the list names every region that was
  // known before.
  lemma MergeRecordsExactly(regions: map<string, bool>, list: seq<Region>)
    ensures Records(Merge(regions, list), list) <==> forall slug :: slug in regions ==> LastEntry(list, slug).Some?
  {
    forall slug
      ensures Known(Merge(regions, list), slug) == LastEntry(list, slug) <==> (slug in regions ==> LastEntry(list, slug).Some?)
    {
    }
  }

  // Over a whole run: the cache is one answer, the one written last, exactly if that
  // answer names every region an earlier written one named.
  lemma RegionCacheIsOneAnswerExactly(ops: seq<Op<Option<seq<Region>>>>)
    requires After(REGIONS, ops).Some? && Written(REGIONS, ops) != []
    ensures var lists := Written(REGIONS, ops);
      var n := |lists| - 1;
      Records(After(REGIONS, ops).value.cache, lists[n]) <==>
      forall slug :: Named(lists[..n], slug) ==> LastEntry(lists[n], slug).Some?
  {
    var lists := Written(REGIONS, ops);
    var n := |lists| - 1;
    CacheFoldsWrites(REGIONS, ops);
    MergeRecordsExactly(Fold(REGIONS, lists[..n]), lists[n]);
    forall slug ensures slug in Fold(REGIONS, lists[..n]) <==> Named(lists[..n], slug) {
      FoldIsLastWord(lists[..n], slug);
    }
  }

  // Two calls leave a mixture: here of two answers that each name one region.
  lemma RegionCacheCanMix()
    ensures After(REGIONS, TwoFills(Some([Region("nyc1", true)]), Some([Region("sfo3", true)])))
      == Some(State(map["nyc1" := true, "sfo3" := true], map[]))
  {
    var one, two := [Region("nyc1", true)], [Region("sfo3", true)];
    BothWrite(REGIONS, Some(one), Some(two), one, two);
    assert one[..0] == [] && two[..0] == [];
    assert Merge(map[], one) == map["nyc1" := true];
  }
}
