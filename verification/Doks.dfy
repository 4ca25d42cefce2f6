// The DOKS node-pool API as the provider sees it: what a reply may say, and what a
// call that got that reply did to the cloud.
module Doks {
  import opened Wrappers

  const TAG_MANAGED_BY := "karpenter-managed"
  const TAG_CLUSTER_PREFIX := "karpenter-cluster-"
  const PAGE_SIZE := 200

  datatype Taint = Taint(key: string, effect: string)
  datatype Node = Node(dropletID: string, name: string, state: Option<string>, createdAt: int)
  datatype Pool = Pool(
    id: string, name: string, size: string, count: nat, tags: seq<string>,
    labels: map<string, string>, taints: seq<Taint>, nodes: seq<Node>)
  datatype PoolRequest = PoolRequest(
    name: string, size: string, count: nat, tags: seq<string>,
    labels: map<string, string>, taints: seq<Taint>)

  // usedIDs and homes remember the past: every pool ID ever handed out, and for
  // every droplet ID ever seen the pool it was assigned to.
  datatype Cloud = Cloud(pools: map<string, Pool>, usedIDs: set<string>, homes: map<string, string>)

  datatype DeleteReply = Deleted | NotFound | DeleteError

  // One request with its reply. Slept is the pause between two polls; it is not an
  // API request, but it is where cancellation of the context is noticed.
  datatype Call =
    | CreateCall(request: PoolRequest, created: Option<Pool>)
    | GetCall(id: string, found: Option<Pool>)
    | Slept(cancelled: bool)
    | TaintsCall(id: string, ok: bool)
    | DeleteCall(id: string, reply: DeleteReply)
    | ListCall(page: Option<seq<Pool>>)

  // DOKS leaves the droplet ID empty or "0" until the droplet exists.
  predicate ValidDropletID(d: string) {
    d != "" && d != "0"
  }

  predicate Managed(p: Pool) {
    TAG_MANAGED_BY in p.tags
  }

  function Droplets(nodes: seq<Node>): set<string> {
    set n | n in nodes && ValidDropletID(n.dropletID) :: n.dropletID
  }

  function Settle(homes: map<string, string>, p: Pool): map<string, string> {
    homes + map d | d in Droplets(p.nodes) :: p.id
  }

  // Droplet IDs are never reused: a droplet shown by a pool was its own before, or is new.
  predicate OwnDroplets(homes: map<string, string>, p: Pool) {
    forall d :: d in Droplets(p.nodes) && d in homes ==> homes[d] == p.id
  }

  // DOKS preserves what it was given and does not exceed the node count.
  predicate Fulfils(p: Pool, r: PoolRequest) {
    && p.name == r.name && p.size == r.size && p.count == r.count
    && p.tags == r.tags && p.labels == r.labels && p.taints == r.taints
    && |p.nodes| <= p.count
  }

  // ListNodePools is asked for one page of PAGE_SIZE pools and the next page is
  // never fetched. Which pools are on the page is up to the API.
  predicate IsPage(page: seq<Pool>, pools: map<string, Pool>) {
    && (forall i :: 0 <= i < |page| ==> page[i].id in pools && pools[page[i].id] == page[i])
    && (forall i, j :: 0 <= i < j < |page| ==> page[i].id != page[j].id)
    && |page| == if |pools| <= PAGE_SIZE then |pools| else PAGE_SIZE
  }

  // The replies a cloud may give. Any request may fail without effect.
  ghost predicate MayReply(c: Cloud, call: Call) {
    match call
    case CreateCall(r, Some(p)) => p.id != "" && p.id !in c.usedIDs && Fulfils(p, r) && OwnDroplets(c.homes, p)
    case GetCall(id, Some(p)) => id in c.pools && p == c.pools[id]
    case TaintsCall(id, true) => id in c.pools
    case DeleteCall(id, Deleted) => id in c.pools
    case DeleteCall(id, NotFound) => id !in c.pools
    case ListCall(Some(page)) => IsPage(page, c.pools)
    case _ => true
  }

  function Put(c: Cloud, p: Pool): Cloud {
    Cloud(c.pools[p.id := p], c.usedIDs + {p.id}, Settle(c.homes, p))
  }

  function Effect(c: Cloud, call: Call): Cloud {
    match call
    case CreateCall(_, Some(p)) => Put(c, p)
    case TaintsCall(id, true) =>
      if id in c.pools then c.(pools := c.pools[id := c.pools[id].(taints := [])]) else c
    case DeleteCall(id, Deleted) => c.(pools := c.pools - {id})
    case _ => c
  }

  // DOKS brings up the nodes of a pool: q is what p may become. A droplet, once
  // assigned to a node, stays with it.
  predicate Provisions(homes: map<string, string>, p: Pool, q: Pool) {
    && q == p.(nodes := q.nodes)
    && |q.nodes| <= q.count
    && OwnDroplets(homes, q)
    && forall i :: 0 <= i < |p.nodes| && ValidDropletID(p.nodes[i].dropletID) ==>
         i < |q.nodes| && q.nodes[i].dropletID == p.nodes[i].dropletID
  }

  // The droplet belongs to the pool, now or in the past.
  predicate Home(c: Cloud, d: string, id: string) {
    d in c.homes && c.homes[d] == id
  }

  // Pools sit under their own ID, and every droplet shown was recorded as theirs.
  ghost predicate WellFormed(c: Cloud) {
    && (forall id :: id in c.pools ==> c.pools[id].id == id && id in c.usedIDs)
    && (forall id, d :: id in c.pools && d in Droplets(c.pools[id].nodes) ==> d in c.homes && c.homes[d] == id)
  }

  lemma PutKeepsWellFormed(c: Cloud, p: Pool)
    requires WellFormed(c) && OwnDroplets(c.homes, p)
    ensures WellFormed(Put(c, p))
    ensures forall d :: d in c.homes ==> d in Put(c, p).homes && Put(c, p).homes[d] == c.homes[d]
  {
  }

  lemma EffectKeepsWellFormed(c: Cloud, call: Call)
    requires WellFormed(c) && MayReply(c, call)
    ensures WellFormed(Effect(c, call))
    ensures forall d :: d in c.homes ==> d in Effect(c, call).homes && Effect(c, call).homes[d] == c.homes[d]
    ensures c.usedIDs <= Effect(c, call).usedIDs
  {
    match call {
      case CreateCall(_, Some(p)) => PutKeepsWellFormed(c, p);
      case TaintsCall(id, true) =>
        assert forall j :: j in c.pools ==> Effect(c, call).pools[j].nodes == c.pools[j].nodes;
      case _ =>
    }
  }

  function PageIDs(page: seq<Pool>): set<string> {
    set p | p in page :: p.id
  }

  lemma {:induction false} PageIDsCount(page: seq<Pool>)
    requires forall i, j :: 0 <= i < j < |page| ==> page[i].id != page[j].id
    ensures |PageIDs(page)| == |page|
    decreases |page|
  {
    if page != [] {
      var n := |page| - 1;
      PageIDsCount(page[..n]);
      assert page == page[..n] + [page[n]];
      assert PageIDs(page) == PageIDs(page[..n]) + {page[n].id};
    }
  }

  lemma SubsetOfSameSize<T>(a: set<T>, b: set<T>)
    requires a <= b && |a| == |b|
    ensures a == b
  {
    assert |b - a| == |b| - |a|;
  }

  // With at most one page of pools, the page is the whole list.
  lemma PageIsComplete(page: seq<Pool>, c: Cloud, id: string)
    requires WellFormed(c) && IsPage(page, c.pools) && |c.pools| <= PAGE_SIZE && id in c.pools
    ensures c.pools[id] in page
  {
    PageIDsCount(page);
    SubsetOfSameSize(PageIDs(page), c.pools.Keys);
    assert id in PageIDs(page);
  }

  lemma PageGrows(page: seq<Pool>, p: Pool)
    requires p.id !in PageIDs(page)
    requires forall i, j :: 0 <= i < j < |page| ==> page[i].id != page[j].id
    ensures PageIDs(page + [p]) == PageIDs(page) + {p.id}
    ensures forall i, j :: 0 <= i < j < |page + [p]| ==> (page + [p])[i].id != (page + [p])[j].id
  {
    forall i | 0 <= i < |page| ensures page[i].id != p.id {
      assert page[i].id in PageIDs(page);
    }
  }

  // The given pools, one by one.
  lemma {:induction false} PageOf(c: Cloud, ids: set<string>) returns (page: seq<Pool>)
    requires WellFormed(c) && ids <= c.pools.Keys
    ensures PageIDs(page) == ids && |page| == |ids|
    ensures forall i :: 0 <= i < |page| ==> page[i].id in c.pools && c.pools[page[i].id] == page[i]
    ensures forall i, j :: 0 <= i < j < |page| ==> page[i].id != page[j].id
    decreases |ids|
  {
    page := [];
    if ids != {} {
      var id :| id in ids;
      var rest := PageOf(c, ids - {id});
      page := rest + [c.pools[id]];
      PageGrows(rest, c.pools[id]);
    }
  }

  lemma {:induction false} SubsetOfSize<T>(s: set<T>, n: nat) returns (t: set<T>)
    requires n <= |s|
    ensures t <= s && |t| == n
    decreases |s|
  {
    t := s;
    if n < |s| {
      var x :| x in s;
      t := SubsetOfSize(s - {x}, n);
    }
  }

  // Some listing shows any given pool.
  lemma PageShowing(c: Cloud, id: string) returns (page: seq<Pool>)
    requires WellFormed(c) && id in c.pools
    ensures IsPage(page, c.pools) && id in PageIDs(page)
  {
    var n := if |c.pools| <= PAGE_SIZE then |c.pools| else PAGE_SIZE;
    var others := SubsetOfSize(c.pools.Keys - {id}, n - 1);
    page := PageOf(c, others + {id});
  }

  // With more than one page of pools, some listing misses any given pool.
  lemma PageMissing(c: Cloud, id: string) returns (page: seq<Pool>)
    requires WellFormed(c) && |c.pools| > PAGE_SIZE
    ensures IsPage(page, c.pools) && id !in PageIDs(page)
  {
    var others := SubsetOfSize(c.pools.Keys - {id}, PAGE_SIZE);
    page := PageOf(c, others);
  }
}
