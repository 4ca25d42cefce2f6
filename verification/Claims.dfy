// NodeClaims, provider IDs, and the decisions the cloud provider takes over them.
module Claims {
  import opened Wrappers
  import Seqs
  import opened Doks
  import opened Instances

  const PROVIDER_ID_PREFIX := "digitalocean://"
  const ANNOTATION_NODE_POOL_ID := "karpenter.do.sh/node-pool-id"
  const ANNOTATION_DROPLET_ID := "karpenter.do.sh/droplet-id"
  const LABEL_TOPOLOGY_REGION := "topology.kubernetes.io/region"
  const LABEL_INSTANCE_TYPE := "node.kubernetes.io/instance-type"
  const LABEL_OS := "kubernetes.io/os"
  const LABEL_ARCH := "kubernetes.io/arch"
  const LABEL_CAPACITY_TYPE := "karpenter.sh/capacity-type"

  const OWNED_LABELS := {
    LABEL_TOPOLOGY_REGION, LABEL_INSTANCE_TYPE, LABEL_OS, LABEL_ARCH,
    LABEL_CAPACITY_TYPE, LABEL_INSTANCE_SIZE, LABEL_REGION
  }

  datatype Operator = In | NotIn | Exists | DoesNotExist | Gt | Lt
  datatype Requirement = Requirement(key: string, operator: Operator, values: seq<string>)
  datatype NodeClaim = NodeClaim(
    name: string, nodeClass: string, requirements: seq<Requirement>,
    labels: map<string, string>, annotations: map<string, string>, providerID: string)
  datatype NodeClass = NodeClass(name: string, region: string, tags: seq<string>)

  // ---- Provider IDs ----

  function ProviderID(d: string): string {
    PROVIDER_ID_PREFIX + d
  }

  function ParseProviderID(s: string): Result<string> {
    if s == "" then Err(EmptyProviderID)
    else if !(PROVIDER_ID_PREFIX <= s) then Err(ForeignProviderID)
    else if s[|PROVIDER_ID_PREFIX|..] == "" then Err(EmptyDropletID)
    else Ok(s[|PROVIDER_ID_PREFIX|..])
  }

  lemma ParseInvertsProviderID(s: string, d: string)
    ensures ParseProviderID(s) == Ok(d) <==> d != "" && s == ProviderID(d)
  {
  }

  lemma ParseFailsExactly(s: string)
    ensures ParseProviderID(s) == Err(EmptyProviderID) <==> s == ""
    ensures ParseProviderID(s) == Err(EmptyDropletID) <==> s == PROVIDER_ID_PREFIX
    ensures ParseProviderID(s) == Err(ForeignProviderID) <==> s != "" && !(PROVIDER_ID_PREFIX <= s)
    ensures ParseProviderID(s).Ok? <==> PROVIDER_ID_PREFIX < s
  {
    if PROVIDER_ID_PREFIX <= s {
      assert s == PROVIDER_ID_PREFIX + s[|PROVIDER_ID_PREFIX|..];
    }
  }

  lemma ProviderIDInjective(d: string, e: string)
    requires ProviderID(d) == ProviderID(e)
    ensures d == e
  {
    assert ProviderID(d)[|PROVIDER_ID_PREFIX|..] == d;
    assert ProviderID(e)[|PROVIDER_ID_PREFIX|..] == e;
  }

  // With distinct droplet IDs, the provider ID of a listed instance leads back to it.
  lemma ListedIsFound(pools: seq<Pool>, region: string, inst: Instance)
    requires inst in InstancesOf(pools, region)
    requires forall other :: other in InstancesOf(pools, region) && other.dropletID == inst.dropletID ==> other == inst
    ensures ParseProviderID(ProviderID(inst.dropletID)) == Ok(inst.dropletID)
    ensures FindInstance(pools, inst.dropletID, region) == Some(inst)
  {
    ListedExactly(pools, region, inst);
    ParseInvertsProviderID(ProviderID(inst.dropletID), inst.dropletID);
    FindIsFirstListed(pools, inst.dropletID, region);
  }

  // ---- Instance to NodeClaim ----

  lemma OwnedLabelsDiffer()
    ensures |OWNED_LABELS| == 7
    ensures ANNOTATION_NODE_POOL_ID != ANNOTATION_DROPLET_ID
  {
    assert |LABEL_TOPOLOGY_REGION| == |LABEL_INSTANCE_SIZE| == 29;
    assert LABEL_TOPOLOGY_REGION[0] != LABEL_INSTANCE_SIZE[0];
    assert |LABEL_INSTANCE_TYPE| == 32 && |LABEL_OS| == 16 && |LABEL_ARCH| == 18;
    assert |LABEL_CAPACITY_TYPE| == 26 && |LABEL_REGION| == 22;
    assert |ANNOTATION_NODE_POOL_ID| != |ANNOTATION_DROPLET_ID|;
  }

  // The claim keeps what it had except the provider ID, seven labels and two annotations.
  function InstanceToNodeClaim(inst: Instance, existing: Option<NodeClaim>): (c: NodeClaim)
    ensures c.providerID == ProviderID(inst.dropletID)
    ensures ANNOTATION_NODE_POOL_ID in c.annotations && c.annotations[ANNOTATION_NODE_POOL_ID] == inst.nodePoolID
    ensures ANNOTATION_DROPLET_ID in c.annotations && c.annotations[ANNOTATION_DROPLET_ID] == inst.dropletID
    ensures OWNED_LABELS <= c.labels.Keys
    ensures c.labels[LABEL_INSTANCE_TYPE] == c.labels[LABEL_INSTANCE_SIZE] == inst.size
    ensures c.labels[LABEL_TOPOLOGY_REGION] == c.labels[LABEL_REGION] == inst.region
    ensures c.labels[LABEL_OS] == "linux" && c.labels[LABEL_ARCH] == "amd64"
    ensures c.labels[LABEL_CAPACITY_TYPE] == "on-demand"
    ensures existing.Some? ==>
      && c.name == existing.value.name && c.nodeClass == existing.value.nodeClass
      && c.requirements == existing.value.requirements
      && c.labels - OWNED_LABELS == existing.value.labels - OWNED_LABELS
      && c.annotations - {ANNOTATION_NODE_POOL_ID, ANNOTATION_DROPLET_ID}
         == existing.value.annotations - {ANNOTATION_NODE_POOL_ID, ANNOTATION_DROPLET_ID}
    ensures existing.None? ==> c.labels.Keys == OWNED_LABELS
  {
    var c := if existing.Some? then existing.value else NodeClaim("", "", [], map[], map[], "");
    OwnedLabelsDiffer();
    c.(providerID := ProviderID(inst.dropletID),
       labels := c.labels[LABEL_TOPOLOGY_REGION := inst.region]
                         [LABEL_INSTANCE_TYPE := inst.size]
                         [LABEL_OS := "linux"]
                         [LABEL_ARCH := "amd64"]
                         [LABEL_CAPACITY_TYPE := "on-demand"]
                         [LABEL_INSTANCE_SIZE := inst.size]
                         [LABEL_REGION := inst.region],
       annotations := c.annotations[ANNOTATION_NODE_POOL_ID := inst.nodePoolID]
                                   [ANNOTATION_DROPLET_ID := inst.dropletID])
  }

  function PoolAnnotation(c: NodeClaim): string {
    if ANNOTATION_NODE_POOL_ID in c.annotations then c.annotations[ANNOTATION_NODE_POOL_ID] else ""
  }

  // ---- Drift ----

  datatype Drift = NotDrifted | RegionChanged | NodePoolChanged

  function DriftOf(c: NodeClaim, inst: Instance, classRegion: string): Drift {
    if inst.region != classRegion then RegionChanged
    else if LABEL_INSTANCE_TYPE in c.labels && inst.size != c.labels[LABEL_INSTANCE_TYPE] then NodePoolChanged
    else NotDrifted
  }

  // classRegion and page are what the two lookups answered, None where one failed.
  function IsDrifted(c: NodeClaim, classRegion: Option<string>, page: Option<seq<Pool>>, region: string): Result<Drift> {
    if classRegion.None? then Err(NodeClassUnavailable)
    else
      match ParseProviderID(c.providerID)
      case Err(e) => Err(e)
      case Ok(d) =>
        if page.None? then Err(ApiFailed)
        else
          var inst := FindInstance(ManagedPools(page.value), d, region);
          if inst.None? then Err(NodeClaimNotFound)
          else Ok(DriftOf(c, inst.value, classRegion.value))
  }

  // ---- The life of one Delete call ----

  datatype DeletePhase = LookingUp(d: string) | Removing(id: string) | DeleteDone(failure: Option<Error>)

  function StartDelete(c: NodeClaim): DeletePhase {
    if PoolAnnotation(c) != "" then Removing(PoolAnnotation(c))
    else
      match ParseProviderID(c.providerID)
      case Ok(d) => LookingUp(d)
      case Err(e) => DeleteDone(Some(e))
  }

  function AdvanceDelete(region: string, phase: DeletePhase, call: Call): Option<DeletePhase> {
    match phase
    case LookingUp(d) =>
      if !call.ListCall? then None
      else if call.page.None? then Some(DeleteDone(Some(ApiFailed)))
      else
        var inst := FindInstance(ManagedPools(call.page.value), d, region);
        if inst.None? then Some(DeleteDone(None)) else Some(Removing(inst.value.nodePoolID))
    case Removing(id) =>
      if !call.DeleteCall? || call.id != id then None
      else Some(DeleteDone(if call.reply.DeleteError? then Some(DeleteFailed) else None))
    case DeleteDone(_) => None
  }

  // ---- Garbage collection ----

  function KnownIDs(claims: seq<NodeClaim>): set<string> {
    set c | c in claims && c.providerID != "" :: c.providerID
  }

  predicate Unclaimed(inst: Instance, known: set<string>) {
    ProviderID(inst.dropletID) !in known
  }

  function Orphans(instances: seq<Instance>, known: set<string>): seq<Instance> {
    Seqs.Filter((inst: Instance) => Unclaimed(inst, known), instances)
  }

  datatype GcPhase =
    | GcIdle
    | GcListed(instances: seq<Instance>)
    | GcSweeping(read: seq<NodeClaim>, worklist: seq<Instance>)

  // Only claims that could be read put anything up for deletion.
  function AfterReading(instances: seq<Instance>, read: Option<seq<NodeClaim>>): GcPhase {
    if read.None? then GcIdle else GcSweeping(read.value, Orphans(instances, KnownIDs(read.value)))
  }

  function AdvanceGc(region: string, phase: GcPhase, call: Call): Option<GcPhase> {
    match phase
    case GcIdle =>
      if !call.ListCall? then None
      else if call.page.None? then Some(GcIdle)
      else Some(GcListed(InstancesOf(ManagedPools(call.page.value), region)))
    case GcListed(_) => None
    case GcSweeping(read, worklist) =>
      if call.DeleteCall? && worklist != [] && call.id == worklist[0].nodePoolID
      then Some(GcSweeping(read, worklist[1..])) else None
  }
}
