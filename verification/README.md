# Verification of the DigitalOcean provider for Karpenter

This project models, in Dafny, how the provider turns Karpenter NodeClaims into DOKS
node pools, finds them again, deletes them and collects the ones nobody answers for,
together with the four small stateful components it relies on: the instance type, region
and price caches and the DONodeClass conditions. Check it with `dafny verify dfyconfig.toml`.

## How it is built

| file | what it holds |
|---|---|
| `Wrappers.dfy`, `Seqs.dfy` | Option, Result, the error kinds; order-preserving selection |
| `Doks.dfy`, `CloudApi.dfy` | the node-pool API: what a reply may say, what a call does; the endpoint as an object with a call log |
| `Instances.dfy`, `InstanceProvider.dfy` | `pkg/providers/instance`: listing, lookup, the phases of Create; the provider as a class, proved to follow those phases |
| `Claims.dfy`, `Deletion.dfy`, `CloudProvider.dfy` | `pkg/cloudprovider`: provider IDs, claims, drift, the phases of Delete; what Delete leaves and what repeating it does; the provider as a class |
| `GarbageCollection.dfy` | `pkg/controllers/nodeclaim`: the orphan controller as a class, and what undisturbed passes achieve |
| `Lifecycle.dfy`, `Runs.dfy` | Create, Delete and garbage collection running side by side: the transition system, its inductive invariant, runs |
| `Tags.dfy`, `Safety.dfy`, `Ownership.dfy`, `Lookups.dfy`, `Limits.dfy` | what holds over every run: tags and deletions, garbage collection, who answers for a pool, lookups and drift; and runs that show where the guarantees end |
| `Pricing.dfy`, `InstanceTypes.dfy`, `Selection.dfy` | size catalogue, prices, cached instance types, filter and in-place sort, and which size is launched |
| `Regions.dfy`, `ConcurrentFills.dfy` | the region cache; both lazily filled caches under concurrent calls |
| `NodeClasses.dfy` | `pkg/controllers/nodeclass`: conditions and the controller |

Each API call of a Create, a Delete or a garbage collection pass is one step. The same phase
functions (`Advance`, `AdvanceDelete`, `AdvanceGc`) serve twice: the imperative methods are
proved to make exactly the calls these functions allow, and the transition system lets any
number of such calls, and one garbage collection pass, interleave freely with DOKS,
Kubernetes and people. A theorem over runs therefore speaks about the code's own branches.

## What is assumed of the surroundings

- Node pool IDs and droplet IDs are never reused, and no pool has an empty ID.
- DOKS keeps the name, size, tags, labels and taints it was given, never shows more nodes than
  asked for, and a droplet once assigned to a node stays with it.
- People may add, change, retag and remove pools. Pools Create made they may retag and remove,
  but not resize or scale.
- A failed request had no effect. A create request whose reply was lost is, seen from the
  provider, a pool put there by hand.
- Claims are stored without provider ID and node-pool annotation; only the recording of a
  finished Create writes these. Labels may change at any time, claims may go at any time.
- Claims reach every process through a cache: what is read may be any version ever stored.
- One call of `ListNodePools` answers with one page of at most 200 pools, chosen in any way.
  Where a result needs the page to be the whole list it says so with `PAGE_SIZE`.

## What the code does, where the documentation or a reader may expect otherwise

- The repository's README and `designs/` speak of images, VPCs and region-qualified provider
  IDs; the code has none of them, and the model follows the code.
- A pool is safe from garbage collection only once its claim carries the provider ID. A pool
  whose Create is still running can be collected, and that Create then reports success
  (`Limits.CreateCanReturnACollectedPool`). `Safety.GcTargetsExactly` says exactly which pools
  are up for deletion.
- The managed tag is looked at when listing, not when deleting: a pool that loses it in
  between is deleted (`Limits.UntaggedPoolCanBeCollected`). Delete by annotation never looks at
  it (`Limits.UntaggedPoolCanBeDeletedByAnnotation`). `Tags.OnlyManagedPoolsAreDeleted` says
  exactly when a pool deleted has its tag.
- Delete by provider ID reports success, and leaves the pool, when the one page listed does
  not show it with its tag (`Limits.DeleteCanMissItsPool`). `Lookups.DeletePathsAgree` and
  `Lookups.DeletePathsAlwaysAgree` say the two ways to delete differ exactly then.
- A successful Delete, repeated, can remove a second pool: provider ID `digitalocean://0` matches
  every pool that waits for its droplet (`Deletion.ZeroTakesAnother`).
  `Deletion.SuccessLeavesGone` and `Deletion.RepeatableExactly` say exactly when it cannot.
- Get, asked for a droplet ID of "0" or "", can answer with a node that has no droplet yet,
  which List never shows (`Instances.GetCanShowWhatListHides`). `Instances.GetAgreesWithList`
  gives the exact condition.
- Garbage collection goes by provider ID, not by annotation: should DOKS replace the node of a
  claimed pool, the pool is collected (`GarbageCollection.ReplacedNodeIsCollected`). The
  transition system assumes a node keeps its droplet.
- Ready is never taken back, so it does not imply ValidRegion (`NodeClasses.ReadyMeansOnceGood`,
  `NodeClasses.ReadyOutlivesValidRegion`).
- An instance type cache that was filled can be emptied by a slower concurrent fetch that
  came back empty (`ConcurrentFills.LateEmptyFetchUnfills`), and in no other way
  (`ConcurrentFills.FilledCacheIsEmptiedExactly`). The region cache can mix concurrent answers
  (`ConcurrentFills.RegionCacheCanMix`); `ConcurrentFills.RegionCacheIsOneAnswerExactly` says when.
- The call that fills the region cache can name a region every later call leaves out, if the
  list has the same slug twice (`Regions.FillCanMislead`, `Regions.FillAnswersLikeCache`).
- From 2^43 MB on the byte count of a size overflows and the smallest-first order is lost
  (`InstanceTypes.BytesCompareExactly`, `Selection.OverflowMisleads`).
- Without an instance-type requirement, the first size in catalogue order is launched: the list
  is neither filtered nor sorted (`Selection.FilterByRequirements`).

## Model

| member | source | states |
|---|---|---|
| Runs.Invariant | pkg/providers/instance/instance.go:73-285 | in every state of every run, whatever the interleaving, the lifecycle invariant holds: each pool Create made has one node and, over its whole life, one droplet; each stored claim version is blank or names such a pool by both ID and droplet; what every Create, Delete and garbage collection pass holds refers to pools that carried the tag |
| Lifecycle.InvStep | pkg/cloudprovider/cloudprovider.go:62-121 | every step of every process keeps that invariant and everything recorded of the past |
| Runs.PastKept | pkg/providers/instance/instance.go:107-121 | between any two moments of a run droplets keep their pool, pools Create made keep their size and their status as made or once tagged |
| Tags.OnlyManagedPoolsAreDeleted | pkg/providers/instance/instance.go:236-254 | over every run, each deletion (garbage collection, Create's cleanup, Delete by annotation or by provider ID) goes back to a moment at which the pool was tagged: the listing of that very pass, the lookup of that very Delete, or the making of the pool; and the pool is tagged when deleted if and only if every untagging since that moment was put right since |
| Tags.TaggedExactly | pkg/providers/instance/instance.go:83-87 | a pool tagged at one moment is tagged at a later one, if it is still there, exactly if each time the tag was taken off in between it was put back in between |
| Safety.GcSparesClaimedPools | pkg/controllers/nodeclaim/controller.go:61-92 | from one reading of the claims to the next, garbage collection never tries to delete a pool that a claim it read names, whatever Create, Delete and people do in between; no assumption on the page |
| Safety.GcSparesRecordedPools | pkg/controllers/nodeclaim/controller.go:61-92 | if the claims are read as they stand, garbage collection tries to delete no pool a claim names at that moment, until it reads the claims again |
| Safety.OnlyAfterReading | pkg/controllers/nodeclaim/controller.go:61-92 | garbage collection tries to delete a pool only after the claims were read, in the same pass and with success, and none of those read names the pool; after a failed reading nothing is tried until claims are read again |
| Safety.GcTargetsExactly | pkg/controllers/nodeclaim/controller.go:55-79 | a pool is up for deletion in a pass if and only if it was on the listed page, tagged and with a droplet, when the instances were listed, and no claim read later names it |
| Safety.WorklistIsWorkedOff | pkg/controllers/nodeclaim/controller.go:77-92 | everything up for deletion is tried before the pass runs out of work, failures notwithstanding, unless the pass is stopped |
| Safety.UnclaimedPoolIsTargeted | pkg/controllers/nodeclaim/controller.go:55-92 | a tagged pool that no claim read names is up for deletion in the next pass that finds it with a droplet, with at most one page of pools |
| Lifecycle.WorklistExact | pkg/controllers/nodeclaim/controller.go:67-79 | comparing provider IDs, as the code does, is the same as asking whether a claim read names the instance's pool |
| Lifecycle.SamePoolSameProviderID | pkg/cloudprovider/cloudprovider.go:243-277 | a claim and a listed instance have the same provider ID if and only if they belong to the same pool |
| Ownership.NoPoolIsLost | pkg/providers/instance/instance.go:121-132 | at every moment, for every pool Create made: it is gone if and only if a step removed it, and while it is there a running Create or a claim answers for it if and only if no failed cleanup, dead process, removed claim or second recording for the same claim stranded it |
| Ownership.AtMostOneKeeper | pkg/cloudprovider/cloudprovider.go:86-93 | at every moment at most one running Create or claim answers for a pool |
| Lookups.DriftExactly | pkg/cloudprovider/cloudprovider.go:181-212 | for a claim recorded by Create, in any reachable state, drift is reported exactly when the class region differs from the cluster region, or else the label differs from the pool's size; NotFound exactly when the page does not show the pool with its tag |
| Lookups.RecordedClaimIsNotDrifted | pkg/cloudprovider/cloudprovider.go:199-211 | a claim recorded by Create whose label was kept is, in every later state that lists its pool, not drifted if the class names the cluster's region, and RegionChanged from the start if it names any other |
| Lookups.DeletePathsAgree | pkg/cloudprovider/cloudprovider.go:99-121 | Delete by provider ID reaches the same pools as Delete by annotation if and only if the pool is gone or the listed page shows it with its tag; otherwise it reports success and does nothing |
| Lookups.DeletePathsAlwaysAgree | pkg/cloudprovider/cloudprovider.go:99-121 | the two agree whatever page is listed if and only if the pool is gone, or is tagged and there are at most 200 pools |
| Limits.DeleteCanMissItsPool | pkg/providers/instance/instance.go:239-241 | a run to a state with 201 pools and a page for which the two ways differ |
| Lookups.TiedLookup | pkg/providers/instance/instance.go:201-216 | looking up the droplet of a recorded claim finds exactly the claim's pool, if the page shows it with its tag, and nothing otherwise |
| Limits.CreateCanReturnACollectedPool | pkg/controllers/nodeclaim/controller.go:67-92 | a run in which garbage collection deletes a pool under a running Create, which then reports success |
| Limits.UntaggedPoolCanBeCollected | pkg/controllers/nodeclaim/controller.go:76-85 | a run at whose end a pool without the managed tag is about to be deleted, because it lost the tag after the listing |
| Limits.UntaggedPoolCanBeDeletedByAnnotation | pkg/cloudprovider/cloudprovider.go:101-103 | a run at whose end Delete by annotation is about to delete a pool that Create made and somebody untagged |
| InstanceProvider.Provider.Create | pkg/providers/instance/instance.go:73-151 | undisturbed, either exactly one pool is added, under a new ID, with the name, size, tags and labels requested, with one node whose droplet exists and which the result names (taints cleared if that request succeeded), all others unchanged; or the pools are as before; or the one failed request was the cleanup and exactly the new pool is left; the calls made follow the Create phases |
| InstanceProvider.Provider.WaitForNode | pkg/providers/instance/instance.go:155-183 | the calls and the outcome are those of the polling phases; nothing but the polled pool's nodes moves; the result is the first node with a droplet |
| InstanceProvider.PollsTellTheOutcome | pkg/providers/instance/instance.go:161-182 | at most 60 polls; an instance exactly at the first poll that shows a droplet, giving up only on a failed poll, a cancelled pause, or after the sixtieth miss |
| InstanceProvider.CreateCleanedUp | pkg/providers/instance/instance.go:127-132 | after a failed wait, a successful cleanup restores the pools as they were before Create; a failed one leaves exactly the new pool |
| InstanceProvider.CreateSucceeded | pkg/providers/instance/instance.go:126-150 | after a successful wait exactly one tagged pool with its droplet was added, whether or not clearing the taints succeeds |
| Instances.Request | pkg/providers/instance/instance.go:82-119 | the request asks for one node of the chosen size; its tags are the two Karpenter tags and the class tags and no others, its labels size and region, its only taint the unregistered one, and its name the full one cut to 255 characters |
| Instances.FirstReady | pkg/providers/instance/instance.go:167-172 | the first node whose droplet ID is neither empty nor "0", none if there is no such node |
| InstanceProvider.Provider.Delete | pkg/providers/instance/instance.go:187-197 | on success, 404 included, the pool is gone and nothing else changed; on failure nothing changed |
| InstanceProvider.Provider.Get | pkg/providers/instance/instance.go:201-216 | one listing; the answer is the first node with this droplet ID among the tagged pools of the page, NotFound if there is none, an error if the listing failed |
| InstanceProvider.Provider.List | pkg/providers/instance/instance.go:219-234 | one listing; every node with a droplet of every tagged pool of the page, in order |
| InstanceProvider.Provider.ListManagedNodePools | pkg/providers/instance/instance.go:238-254 | one page; exactly its tagged pools, in order |
| InstanceProvider.Provider.HasTag | pkg/providers/instance/instance.go:278-285 | true if and only if the tag is in the list |
| InstanceProvider.AnswersExactly | pkg/providers/instance/instance.go:201-216 | Get fails with an API error if and only if the listing failed, with NotFound if and only if it came back and no tagged pool on it has the droplet ID, and else answers with the first match |
| Instances.InstanceShowsItsNode | pkg/providers/instance/instance.go:257-275 | which parts of an instance come from the pool, which from the node, and that the region comes from neither |
| Instances.ListedExactly | pkg/providers/instance/instance.go:225-232 | an instance is listed if and only if some pool shows it by a node that has its droplet |
| Instances.FindIsFirstListed | pkg/providers/instance/instance.go:201-234 | for a real droplet ID, the lookup finds the first listed instance with that ID, and only that |
| Instances.GetAgreesWithList | pkg/providers/instance/instance.go:201-234 | Get and List agree on a droplet ID if and only if it is neither empty nor "0", or no pool shows it |
| Instances.FindIsFirstMatch | pkg/providers/instance/instance.go:207-215 | for any droplet ID, "0" and "" included, the lookup answers with the first node that has it, in the order of pools and nodes, and fails if and only if there is none |
| Instances.GetCanShowWhatListHides | pkg/providers/instance/instance.go:207-228 | a pool for which Get of "0" answers and List shows nothing |
| Claims.ParseInvertsProviderID | pkg/cloudprovider/cloudprovider.go:336-352 | parsing succeeds with a droplet ID if and only if the string is that ID printed, and the ID is not empty |
| Claims.ParseFailsExactly | pkg/cloudprovider/cloudprovider.go:336-352 | which provider IDs are refused, and why: the empty one, one with another prefix, the bare prefix |
| Claims.ListedIsFound | pkg/cloudprovider/cloudprovider.go:124-147 | with distinct droplet IDs, printing the provider ID of any listed instance, parsing it and looking it up gives that same instance |
| CloudProvider.GetInvertsList | pkg/cloudprovider/cloudprovider.go:124-147 | Get of the provider ID of any claim List reports gives that same claim, from this or any other listing that shows its pool, and NotFound from one that does not |
| Claims.ProviderIDInjective | pkg/cloudprovider/cloudprovider.go:243-245 | distinct droplets have distinct provider IDs |
| Claims.InstanceToNodeClaim | pkg/cloudprovider/cloudprovider.go:237-285 | the claim gets the instance's provider ID, both annotations and the seven labels, and keeps everything else of the existing claim |
| CloudProvider.Provider.Create | pkg/cloudprovider/cloudprovider.go:62-94 | no class, no type list or no matching type: an error and no call made; otherwise the first type of an allowed, ordered rearrangement is launched as `InstanceProvider.Provider.Create` states, and the claim carries the instance |
| CloudProvider.CreateTellsWhatItMade | pkg/cloudprovider/cloudprovider.go:62-94 | the claim returned names, by annotation and by the droplet of its node, the one pool that was added, of the size launched, which it also carries as label; an error never means NotFound, is NoMatchingInstanceTypes exactly if nothing matched, and leaves a pool only if the cleanup failed |
| CloudProvider.Provider.Delete | pkg/cloudprovider/cloudprovider.go:99-121 | the calls made follow the Delete phases to the reported outcome and every reply is one the cloud may give; on failure no pool changed; with an annotation success means the annotated pool is gone and no other |
| Deletion.DeleteFailsExactly | pkg/cloudprovider/cloudprovider.go:99-121 | Delete fails only because the claim leads nowhere, the listing failed or the deletion asked for failed, and says which; a pool not found, by either way, is a success |
| Deletion.SuccessLeavesGone | pkg/cloudprovider/cloudprovider.go:99-121 | after a successful Delete nothing the claim leads to is left if and only if it had an annotation, or a single tagged pool had the droplet ID and was listed, or none had it |
| Deletion.RepeatableExactly | pkg/cloudprovider/cloudprovider.go:99-121 | no further Delete changes anything if and only if nothing the claim leads to is left |
| Deletion.DeletingTwice | pkg/cloudprovider/cloudprovider.go:99-121 | a successful Delete, repeated, makes one request, changes nothing and fails if and only if that request failed: always by annotation; by provider ID for a real droplet with at most one page of pools, or under the exact condition |
| Deletion.ZeroTakesAnother | pkg/cloudprovider/cloudprovider.go:105-120 | two Deletes of one claim with droplet "0" that both succeed and each remove a pool |
| CloudProvider.GetFailsExactly | pkg/cloudprovider/cloudprovider.go:124-134 | Get answers NotFound if and only if the provider ID parses, the listing came back and no tagged pool on it has the droplet; a failed listing is an API error; a claim answered carries the provider ID asked for |
| CloudProvider.DriftAnswersExactly | pkg/cloudprovider/cloudprovider.go:181-212 | what the drift check answers in every case: which error for a missing class, an unusable provider ID, a failed listing, an unknown droplet; else the region first, then the size of the first match against the label |
| CloudProvider.Provider.Get | pkg/cloudprovider/cloudprovider.go:124-134 | an unparsable provider ID makes no call; otherwise one listing, and the claim of the instance found; NotFound exactly if the listing came back without the droplet |
| CloudProvider.Provider.List | pkg/cloudprovider/cloudprovider.go:137-147 | one claim per listed instance, in order |
| CloudProvider.Provider.CheckDrift | pkg/cloudprovider/cloudprovider.go:181-212 | an answer other than an error exactly if the class was found, the provider ID parses and a tagged pool of the page has the droplet; it is the drift decision over class, claim and page; no listing when class or provider ID is unusable |
| GarbageCollection.Controller.Reconcile | pkg/controllers/nodeclaim/controller.go:51-95 | nothing is deleted unless both lists were read; otherwise every orphan of the page is tried once, in order, past failures, and the pools are those before less the ones whose deletion succeeded |
| GarbageCollection.Controller.SweepOrphans | pkg/controllers/nodeclaim/controller.go:76-92 | each listed instance without a known provider ID is tried once, in order, whatever happened to the others; only pools whose deletion succeeded are gone |
| GarbageCollection.PassRemovesOrphans | pkg/controllers/nodeclaim/controller.go:67-94 | a pass takes from the orphans exactly the pools whose deletion succeeded, and there are strictly fewer whenever one did |
| GarbageCollection.OnePassSuffices | pkg/controllers/nodeclaim/controller.go:67-94 | with at most one page and no failed deletion one pass leaves no orphan, and the next has nothing to delete |
| GarbageCollection.WorklistPoolsExact | pkg/controllers/nodeclaim/controller.go:55-79 | a pool is on the worklist if and only if it is on the page, tagged, and has a droplet whose provider ID no claim carries |
| GarbageCollection.ReplacedNodeIsCollected | pkg/controllers/nodeclaim/controller.go:67-79 | a pool that its claim names is collected if and only if its node's droplet is not the one the claim records |
| GarbageCollection.PassFollowsPhases | pkg/controllers/nodeclaim/controller.go:51-95 | a whole sequential pass, failed listings and failed readings included, is a path of the garbage collection phases the transition system uses, to the point where nothing is left to do |
| GarbageCollection.SweepFollowsPhases | pkg/controllers/nodeclaim/controller.go:77-92 | the deletions a pass makes are a path of the garbage collection phases the transition system uses |
| Selection.FilterByRequirements | pkg/cloudprovider/cloudprovider.go:292-332 | without an instance-type In requirement the list itself; otherwise a fresh list, sorted, a rearrangement of exactly the allowed entries; the given list is untouched |
| Selection.SortByResources | pkg/cloudprovider/cloudprovider.go:319-329 | in place: an ordered rearrangement, by CPU and then memory |
| Selection.SortsAgreeUpToTies | pkg/cloudprovider/cloudprovider.go:319-329 | any two sorted rearrangements of a list agree place by place up to sizes the comparison cannot tell apart, so nothing depends on the sorting algorithm |
| Selection.AllowedTypes | pkg/cloudprovider/cloudprovider.go:294-303 | the values of the first requirement on the instance type with operator In; none exactly if no requirement has that key and that operator |
| Selection.OtherRequirementsAreIgnored | pkg/cloudprovider/cloudprovider.go:295-303 | a requirement on another key or with another operator can stand anywhere in the list without changing what is allowed |
| Selection.FirstRequirementDecides | pkg/cloudprovider/cloudprovider.go:295-303 | what is allowed are the values of the first instance-type In requirement, an empty list of values included, whatever follows |
| Selection.ComesOutAsOften | pkg/cloudprovider/cloudprovider.go:310-316 | an allowed type comes out as often as it went in, any other never |
| Selection.SelectableExactly | pkg/providers/instancetype/instancetype.go:103-117 | a type can be selected if and only if it stands for a catalogue size that is available, accepted by DOKS, offered in the class region and allowed by the claim |
| Selection.SelectsTheLeastCandidate | pkg/cloudprovider/cloudprovider.go:310-331 | however ties are sorted, the first type stands for a least candidate size by vCPUs and then memory; the list is empty if and only if there is no candidate |
| CloudProvider.FirstPickIsLeast | pkg/cloudprovider/cloudprovider.go:69-93 | after any history of listings, none included, the size launched is a least candidate of the catalogue that filled the cache or that this very call fetches; there is none if and only if there is no candidate |
| Selection.OverflowMisleads | pkg/providers/instancetype/instancetype.go:157-158 | a size of 2^43 MB is launched in place of one of 1 MB |
| InstanceTypes.BytesCompareExactly | pkg/providers/instancetype/instancetype.go:157-158 | converting MB to int64 bytes keeps the order for the int64 amounts from -2^43 up to but not including 2^43 MB, and for no other |
| InstanceTypes.TypeDescribesItsSize | pkg/providers/instancetype/instancetype.go:121-182 | a type has its size's name, vCPUs, and, within the amounts that fit int64, its memory and disk in bytes; its region requirement names exactly the regions it is offered in |
| InstanceTypes.RegionListExact | pkg/providers/instancetype/instancetype.go:103-197 | building types, offerings and prices and then filtering by offering gives, entry by entry and in order, the launchable catalogue sizes of the region |
| InstanceTypes.Provider.Fetch | pkg/providers/instancetype/instancetype.go:85-118 | an error if either API call fails; otherwise the types of the available, DOKS-valid sizes in order |
| InstanceTypes.Provider.FilterByRegion | pkg/providers/instancetype/instancetype.go:185-197 | exactly the types with an offering in the region, once each and in order |
| InstanceTypes.Provider.List | pkg/providers/instancetype/instancetype.go:60-79 | answer and new cache are those of one step of the cache's specification |
| InstanceTypes.CacheIsFirstYield | pkg/providers/instancetype/instancetype.go:60-79 | over every history of calls the cache is empty until the first fetch that yields a type, failed and empty fetches included, and that fetch's list ever after |
| InstanceTypes.AnswersAfterFill | pkg/providers/instancetype/instancetype.go:60-79 | from then on every answer is the filling catalogue cut to the region asked for |
| ConcurrentFills.TypeCacheIsLastWrite | pkg/providers/instancetype/instancetype.go:60-79 | under any interleaving of calls, failing fetches included, the instance type cache is the list last written, hence empty or what one fetch made of one catalogue, never a mixture |
| ConcurrentFills.EveryAnswerIsOneCatalogue | pkg/providers/instancetype/instancetype.go:60-79 | every list answered under any interleaving stands, entry by entry, for the launchable sizes of the region in one catalogue one call was given |
| ConcurrentFills.OnlyOwnFetchIsWritten | pkg/providers/instancetype/instancetype.go:60-79 | under any interleaving only a call that found the cache empty fetches, a failed fetch ends it, and what it writes is what its own fetch made of its own answer |
| ConcurrentFills.UnfillsExactly | pkg/providers/instancetype/instancetype.go:74-76 | a step empties a filled cache if and only if it writes a fetch that found nothing |
| ConcurrentFills.FilledCacheIsEmptiedExactly | pkg/providers/instancetype/instancetype.go:60-79 | over a whole run a filled cache ends empty if and only if the last write since was of a fetch that found nothing |
| ConcurrentFills.LateEmptyFetchUnfills | pkg/providers/instancetype/instancetype.go:74-76 | an interleaving that empties a filled cache |
| ConcurrentFills.CacheFoldsWrites | pkg/providers/region/region.go:53-83 | under any interleaving a cache is what its writes, one after the other, make of the empty one |
| ConcurrentFills.RegionCacheIsLastWord | pkg/providers/region/region.go:72-82 | under any interleaving the region cache has, for every region, the last word of the answers written, each of them a whole answer of the API |
| ConcurrentFills.MergeRecordsExactly | pkg/providers/region/region.go:72-82 | a write leaves exactly its own answer if and only if that names every region known before |
| ConcurrentFills.RegionCacheIsOneAnswerExactly | pkg/providers/region/region.go:53-83 | over a whole run the cache is the answer written last if and only if that names every region an earlier one named |
| ConcurrentFills.RegionCacheCanMix | pkg/providers/region/region.go:53-83 | an interleaving after which the region cache mixes two answers |
| Regions.Provider.List | pkg/providers/region/region.go:53-83 | a filled cache answers without change, each available region once in any order; an empty one takes exactly what the list last says of each region, and a failed fetch leaves it empty |
| Regions.Provider.IsAvailable | pkg/providers/region/region.go:86-103 | on every branch the answer is whether the cache after the call has the region as available; a filled cache is not refreshed, even for an unknown region |
| Regions.FillAnswersLikeCache | pkg/providers/region/region.go:53-83 | the filling call and all later calls name the same regions if and only if no region listed as available is last listed as unavailable |
| Regions.FillCanMislead | pkg/providers/region/region.go:75-82 | a list after which the filling call names a region and no later call does |
| Regions.FirstAnswerIsKept | pkg/providers/region/region.go:53-83 | over every history the cache is empty up to the first answer that names a region and is that answer ever after |
| Pricing.Provider.LivePricing | pkg/providers/pricing/pricing.go:71-89 | each size and region has the price of the last listed size with that slug and region, every other entry vanishes; a failed refresh changes nothing |
| Pricing.LastPrice | pkg/providers/pricing/pricing.go:77-82 | the price of the last size in the list with this slug and region, none if there is no such size |
| InstanceTypes.OfferingsArePriced | pkg/providers/instancetype/instancetype.go:138-153 | seeded or not, every offering of a fetched type costs the hourly price of a catalogue size of that name in that region |
| InstanceTypes.OfferingCostsItsSize | pkg/providers/instancetype/instancetype.go:138-153 | if sizes of the same name agree on the price, the offerings are one per region, in order, at the size's own hourly price |
| InstanceTypes.SeedingIsUnobservable | pkg/providers/instancetype/instancetype.go:138-153 | from one catalogue the fetched types are the same whether seeding the prices succeeded or not, if and only if no launchable size has its price in some region overruled by a later size of the same slug; in particular whenever sizes of the same slug agree |
| NodeClasses.DONodeClass.SetCondition | pkg/controllers/nodeclass/controller.go:113-135 | the list afterwards is that of the upsert's specification |
| NodeClasses.FindAfterSet | pkg/controllers/nodeclass/controller.go:123-134 | setting a condition changes the entry of its own kind, keeping the time if the status stays, and no other |
| NodeClasses.EntryTellsTheHistory | pkg/controllers/nodeclass/controller.go:113-135 | after any history a kind has an entry if and only if it was ever set, with the last setting's status, reason and message and the time of the first setting of the unbroken run of that status |
| NodeClasses.EntriesInOrderOfFirstUse | pkg/controllers/nodeclass/controller.go:113-135 | one entry per kind ever set, in the order of first use |
| NodeClasses.Controller.Reconcile | pkg/controllers/nodeclass/controller.go:54-97 | a missing class is no error; the stored conditions change only if the update is accepted, and ValidRegion then has the status, reason and message of the verdict on the region; the outcome names the branch |
| NodeClasses.ValidRegionIsLastVerdict | pkg/controllers/nodeclass/controller.go:64-85 | after any run of passes ValidRegion says what the last stored pass found, message included: True and Valid exactly if the region was available and the cluster's, InvalidRegion exactly if it was unavailable, RegionMismatch exactly if it was available and not the cluster's |
| NodeClasses.ReadyMeansOnceGood | pkg/controllers/nodeclass/controller.go:87-93 | there is a Ready, and then True with its reason and message, if and only if some stored pass, however long ago, found the region valid |
| NodeClasses.ReadySinceFirstGood | pkg/controllers/nodeclass/controller.go:84-93 | Ready dates from the first stored pass that found the region valid |
| NodeClasses.ValidRegionSinceVerdict | pkg/controllers/nodeclass/controller.go:64-85 | ValidRegion dates from the first of the unbroken run of stored passes that agree with the last on whether the region is good; there is none exactly if no pass was stored |
| NodeClasses.ReadyOutlivesValidRegion | pkg/controllers/nodeclass/controller.go:54-97 | after a good and then a bad pass Ready is True and ValidRegion False |
| NodeClasses.ReconcilingAgainChangesNothing | pkg/controllers/nodeclass/controller.go:54-97 | a second pass with the same verdict changes no condition, transition times included |

## Left out

- Claims are values here: that `instanceToNodeClaim` works on a deep copy is not modelled, nor is aliasing of label, tag and annotation collections.
- Instance types are values, not pointers: the array given to the requirement filter holds the types themselves.
- The algorithm inside `sort.Slice`: an insertion sort stands in for it, and only the ordered rearrangement is promised, so no result depends on the order of ties.
- vCPU quantities are taken as milli-CPUs without the limits of `resource.Quantity`; pod count, overhead, the instance family and the other scheduling requirements of a type are not used by the code modelled and are left out.
- Names are cut by characters; the code cuts by bytes, which is the same for the names Kubernetes admits. Messages print regions between quotes without `%q` escaping.
- Capacity, conditions of NodeClaims and the API group details of class references are not part of a claim here.
- Prices are reals that are only copied; no float arithmetic takes place in the code modelled.
- The clock, contexts, logging and the mutexes themselves: the clock's readings are parameters, cancellation is noticed in the pause between polls, lock-delimited blocks are atomic steps.
- What the Sizes, Regions and Kubernetes options endpoints answer, what looking up a class answers, and whether a status update is accepted are parameters.
- `GetInstanceTypes` of the cloud provider is the class lookup followed by `InstanceTypes.Provider.List` and would add no property of its own.
- Several garbage collection passes at once: the controller runs one at a time. Stopping and starting over is modelled.
- Load balancers, operator wiring, fakes, scheme registration, CRDs and charts have no state of their own that the properties above need.
