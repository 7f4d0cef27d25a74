# Verified models of the control plane's algorithms and protocols

These Dafny modules model the parts of the repository that hold real algorithms and
protocols, and prove what they promise for every input, every run or every reachable
state. Results are stated against independent definitions: reachability and cycles for
the graph code, multisets of rows for sharding, the history of effective operations for
the cache, UTF-8 for spans, sums over evidence for the fitter.

| file | what it models |
|---|---|
| `Common.dfy`, `Ordering.dfy`, `Graphs.dfy` | options and results; string order and sorting; walks, reachability and cycles |
| `Communities.dfy` | `_community_assign`: union-find with path halving, as a class over the parent dictionary |
| `LayoutGraph.dfy`, `LayoutPolicy.dfy`, `CanonicalDot.dfy`, `DotReading.dfy` | graph validation, Kahn's algorithm, class and focus resolution, the canonical DOT text and the digest input; what that text says, read back from it |
| `ShardPlanner.dfy` | galloping and bisecting for the largest fitting slice; greedy planning |
| `ShardLedger.dfy` | the extraction job: status fold, halving of refused shards, whole serial runs |
| `Submission.dfy` | `submit_extraction` under interleaving: one adopted plan, every other plan discarded |
| `LayoutCache.dfy` | the process-memory LRU cache with expiry, refining a history of effective operations |
| `Utf8.dfy`, `DocTree.dfy`, `Spans.dfy` | UTF-8 (section 3 of RFC 3629), document trees over one buffer, character to byte to buffer offsets, quotes |
| `Sections.dfy`, `PageMerge.dfy`, `Layers.dfy` | the heading stack, page replacement with nearest surviving ancestor, subtree closure |
| `Tables.dfy`, `Docling.dfy` | HTML cell placement and table acceptance; the depth-first traversal of a Docling document |
| `CompetenceContract.dfy`, `CompetenceFit.dfy`, `CompetenceChains.dfy`, `CompetenceReports.dfy` | admission, the Beta-Bernoulli fit and its validators, chains of refits; how each item counts and what each result and refusal says |
| `CompetenceJobs.dfy`, `CompetenceScenarios.dfy`, `CompetenceOutcomes.dfy` | fit jobs under interleaving of any number of jobs, workers and sweeps; concrete requests and runs; how each attempt ends |

Code that updates state in place is modelled by classes and loops proved against functions
on values; runs and interleavings are then folded over those functions (`ShardLedger.Run`,
`Submission.Run`, `CompetenceJobs.Run`). One `reconcile_extraction` call and one
`select_for_update` block are single steps. What the platform supplies is a parameter: the
encoded size of a slice, JSON quoting, decimal rendering and lower-casing, the hash and the
serialised length. The hash is not assumed injective: the competence results that need it
assume only that no two payloads hashed in the run at hand collide. Dictionaries with
insertion order are a map and a sequence of keys. Amounts are exact reals.

## Where the code does less than it says

- An extraction job can read SUCCEEDED while a planned row is delivered nowhere. A succeeded
  offload may run again (`apps/orchestration/tasks.py:76-88` and `:616-629` guard at most
  cancellation), be refused as oversize, and storage may then fail before the job row is saved
  (`apps/extraction/tasks.py:393-408`): `SuccessCanMislead`. SUCCEEDED means delivered exactly when
  the last reconciliation ran to its end (`SucceededMeansDelivered`, step by step in
  `SuccessHoldsIff`), and always while succeeded offloads stay so (`SteadySuccessDelivers`).
- `apps/competence/tasks.py:258` speaks of one immutable scorer, replayed safely. The scorer
  is indeed never replaced (`ScorerNeverChanges`), but the success is not final:
  `_finish_problem` guards only cancellation and a second worker proceeds on a running job
  (`SuccessCanBeLost`, on a concrete request in `ConcreteSuccessLost`, with the exact condition in
  `SucceededLeavesIff`).
- `apps/competence/fitter.py:127-130` refuses evidence already consumed by the prior scorer,
  which it checks against the previous request only. Evidence may return two refits later under a
  new operation id (`LineageMayReturn`, as three succeeded jobs in `ConcreteLineageCountedTwice`);
  `ExtensionCountsOnceIff` gives the exact condition under which a refit still counts every
  lineage once.
- Admission (`apps/competence/api.py:210`) collects decision references in a set, while the
  scorer contract wants the fitter's list without repetition. An admitted request in which two
  held-out items share a decision is refused only by the fit: `SharedDecisionRefused`, with the
  exact condition in `AdmittedFitSucceedsIff`.
- `html_table_cells` can place a cell across a slot held from above, which `_table_elements`
  then refuses: `OverhangRefused`, with the exact condition in `PlacedTableAccepted`.
- `build_layers` tests the parent for truth, so a child of an element whose id is empty is missing
  from that element's subtree: `EmptyIdLosesChild`. On a valid tree every subtree is exact if and
  only if no parent is the empty id: `SubtreesFollowParentsIff`.

## Model

| member | source | states |
|---|---|---|
| `Communities.Forest.Find` | runpod/theorem_offload_contract_worker/worker.py:124-129 | find adds an unseen node as its own root, returns the root, and path halving leaves the root of every node as it was |
| `Communities.Forest.Union` | runpod/theorem_offload_contract_worker/worker.py:131-138 | union puts both classes under the smaller of the two roots and leaves every other class alone |
| `Communities.HalvingKeepsRoots` | runpod/theorem_offload_contract_worker/worker.py:126-128 | one halving step changes no node's root and keeps every parent no larger than its child |
| `Communities.LinkingRedirectsRoots` | runpod/theorem_offload_contract_worker/worker.py:135-138 | hanging the larger root under the smaller redirects exactly the nodes of the larger root |
| `Communities.RootsAreComponents` | runpod/theorem_offload_contract_worker/worker.py:140-141 | after the edges, two nodes share a root exactly when an undirected path joins them |
| `Communities.RootIsLeader` | runpod/theorem_offload_contract_worker/worker.py:135-138 | each root is the smallest node of its component |
| `Communities.BuildForest` | runpod/theorem_offload_contract_worker/worker.py:140-141 | the edge loop ends with a forest over exactly the endpoints whose classes are the components |
| `Communities.SortedRoots` | runpod/theorem_offload_contract_worker/worker.py:144 | the sorted roots are exactly the smallest members of the components, each once |
| `Communities.LabelNodes` | runpod/theorem_offload_contract_worker/worker.py:145-150 | each node is labelled with the number of components whose smallest member is smaller |
| `Communities.CommunityAssign` | runpod/theorem_offload_contract_worker/worker.py:116-151 | the call fails exactly on a null endpoint and otherwise returns the specified assignment |
| `Communities.RankSeparatesComponents` | runpod/theorem_offload_contract_worker/worker.py:140-150 | two endpoints get the same community id if and only if an undirected path joins them |
| `Communities.RankIsLeaderIndex` | runpod/theorem_offload_contract_worker/worker.py:145 | the id is the position of the component's smallest member among all smallest members in order |
| `Communities.RanksAreDense` | runpod/theorem_offload_contract_worker/worker.py:145 | the ids in use are exactly 0 up to the number of components |
| `Communities.AssignmentPartitions` | runpod/theorem_offload_contract_worker/worker.py:143-151 | every endpoint appears exactly once and ids agree exactly along undirected paths |
| `Communities.AssignmentIgnoresPresentation` | runpod/theorem_offload_contract_worker/worker.py:140-151 | permuting, flipping or repeating edges leaves the whole output unchanged |
| `LayoutGraph.ValidateGraph` | apps/layout/canonical.py:111-133 | raises nothing exactly on graphs within both limits, with distinct node and edge ids, sizes in range and known endpoints |
| `LayoutPolicy.CountDegrees` | apps/layout/policy.py:68-74 | a self-loop ends the count and is a cycle; otherwise indegrees and target lists count every edge, parallel ones included |
| `LayoutPolicy.VisitNext` | apps/layout/policy.py:77-80 | taking the queue's head keeps the visited nodes in topological order and every indegree equal to the unvisited arcs into the node |
| `LayoutPolicy.ReleaseNext` | apps/layout/policy.py:80-83 | lowering one target's indegree keeps the invariant, and enqueues it exactly when no unvisited arc is left |
| `LayoutPolicy.ReleaseTargets` | apps/layout/policy.py:80-83 | lowering all targets of a visited node restores the invariant with nothing pending |
| `LayoutPolicy.DryQueueVerdict` | apps/layout/policy.py:84 | when the queue is empty, all listed nodes were visited exactly if ids are distinct and there is no cycle |
| `LayoutPolicy.IsDag` | apps/layout/policy.py:67-84 | returns true if and only if ids are distinct and the directed multigraph has no cycle, self-loops included |
| `LayoutPolicy.ClassifyGraph` | apps/layout/policy.py:87-98 | picks the class by containment edges, then acyclicity of the graph itself, then density |
| `LayoutPolicy.SmallestId` | apps/layout/policy.py:111 | the default focus is the least node id |
| `LayoutPolicy.ResolvePolicy` | apps/layout/policy.py:101-116 | class, policy, focus id and both focus errors are those of the graph, whatever its listing |
| `LayoutPolicy.ResolutionIgnoresOrder` | apps/layout/policy.py:87-116 | permuting nodes and edges leaves class, policy, focus id and error unchanged |
| `LayoutPolicy.AutomaticEngine` | apps/layout/policy.py:23-116 | left to itself a graph is laid out by osage if its edges only contain, by dot if it is acyclic, and otherwise by sfdp from 200 nodes on and neato below; the class is the large code map exactly if it is also dense |
| `LayoutPolicy.RequestedEngine` | apps/layout/policy.py:38-116 | a requested class fixes engine, attributes and flags whatever the graph; a focus is refused outside the radial class, which defaults to the least id and refuses an unknown one |
| `CanonicalDot.CanonicalDot` | apps/layout/canonical.py:59-108 | the loops write exactly the text of the specified DOT pieces in order, whose meaning `DotReading.TextReads` spells out |
| `CanonicalDot.GroupByCluster` | apps/layout/canonical.py:80-84 | each non-empty cluster name holds its members in sorted order, and exactly their ids are marked |
| `CanonicalDot.VerificationRankGroups` | apps/layout/canonical.py:36-56 | the sorted pairs are exactly the work and verification ends of verifies edges, work first |
| `CanonicalDot.DeclaresEachNodeOnce` | apps/layout/canonical.py:77-93 | the DOT declares every node exactly once, clustered or not |
| `CanonicalDot.RankGroupsIgnoreOrder` | apps/layout/canonical.py:36-56 | on a valid graph the rank groups do not depend on listing order |
| `CanonicalDot.DotIgnoresOrder` | apps/layout/canonical.py:59-108 | permuting nodes and edges of a valid graph leaves every piece of the DOT unchanged |
| `CanonicalDot.CacheKeyIgnoresOrder` | apps/layout/service.py:144-197 | so class, engine, focus, DOT text and the whole digest input are unchanged too |
| `DotReading.TextReads` | apps/layout/canonical.py:59-108 | the text of a valid graph is the header, the graph attributes by key with the focus as root, one block per cluster name with its nodes, the other nodes, one statement per edge from its source to its target, the rank pairs, and the closing brace, each cut into lines spelled out on the graph's own fields |
| `DotReading.EveryEdgeIsStated` | apps/layout/canonical.py:95-102 | every edge occurs in the text from source to target with its id, and with constraint=false exactly if its kind does not constrain |
| `DotReading.GroupsAreRanked` | apps/layout/canonical.py:36-56 | two ids are ranked together exactly if a verifies edge joins, either way, a work or implementation node and a verify or verification node, the work first |
| `Ordering.LessMeans` | apps/layout/canonical.py:77 | the order used for sorting is that of code points at the first difference, a prefix coming first |
| `ShardPlanner.LargestSlice` | apps/extraction/planner.py:268-288 | the chosen slice fits and one more row does not or does not exist, found with at most 2*floor(log2 b)+2 probes, for any size function |
| `ShardPlanner.SplitRows` | apps/extraction/planner.py:266-295 | every shard is non-empty and locally largest, with the probe bound; an error names a row that alone does not fit |
| `ShardPlanner.SplitTable` | apps/extraction/planner.py:261-295 | the shards concatenate to the table, each fits and is non-empty; when fitting is closed under sub-slices it raises exactly if some single row does not fit |
| `ShardPlanner.GreedyStaysAhead` | apps/extraction/planner.py:268-294 | after k shards greedy has consumed at least as many rows as any other fitting split |
| `ShardPlanner.GreedyIsOptimal` | apps/extraction/planner.py:268-295 | no contiguous split into fitting slices uses fewer shards |
| `ShardPlanner.SplitMeansRowsFit` | apps/extraction/planner.py:289-292 | any fitting split means every single row fits |
| `ShardPlanner.AppendPlans` | apps/extraction/planner.py:379-389 | plans keep consecutive indices and gain exactly the shards' rows in order |
| `ShardPlanner.PlanShards` | apps/extraction/planner.py:370-409 | the plans hold the rows of all source tables in order, indexed from 0, and an empty source still gets one empty plan; planning fails only on a table with a row that does not fit or a non-positive limit, and, under closure for every table, exactly then |
| `ShardLedger.ExtractionJob.SyncShard` | apps/extraction/tasks.py:347-374 | a shard takes its offload's mapped status, rows and error, and nothing else changes |
| `ShardLedger.ExtractionJob.ReplanShard` | apps/extraction/planner.py:426-467 | the original is superseded and its two halves are appended queued, under the next two indices |
| `ShardLedger.ExtractionJob.VisitShard` | apps/extraction/tasks.py:385-406 | one pass over a shard: skip superseded, synchronise, split an oversize failure, or note the refusal on shard and offload |
| `ShardLedger.ExtractionJob.Reconcile` | apps/extraction/tasks.py:378-428 | one reconciliation as one atomic step over the whole stored job, cut short by an unhandled error included |
| `ShardLedger.HalveConserves` | apps/extraction/planner.py:426-467 | halving keeps indices, origins and, per planned shard, the multiset of rows held and the budget of shards |
| `ShardLedger.ReconcileConserves` | apps/extraction/tasks.py:378-428 | a whole reconciliation keeps all of that, whatever fails in it |
| `ShardLedger.AdoptionConserves` | apps/extraction/tasks.py:188-194 | freshly adopted shards hold exactly the planned rows |
| `ShardLedger.RunConserves` | apps/extraction/tasks.py:378-428 | over any serial run the non-superseded shards of each planned shard hold exactly its rows, each once, with unique indices |
| `ShardLedger.AtMostTwiceRowsShards` | apps/extraction/planner.py:426-467 | a planned shard of n >= 1 rows gives rise to at most 2n-1 shards in all |
| `ShardLedger.SuccessHoldsIff` | apps/extraction/tasks.py:378-428 | one step from a job whose SUCCEEDED is right leaves it right exactly unless it is a call on that job that is cut short |
| `ShardLedger.SucceededIffCompleted` | apps/extraction/tasks.py:378-428 | in any run a job that reads SUCCEEDED has only succeeded active shards exactly if its last reconciliation ran to its end |
| `ShardLedger.SucceededMeansDelivered` | apps/extraction/tasks.py:409-428 | in any run, a job that reads SUCCEEDED has every planned row in exactly one succeeded shard if its last reconciliation ran to its end, and, no planned shard being empty, only then |
| `ShardLedger.SteadySuccessDelivers` | apps/extraction/tasks.py:347-428 | in every run in which succeeded offloads stay so, SUCCEEDED always means that every planned row lies in exactly one succeeded shard |
| `ShardLedger.SuccessCanMislead` | apps/extraction/tasks.py:393-408 | in general it does not: after a rerun refused as oversize and a storage failure the job reads SUCCEEDED and its row is delivered nowhere |
| `ShardLedger.ExtractionJob.SyncAll` | apps/extraction/tasks.py:409-413 | every active shard is synchronised and the active ones are counted |
| `ShardLedger.CallMeans` | apps/extraction/tasks.py:378-428 | any call on any reachable job, shard by shard on the offload's own fields: which shards it splits, which refusals it notes on shard and offload, what every other shard takes over, when it runs through, and then, every replacement queued under an orchestration job of its own, the job's status, shard count and row total |
| `ShardLedger.SplitsExactly` | apps/extraction/tasks.py:389-406 | a shard is superseded only if it was active with at least two rows and its offload failed with the oversize code in its error; if every split succeeds, all of those are |
| `ShardLedger.CompletesIff` | apps/extraction/tasks.py:385-408 | a call runs to its end exactly if the job is not cancelled, storage fails at no shard that is to be split, and whatever is split can be dispatched |
| `ShardLedger.FoldSummarises` | apps/extraction/tasks.py:414-425 | RUNNING, SUCCEEDED, PARTIAL, CANCELED and FAILED each exactly by the statuses that occur among active shards |
| `ShardLedger.TotalsCount` | apps/extraction/tasks.py:426-427 | the two totals are the number of active shards and of rows those report |
| `ShardLedger.TimeoutFails` | apps/extraction/tasks.py:389-392 | a shard that fails with a plain timeout is not split: it and its job end FAILED |
| `Submission.NextKeeps` | apps/extraction/tasks.py:144-210 | every atomic step of every call keeps the adopt-or-discard invariant |
| `Submission.RunKeeps` | apps/extraction/tasks.py:144-210 | every interleaving of calls keeps it |
| `Submission.AdoptedAtMostOnce` | apps/extraction/tasks.py:181-196 | at most one planning attempt is ever adopted |
| `Submission.ReferencedArtifactsSurvive` | apps/extraction/planner.py:335-351 | no step, discarding included, removes an artifact that a shard references |
| `Submission.NothingUnaccounted` | apps/extraction/tasks.py:156-207 | when all calls have returned, a written artifact is stored exactly if one shard references it or it was left by a write or delete that reported a failure; failed replans included |
| `Submission.NoFailureNoLeak` | apps/extraction/planner.py:345-351 | without storage failures no artifact is left behind |
| `Submission.DecisionMeans` | apps/extraction/tasks.py:180-210 | in every run a deciding call on a cancelled job, or one that has shards, changes neither and turns to discarding; otherwise the shards become exactly the artifacts this call wrote, all stored, and the job runs |
| `Submission.DecisionAdopts` | apps/extraction/tasks.py:180-196 | once a call has decided on a job that is not cancelled, exactly one plan is adopted, whatever follows |
| `Submission.LoneCallAdopts` | apps/extraction/tasks.py:144-210 | a call alone that plans n >= 1 shards has exactly those adopted and stored, and the job runs |
| `Submission.LoneCallFails` | apps/extraction/tasks.py:156-178 | a call alone whose planning fails deletes what it wrote and leaves the job FAILED without shards |
| `Submission.GuardsMean` | apps/extraction/tasks.py:144-178 | a cancelled job is not planned, one with shards is not planned again, and a failure is recorded on neither |
| `LayoutCache.MemoryCache.constructor` | apps/layout/cache.py:126-128 | the cache starts empty and its capacity is at least one |
| `LayoutCache.MemoryCache.Get` | apps/layout/cache.py:85-99 | a hit is the last value set under that key, not expired; an unexpired key with fewer than capacity others touched since is a hit |
| `LayoutCache.MemoryCache.Set` | apps/layout/cache.py:109-132 | a write that takes effect stores the newest entry and ends within capacity; a skipped one changes nothing |
| `LayoutCache.MemoryCache.Evict` | apps/layout/cache.py:129-130 | eviction drops the oldest entries only, down to capacity, never the one just written |
| `LayoutCache.MemoryCache.Clear` | apps/layout/cache.py:135-137 | clearing empties the cache |
| `LayoutCache.StoreRefines` | apps/layout/cache.py:124-125 | storing keeps the refinement of the history |
| `LayoutCache.HitRefines` | apps/layout/cache.py:96-97 | a hit keeps it |
| `LayoutCache.ExpiryRefines` | apps/layout/cache.py:93-95 | dropping an expired entry keeps it |
| `LayoutCache.EvictionRefines` | apps/layout/cache.py:129-130 | evicting the oldest entry over capacity keeps it |
| `LayoutCache.PresenceIsRecency` | apps/layout/cache.py:85-99 | in a history without expiry a key is present exactly if it was stored and fewer than capacity distinct others were touched since |
| `LayoutCache.CacheKeyInjective` | apps/layout/cache.py:23-24 | two tenants or digests never share a key |
| `Utf8.HeadRoundTrip` | theorem_ml/extract/elements.py:106 | decoding the head of encoded text gives back the character and its length (RFC 3629, section 3) |
| `Utf8.DecodeEncode` | theorem_ml/extract/claims/resolve_span.py:20 | decoding encoded text gives the text back |
| `Utf8.SliceByPrefixes` | theorem_ml/extract/spans/gliner2.py:67-69 | offsets obtained by encoding prefixes slice exactly the encoded substring |
| `Forests.ForestMeansAcyclic` | theorem_ml/extract/elements.py:82-90 | a parent map is a forest exactly if parents are known and there is no cycle |
| `Forests.EndingMeansForest` | theorem_ml/extract/elements.py:84-90 | if every walk upwards ends, the parents form a forest |
| `DocTree.WalkUp` | theorem_ml/extract/elements.py:84-90 | the walk ends without error only at a root, and reports an error only when the parents are not a forest |
| `DocTree.CheckElement` | theorem_ml/extract/elements.py:74-83 | one element passes exactly if kind, span, text, page and parent are acceptable |
| `DocTree.Validate` | theorem_ml/extract/elements.py:67-90 | validation succeeds exactly on valid trees |
| `DocTree.BufferHoldsText` | theorem_ml/extract/elements.py:101-110 | the buffer's bytes at an element's offset are its text, followed by one newline byte unless it is last |
| `DocTree.BuiltIsValid` | theorem_ml/extract/elements.py:97-112 | the rebased tree is valid exactly if ids, kinds, pages and parents were acceptable: rebasing never spoils a span |
| `DocTree.BuildTree` | theorem_ml/extract/elements.py:97-112 | the loop builds exactly that tree or raises exactly when it cannot be valid |
| `DocTree.SpansAreSeparated` | theorem_ml/extract/elements.py:103-109 | spans are ordered, disjoint, and neighbours are one byte apart |
| `DocTree.RebasedMeans` | theorem_ml/extract/elements.py:103-111 | rebasing numbers the elements as listed, starts each one byte after the previous, and keeps every other field |
| `Spans.NormalizeSpan` | theorem_ml/extract/spans/gliner2.py:60-77 | accepts exactly verbatim in-range character spans with a confidence in [0, 1], and the byte re-check never fails |
| `Spans.LocalSpanRoundTrips` | theorem_ml/extract/spans/gliner2.py:45-50 | a local byte span rebased by global_span slices its text from the buffer and finds its own element again |
| `Spans.AcceptedSpanRoundTrips` | apps/extraction/services/capture_admission.py:241 | a range accepted in an element slices the same text out of the built buffer, and the owner found by byte position is that element |
| `Spans.Find` | theorem_ml/extract/claims/resolve_span.py:13-16 | the least occurrence at or after a position, or none |
| `Spans.ResolveSpan` | theorem_ml/extract/claims/resolve_span.py:5-22 | succeeds exactly on a verbatim hinted quote or a quote occurring once, with exactly the quote's bytes; the final re-check never fails |
| `Sections.ClosestHeading` | theorem_ml/extract/elements.py:122-125 | the closest earlier heading of strictly smaller level |
| `Sections.LastHeading` | theorem_ml/extract/elements.py:127-128 | the last heading before a position |
| `Sections.SectionHierarchy` | theorem_ml/extract/elements.py:115-130 | the stack loop gives each unplaced heading the closest earlier one of smaller level, and other content the last heading |
| `Sections.PlacementPointsBack` | theorem_ml/extract/elements.py:115-130 | if explicit parents point backwards, so do all parents afterwards |
| `Sections.PlacementIsForest` | theorem_ml/extract/elements.py:115-130 | then the result is a forest |
| `Sections.PlacementMeans` | theorem_ml/extract/elements.py:115-130 | placement only fills missing parents: titles, headers, footers and page breaks get none, everything else the closest earlier heading that may hold it, if there is one |
| `PageMerge.NearestIsFirstSurvivor` | theorem_ml/extract/parse/router.py:105-106 | the ancestor chosen is the first surviving one on the native chain |
| `PageMerge.NearestKept` | theorem_ml/extract/parse/router.py:104-106 | the while loop terminates and finds it, or none |
| `PageMerge.CollectPages` | theorem_ml/extract/parse/router.py:93-99 | pages in order, each replaced or native, then the elements without a page |
| `PageMerge.MergePages` | theorem_ml/extract/parse/router.py:90-108 | the call returns the rebased merge exactly when it is a buildable tree |
| `PageMerge.MergeIsBuildable` | theorem_ml/extract/parse/router.py:90-108 | for a valid native tree and valid id-disjoint replacements the merge is always a buildable, hence valid, tree |
| `PageMerge.ReplacementKeepsParent` | theorem_ml/extract/parse/router.py:103-107 | elements of a replacement keep their own parent |
| `PageMerge.PageContents` | theorem_ml/extract/parse/router.py:93-108 | the merge is, page by page in order, the page's replacement or native elements and then the elements without a page, each with its new order and nearest surviving parent |
| `PageMerge.SelectMeans` | theorem_ml/extract/parse/router.py:94-99 | the elements selected for a page are exactly those carrying that page, each once, in their order |
| `PageMerge.PageByNumber` | theorem_ml/extract/parse/router.py:93-108 | when replacements carry their own page number, selecting an in-range page by number gives exactly that |
| `Layers.BuildChildren` | theorem_ml/extract/layers.py:15-21 | the children lists hold exactly the elements naming a parent, sorted by order |
| `Layers.ChildrenMean` | theorem_ml/extract/layers.py:15-21 | the children of a key are exactly the elements naming it as their parent, the empty id apart, and stand in document order |
| `Layers.LinksAreParents` | theorem_ml/extract/layers.py:18 | the truthiness test agrees with the stored parents exactly if no parent is the empty id |
| `Layers.DescendantsAreBelow` | theorem_ml/extract/layers.py:23-27 | descendants terminates and lists, once each, exactly the elements whose ancestor chain contains the key |
| `Layers.SubtreesAreExact` | theorem_ml/extract/layers.py:13-32 | so on every valid tree, by the links the truth test leaves |
| `Layers.SubtreesFollowParentsIff` | theorem_ml/extract/layers.py:13-32 | on a valid tree descendants lists, once each, exactly the elements whose stored ancestor chain contains the key, for every key, if and only if no parent is the empty id |
| `Layers.EmptyIdLosesChild` | theorem_ml/extract/layers.py:18 | a valid tree of two elements on which the child of the empty id is missed |
| `Tables.HtmlTableCells` | theorem_ml/extract/elements.py:286-303 | the row loop places the cells as specified and reports the row count and width |
| `Tables.PlacementIsWell` | theorem_ml/extract/elements.py:291-301 | every cell starts on a slot that no earlier cell covers |
| `Tables.WidthIsTight` | theorem_ml/extract/elements.py:301-302 | the width covers every cell and is reached by one, or is 0 |
| `Tables.EveryCellPlaced` | theorem_ml/extract/elements.py:286-303 | the cells come out in reading order with their own text, header mark, spans and row, each in the first column from the end of its left neighbour on that no earlier cell covers |
| `Tables.ClaimSlots` | theorem_ml/extract/elements.py:164-168 | a clash is reported exactly when the cell meets an occupied slot |
| `Tables.TableElements` | theorem_ml/extract/elements.py:153-179 | accepts exactly in-range pairwise disjoint cells; the grid holds each text at its start and is blank elsewhere |
| `Tables.MergedAreListed` | theorem_ml/extract/elements.py:169-172 | the merged extents are those of exactly the cells spanning more than one row or column, in their order |
| `Tables.PlacedTableAccepted` | theorem_ml/extract/elements.py:279-303 | a placed HTML table is accepted if and only if each cell has positive spans, stays within the rows and finds its first row clear |
| `Tables.SingleColumnsAccepted` | theorem_ml/extract/elements.py:279-303 | it always is when every column span is 1 and row extents are in range |
| `Tables.OverhangRefused` | theorem_ml/extract/elements.py:292-297 | in general it is not: a column span running under a hanging cell is placed and then refused |
| `Docling.Traversal.Emit` | theorem_ml/extract/elements.py:203-236 | an item with its table cells is emitted under the given parent, or a real fault of the item is reported |
| `Docling.Traversal.Visit` | theorem_ml/extract/elements.py:196-240 | the depth-first visit terminates, reports an error only for a visited dangling, cyclic or faulty reference, and otherwise emits the reference |
| `Docling.Traversal.VisitChildren` | theorem_ml/extract/elements.py:237-238 | the children loop emits every child or reports such an error |
| `Docling.RepeatIsCycle` | theorem_ml/extract/elements.py:197-198 | meeting an active reference again means it lies on a cycle |
| `Docling.MetBelowIsNoRoot` | theorem_ml/extract/elements.py:237-238 | a reference first met below another root is none of those visited on their own |
| `Docling.MetOnFirstWalk` | theorem_ml/extract/elements.py:237-238 | the walk on which an unemitted reference is met starts at the first root that reaches it and always takes the first child that does |
| `Docling.OneFirstWalk` | theorem_ml/extract/elements.py:196-252 | off cycles that walk is unique |
| `Docling.Traversal.VisitTurn` | theorem_ml/extract/elements.py:248-252 | the loop over the references visits the labelled ones not yet emitted, under the parent they declare if that was emitted |
| `Docling.UnemittedIsLate` | theorem_ml/extract/elements.py:248-252 | an item still not emitted at its turn is reached by no earlier root |
| `Docling.AllEmittedMeansNoneBad` | theorem_ml/extract/elements.py:199-202 | once every root is emitted no visited reference is dangling, on a cycle or faulty |
| `Docling.FromDocling` | theorem_ml/extract/elements.py:192-252 | raises if and only if a visited reference is dangling, on a cycle or faulty, and otherwise emits each labelled item and each cell of its tables exactly once, after its parent: the nearest labelled ancestor on the first depth-first walk to it, none for a traversal root, or for an item no earlier root reaches the parent it declares if that was emitted |
| `Docling.OutputKinds` | theorem_ml/extract/elements.py:133-140 | every emitted element has the kind of its item's tag, a kind the element tree accepts; table cells are the only other elements |
| `CompetenceContract.CanonicalTest` | apps/competence/api.py:161-162 | comparing a list with its sorted set is a test for sortedness without repetition |
| `CompetenceContract.ValidateFitRequest` | apps/competence/api.py:86-225 | the accumulating loop returns the first refusal in the order of the checks, or none |
| `CompetenceContract.VerdictMeansAdmitted` | apps/competence/api.py:86-225 | no refusal exactly if, spelled out on the request's fields, the header is in order (the two corpora different, a previous scorer exactly for a refit), items are, lineages differ, both roles occur, and both reference lists summarise the evidence exactly |
| `CompetenceContract.HeaderMeans` | apps/competence/api.py:86-149 | the header passes exactly if contract, kind, previous scorer, operation id, scope, digests, floor and oracle are as spelled out |
| `CompetenceContract.RefusalReports` | apps/competence/api.py:86-225 | every refusal names a condition that the request really violates |
| `CompetenceFit.ValidateLearningEvidence` | apps/competence/fitter.py:64-90 | reports the first held-out item without a selection or with one out of range |
| `CompetenceFit.LearningFault` | apps/competence/fitter.py:64-90 | no fault exactly if every held-out item has a selection in range |
| `CompetenceFit.ObserveTraining` | apps/competence/fitter.py:147-148 | the training loop adds each survival to alpha and each failure to beta |
| `CompetenceFit.ObserveHeldOut` | apps/competence/fitter.py:150-163 | the held-out loop adds each weighted outcome and its complement, and records every selection |
| `CompetenceFit.FitCompetence` | apps/competence/fitter.py:134-280 | the loops over sorted evidence compute the fit specified by order-free sums over the request's evidence, with the same errors |
| `CompetenceFit.LearnedInTurn` | apps/competence/fitter.py:138-163 | learning training and then held-out evidence is learning all of it |
| `CompetenceFit.LearnedStaysPositive` | apps/competence/contract.py:127-133 | evidence in range never makes a parameter non-positive |
| `CompetenceFit.ScorerPasses` | apps/competence/contract.py:204-225 | for an admitted request the scorer passes every validator exactly if its decision list repeats nothing |
| `CompetenceFit.AdmittedFitSucceedsIff` | apps/competence/fitter.py:134-280 | an admitted request with the previous scorer it names is fitted if and only if w02_decision_refs is as long as the held-out evidence and a refit brings fresh lineages |
| `CompetenceFit.ConcludedIgnoresOrder` | apps/competence/fitter.py:138-170 | with one lineage per item, scorer, model payload and prior pack do not depend on the order of the evidence |
| `CompetenceFit.FittedFacts` | apps/competence/fitter.py:242-280 | a fit is valid, its prior and posterior are the sums, its descriptors are the digests of its payloads, and accepted compares the mean with the floor |
| `CompetenceFit.PosteriorNearReported` | apps/competence/fitter.py:149-162 | posterior alpha is within the sum of 1e-12*max(1, w) of prior alpha plus the reported weighted outcomes |
| `CompetenceFit.SumIgnoresOrder` | apps/competence/fitter.py:138-157 | evidence sums do not depend on order |
| `CompetenceFit.FitIgnoresEvidenceOrder` | apps/competence/fitter.py:138-145 | listing the evidence in another order changes neither admission nor, under the same digest, any part of the fit |
| `CompetenceFit.OwnDigestsAgree` | apps/competence/fitter.py:134-280 | under each listing's own digest both are fitted with the same prior, posterior, acceptance and lists, or both refused with the same error |
| `CompetenceChains.ChainAddsUp` | apps/competence/fitter.py:93-170 | along every refit chain alpha and beta are 1 plus the sums over all evidence consumed, and the prior those up to the last training evidence |
| `CompetenceChains.ChainMass` | apps/competence/fitter.py:55-61 | total mass is 2 plus the training count plus the held-out weights |
| `CompetenceChains.ChainIgnoresArrangement` | apps/competence/fitter.py:93-170 | dividing the same evidence differently over fits and refits gives the same posterior |
| `CompetenceChains.ChainKeepsScope` | apps/competence/fitter.py:118-130 | a chain stays in one scope and each refit's lineages are new to its predecessor |
| `CompetenceChains.ExtensionCountsOnceIff` | apps/competence/fitter.py:123-130 | a refit keeps every lineage counted once exactly if its evidence is also new to the requests before its predecessor |
| `CompetenceChains.LineageMayReturn` | apps/competence/fitter.py:123-130 | which is not checked: under any new operation id the evidence of any fit is admitted, fitted and counted again two refits later |
| `CompetenceReports.FitCounts` | apps/competence/fitter.py:147-163 | in every fit the prior adds the number of surviving training items to alpha and of failed ones to beta, and the posterior the weighted outcomes and their complements |
| `CompetenceReports.ChainCounts` | apps/competence/fitter.py:93-170 | along every chain alpha is one plus the survivors and weighted outcomes consumed, beta one plus the failures and complements |
| `CompetenceReports.FitContents` | apps/competence/fitter.py:164-280 | the scorer repeats the request's terms, and payloads and receipt hold its identities, lists and beliefs |
| `CompetenceReports.FitterExplains` | apps/competence/fitter.py:64-133 | each error of the fitter says something true of the request, and a refit succeeds only with the scorer it names, in its scope, on fresh lineages |
| `CompetenceJobs.CompetenceJob.Claim` | apps/competence/tasks.py:37-71 | a claim takes over queued, failed and own jobs, leaves final ones alone, and still proceeds on a job another worker is running |
| `CompetenceJobs.CompetenceJob.RecordArtifact` | apps/competence/tasks.py:125-136 | an artifact is bound unless its id is already bound to another key |
| `CompetenceJobs.CompetenceJob.FinishSuccess` | apps/competence/tasks.py:181-217 | only a running job takes scorer, artifact map and success |
| `CompetenceJobs.CompetenceJob.FinishProblem` | apps/competence/tasks.py:220-249 | a problem replaces any status but a cancellation |
| `CompetenceJobs.CompetenceJob.Recover` | apps/competence/tasks.py:327-351 | a stale running job is queued again without its worker |
| `CompetenceJobs.RefitAgrees` | apps/competence/tasks.py:74-104 | whichever matching succeeded job is found first, a refit has only one possible result |
| `CompetenceJobs.AdvanceKeeps` | apps/competence/tasks.py:139-249 | every publication, recording and finishing step keeps the invariant |
| `CompetenceJobs.FitStepKeeps` | apps/competence/tasks.py:266-274 | so does every fit step, refusals included |
| `CompetenceJobs.NextKeeps` | apps/competence/tasks.py:252-359 | so does every step of any worker, submission, sweep, cancellation or loss of an object |
| `CompetenceJobs.RunKeeps` | apps/competence/tasks.py:252-359 | so does every interleaving in which no two hashed payloads collide |
| `CompetenceJobs.SucceededIsFitted` | apps/competence/tasks.py:181-217 | in every reachable state a succeeded job holds the fit of its bound request, which ends a chain of fits, and exactly the two artifacts that were written and read back |
| `CompetenceJobs.BindingNeverFails` | apps/competence/tasks.py:107-122 | an accepted request always matches its binding |
| `CompetenceJobs.ScorerNeverChanges` | apps/competence/tasks.py:195-212 | once stored, a job's scorer is never replaced by another, not after failure, recovery or retry |
| `CompetenceJobs.SucceededLeavesIff` | apps/competence/tasks.py:220-249 | of the service's own steps exactly a worker still recording a problem ends success; the other case is a status set to canceled from outside |
| `CompetenceScenarios.LoneWorkerSucceeds` | apps/competence/tasks.py:257-275 | a worker left alone brings a running job that can be fitted and published to success |
| `CompetenceScenarios.JobSucceeds` | apps/competence/api.py:279-307 | an admitted request under an unused operation id becomes a job that succeeds, its fit starting from nothing or from a succeeded job it names |
| `CompetenceScenarios.ThreeJobsCountTwice` | apps/competence/fitter.py:123-130 | a fit, a refit and a refit of the first evidence are a run of three jobs that all succeed, the last counting that evidence twice |
| `CompetenceScenarios.ConcreteLineageCountedTwice` | apps/competence/fitter.py:123-130 | such a run on concrete requests, in which no two hashed payloads collide |
| `CompetenceScenarios.SharedDecisionRefused` | apps/competence/api.py:210-221 | a concrete request whose held-out items share a decision is admitted and refused by the fit, and fitted without the second of them |
| `CompetenceScenarios.ConcreteFailureCounts` | apps/competence/fitter.py:147-148 | a concrete first fit on one failed training item has prior Beta(1, 2) and posterior Beta(2, 2) |
| `CompetenceScenarios.ConcreteSuccessLost` | apps/competence/tasks.py:220-249 | a concrete request whose job reaches succeeded and then failed |
| `CompetenceScenarios.SuccessCanBeLost` | apps/competence/tasks.py:48-53 | two workers on one job can take it to succeeded and then to failed, with the scorer still stored |
| `CompetenceOutcomes.StepMeans` | apps/competence/tasks.py:37-359 | the new row after any one step of the system: claimed, finished, failed, refused, recovered or cancelled exactly when its own fields and the moving worker's stage say so, and otherwise with status, scorer, task and attempts as they were |
| `CompetenceOutcomes.RefusedOnlyByFit` | apps/competence/tasks.py:266-310 | a worker raises a refusal only at the fit, exactly if the binding is broken, no succeeded job is the one named, or the fit refuses; every other problem is a failure |
| `CompetenceOutcomes.DeliveryStarts` | apps/competence/tasks.py:257-263 | a delivery starts a fit exactly if the row is not final |
| `CompetenceOutcomes.PublishedIsSized` | apps/orchestration/artifacts.py:439-466 | in every reachable state what was put and read back lies under its own digest, is not empty, and is within the limit |
| `CompetenceOutcomes.SucceededHolds` | apps/competence/tasks.py:139-217 | in every reachable state a succeeded row's two artifacts are bound, under the scorer's digests, to the keys of their kinds in its tenant, project and candidate, and were published there |
| `CompetenceOutcomes.OneJobPerOperation` | apps/competence/api.py:276-305 | however submissions and workers interleave, a tenant never has two jobs under one operation id |
| `CompetenceOutcomes.BindingsStay` | apps/competence/api.py:276-305 | no step drops or rebinds a job |
| `CompetenceOutcomes.JobRefused` | apps/competence/tasks.py:266-283 | an admitted request whose fit refuses becomes a refused job with no scorer and no artifact |
| `CompetenceOutcomes.UnknownPreviousRefused` | apps/competence/tasks.py:74-104 | a refit naming no succeeded job of its tenant and project ends refused |
| `CompetenceOutcomes.StorageErrorFails` | apps/competence/tasks.py:291-303 | a worker whose storage fails leaves its job failed |
| `CompetenceOutcomes.UnstorableFails` | apps/orchestration/artifacts.py:439-442 | a payload that is empty or over the limit is not put, and the job fails |
| `CompetenceOutcomes.SharedDecisionEndsRefused` | apps/competence/tasks.py:276-283 | a concrete admitted request ends refused, and a second delivery leaves it so |

## Left out

- HTTP routes, the ORM, Celery transport, object-storage clients, RunPod, MLflow and Graphviz itself: input and output. Rows are fields, transactions are steps, and the cancel and admin routes appear only as steps that set a status; for competence jobs no route sets CANCELED, so there the step stands for a change from outside.
- Arrow encoding: a table is a sequence of rows with an uninterpreted size; dictionary-encoded or sliced buffers can make that size non-monotone, which is why closure under sub-slices is a hypothesis of the optimality results alone.
- Dispatching a shard is a request only: what its offload does is a later event, also where the broker runs tasks at once.
- Overlapping reconciliations of one extraction job: `_sync_shard` saves a whole, possibly stale row, so conservation is claimed for serial runs only.
- A transaction whose commit outcome is unknown to the caller, which could discard artifacts of an adopted plan.
- Submission.NextKeeps: models the calls as phases of a state machine on values, not as objects, and a plan as the list of its artifacts; what is in a shard is left to the ledger.
- ShardLedger.RunConserves: the planned shard each shard descends from is recorded in the model only; a shard's rows stand for its immutable input artifact.
- The Redis and Valkey path of the layout cache, its deadlines and the lock: whether a lock was obtained and the time read are parameters.
- CanonicalDot.CanonicalDot: the text is built by concatenation instead of joining a list of lines, and graph attributes come as a map; the DOT grammar and Graphviz's reading of it are not modelled.
- The SHA-256 digest of the layout key and the JSON form of its parameters: equality of the digest's inputs is proved.
- LayoutGraph.ValidateGraph: NaN and infinite sizes, which reals do not have; the same holds for the finiteness tests of admission and of the fitter.
- Floating-point rounding in the fitter: the order-independence results are about exact arithmetic, and the code's sort by lineage is what makes its rounding reproducible.
- Lone surrogates, which Python strings may hold and UTF-8 refuses to encode.
- DocTree.BuildTree: bounding boxes and attributes other than the heading level, which are copied unchanged.
- Spans.NormalizeSpan: the label fields copied into the span, and non-integer offsets or confidences.
- Docling.FromDocling: bounding boxes, attributes and source order numbers; caption re-parenting after the traversal (`theorem_ml/extract/elements.py:253-262`); the final calls of `section_hierarchy` and `build_tree`, which are modelled in `Sections` and `DocTree`. Element ids are injective in the reference and the cell number.
- Docling.Traversal.Visit: Python's recursion limit.
- `from_paddle`, and parsing of HTML before the rows are known; `html_table_cells` is a simplification of section 4.9.12.1 of the HTML Living Standard, and nothing is claimed about that standard.
- PageMerge.MergePages: a native tree whose parents form a cycle, which the code would follow forever and which validation rules out.
- Layers.BuildChildren: the summaries, claims and entities collected per element after the closure.
- CompetenceContract.ValidateFitRequest: schema parsing, which gives the fields their types; the tenant and project checks of the route.
- CompetenceJobs.RunKeeps: timestamps, error texts and the refusal record; which stale jobs a sweep finds is arbitrary. The cleanup route appears only as objects that disappear.
- The capture-admission stages other than the owner lookup, and every library whose behaviour is not visible in the repository (span models, solvers, spaCy, TabICL, River).
- Billing, scopes, tenancy, webhooks, migrations, fixtures, `theorem_ml/extract/temporal.py` and the bench scores: easy or data only.
