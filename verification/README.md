# VMClarity: verified models of its stateful logic

VMClarity schedules agentless scans of virtual machines, drives them through status machines and
merges what several analyzers and scanners report. This project models the parts of it that keep
state or transform data, and proves what they promise over every input, every run and every
interleaving. Code that updates an object in place is a class whose methods are proved against
functions on values; what the code promises is then proved of those functions.

| file | what it is about |
|---|---|
| `WorkQueue.dfy`, `QueueRuns.dfy` | the orchestrator's de-duplicating queue, first as a sequential object, then with producers, timers, a clock and any number of consumers interleaved |
| `SbomMerge.dfy`, `SbomRuns.dfy`, `SbomFields.dfy` | merging CycloneDX documents: canonical refs, the dependency graph, the fields of a component |
| `Purl.dfy` | printing, parsing, correcting and merging package URLs |
| `VulnerabilityMerge.dfy` | folding scanner reports into one list of distinct variants per vulnerability and package |
| `LogarithmicFit.dfy` | the least-squares fit of `y = a ln(x) + b` |
| `StatusMachine.dfy`, `AssetScanServer.dfy` | the status machines, the API handlers that guard them, and the scanner that writes back copies it read earlier |
| `AzureProvider.dfy` | setting up and tearing down a scan in a cloud that moves on its own and fails at will |
| `Discoverer.dfy`, `ContainerImage.dfy` | reconciling the table of assets with what a provider discovers; merging container images |
| `FamiliesManager.dfy` | the order of the scan families and the loop that runs them |
| `Common.dfy` | options, string order, stable sorting and what it identifies |

## How the pieces are modelled

**Queue.** One step of `QueueRuns` is one critical section, one timer firing, one tick of the clock
or one move of a consumer between two critical sections. A consumer that found the slice empty is
at one of three points: mutex released, blocked in the select, or notified without the mutex. The
read of `q.queue[0]` is in bounds in every run if and only if at most one goroutine dequeues. The
wake-up can be lost: an item enqueued between the unlock (line 89) and the select (line 93) leaves
the consumer asleep on a non-empty queue. The comments on `Dequeue` do not mention it; here it is
proved which items a sleeping consumer leaves behind, namely exactly those enqueued in that gap.

**SBOM merge.** Go visits maps in random order, so the search for a canonical ref is a relation
(`Resolves`) and the methods pick keys with `:|`. A ref is settled when it has been declared by the
time it is used, or when whatever it names is declared with it first, as anything undeclared is. The
merged graph is the image of all documents' edges under the final refs if and only if the documents
settle the ends of all their edges; `LateDeclarationIsMissed` is a family of documents that do not.
Without any assumption on the documents, no edge is lost or invented. The merge dereferences the
main component through nil for some sequences of documents; exactly which is proved too. The key of a
component is meant to be unique to a name and a version (line 31 of `cli/analyzer/merge.go`). It joins
the two with a dot, so it is not when they contain dots themselves: `SameKeyIff` says of all pairs which
ones share a key.

**Package URLs.** `net/url` is modelled down to the characters that delimit scheme, opaque part,
query and fragment. Its percent-encodings are a `Codec` whose laws (`Lawful`) the theorems assume.
The empty purl prints as `/@`, and reads back as empty. A purl with an unknown type and no namespace
does not read back as itself: it is lost, or corrected to `apk` when the type is `alpine`.

**Vulnerabilities.** Two reports are compared by their normal form: all string arrays sorted, CVSS
entries sorted by version. `NormalFormMeaning` says what that identifies. The key of a report joins ID,
package name and package version with dots; it tells findings apart whose IDs and package names contain
none, and `DotsAreConfused` is a family that it does not tell apart. IDs are modelled as the
pair of Merge call and key that drew them. `encodable` marks what `json.Marshal` refuses, the case
in which `getDiff` returns an error and both variants are kept. Sorting goes through the shared
arrays, so the stored variants and the candidate come out sorted; the model does the same.

**Fit.** Floats are exact reals and the logarithm is an arbitrary function.

**Status protocol.** A handler is one step. PATCH is a JSON merge patch, so a status sent without a
message keeps the stored message. What each machine accepts is told twice, by its table and by what
may precede each status, and the two are proved to agree; every answer and every stored object are then
stated without the table. A PUT that gets as far as a missing status dereferences a nil
error: a `Crash` that changes nothing. `CrashIff` says when: the body's id matches, the object exists,
and either the status is missing, or the status is acceptable and the cleanup status is missing.
The scanner's copies may be as old as one likes.

**Azure.** Between any two requests resources may finish or fail, copies may end, deletions may
complete and grants expire; any request may fail, with or without having taken effect. Whether the
disk is found among the VM's data disks is a comparison of pointers, so its outcome is arbitrary for a
VM that lists one. An attempt that asks to be retried has something under way that was not ready; so
when no call and no resource fails, and each attempt waits for what the last one began, the seventh is
the last.
A resource that fails is waited for with a retryable error, but nothing creates it again: from then on
no attempt succeeds.

**Discovery.** The query for assets to terminate compares with the discovery time as RFC 3339
prints it, in whole seconds: an asset last seen in the same second survives. A call that reports a
failure may have taken effect all the same. A discovered asset does not always stay live: when its
POST fails, or when it does not merge with the one stored, the loop goes on without refreshing it, and
the second loop terminates it. A stored asset is refreshable when something discovered is posted
without failing, has its identity and merges with it; after a discovery whose second loop does not
fail, the live assets are exactly the new ones and those live before that are refreshable or were last
seen in the same second. Discovering a terminated asset again refreshes it and leaves it terminated.
A refreshed asset ends with the info last found, or, for an image, with what its infos say together.

## Model

| member | source | states |
|---|---|---|
| QueueRuns.EveryRunIsConsistentAndFifo | orchestrator/common/queue.go:84-223 | in every interleaving of all operations, with any number of consumers, `inqueue` is the set of hashes in the slice, no hash is repeated, `waitingForEnqueue` is the set of hashes of sleeping goroutines, the three sets are disjoint, and the items enqueued so far are those dequeued so far followed by the slice |
| QueueRuns.KeyReleasedBetweenDequeues | orchestrator/common/queue.go:84-119 | between any two dequeues of one key there is a Done or RequeueAfter of it |
| QueueRuns.ReconcilingIsExclusive | orchestrator/common/reconciler.go:55-102 | when only the holder of an item acknowledges it, no two consumers hold one key and `processing` is exactly the set of keys held |
| QueueRuns.StepFollowsLifeCycle | orchestrator/common/queue.go:84-223 | every step moves at most one key, along Absent, Waiting, Queued, Processing and back to Absent or Waiting |
| QueueRuns.EnqueueAfterHoldsForItsDelay | orchestrator/common/queue.go:129-161 | an accepted EnqueueAfter keeps its key waiting, out of the slice and out of `processing`, until its delay has passed, whatever else happens |
| QueueRuns.RequeueAfterHoldsForItsDelay | orchestrator/common/queue.go:217-223 | the same for every accepted RequeueAfter, whoever calls it, in every run |
| QueueRuns.DelayedItemIsDueInTime | orchestrator/common/queue.go:154-160 | and no longer than its delay: for every accepted EnqueueAfter or RequeueAfter at time t with delay d, in every state from t + d on before a timer of its key has fired, the timer can fire, and that appends the item |
| QueueRuns.QueuedAfterItsDelay | orchestrator/common/queue.go:154-160 | after any run, an accepted delayed item is in the slice once the clock has gone on by exactly its delay and its timer has fired |
| QueueRuns.HeldItemIsAccepted | orchestrator/common/reconciler.go:83-90 | where only the holder of an item acknowledges it, a RequeueAfter of a held item is always accepted |
| QueueRuns.WaitingKeyIsQueuedByItsTimer | orchestrator/common/queue.go:154-160 | every waiting key has one pending timer and no other, and its firing appends the item to the slice |
| QueueRuns.IndexInBoundsIffOneConsumer | orchestrator/common/queue.go:86-112 | `q.queue[0]` is in bounds in every run if and only if there is at most one consumer |
| QueueRuns.TwoConsumersCanPanic | orchestrator/common/queue.go:94-112 | with two consumers, one woken for the only item finds it taken by the other |
| QueueRuns.BlockedWithMissedItems | orchestrator/common/queue.go:86-100 | a single consumer blocked in the select leaves in the slice exactly the items enqueued after it saw the slice empty and before it entered the select |
| QueueRuns.LostWakeup | orchestrator/common/queue.go:89-96 | a run in which the only consumer sleeps, one item is queued and nothing is pending |
| QueueRuns.OnlyAppendWakes | orchestrator/common/queue.go:165-179 | a sleeping single consumer is notified by a step exactly when that step appends an item, and otherwise leaves only when its context ends |
| QueueState.FireAppends | orchestrator/common/queue.go:154-160 | a timer that fires always appends its item to the slice and removes its own goroutine and key only |
| QueueState.PopKeepsInv | orchestrator/common/queue.go:112-116 | taking the head keeps the containers consistent; the key taken was not being processed |
| QueueState.EnqueueAllAppendsFresh | orchestrator/common/poller.go:58-61 | enqueuing a whole poll appends exactly its fresh items and leaves everything tracked alone |
| QueueState.FreshMeaning | orchestrator/common/poller.go:58-61 | the fresh items of a poll have distinct keys, those of the polled items that are not tracked yet |
| WorkQueue.Queue.Enqueue | orchestrator/common/queue.go:122-127 | appends an item whose key is in none of the three sets, changes nothing otherwise, and notifies exactly in the first case |
| WorkQueue.Queue.EnqueueAfter | orchestrator/common/queue.go:133-161 | the update of the fields is that of the specification; DelayedItemIsDueInTime and EnqueueAfterHoldsForItsDelay fix the instant at which the timer is due |
| WorkQueue.Queue.TimerFired | orchestrator/common/queue.go:154-160 | the body after the timer appends the delayed item and always notifies |
| WorkQueue.Queue.TakeHead | orchestrator/common/queue.go:112-118 | returns the head, removes it from slice and `inqueue`, and adds it to `processing`, where it was not |
| WorkQueue.Queue.FirstSection | orchestrator/common/queue.go:86-111 | takes the head if there is one and changes nothing otherwise |
| WorkQueue.Queue.Done | orchestrator/common/queue.go:207-211 | removes the key from `processing` and touches nothing else |
| WorkQueue.Queue.RequeueAfter | orchestrator/common/queue.go:217-223 | releases the key and schedules it in one critical section, as the specification says |
| WorkQueue.Queue.Has | orchestrator/common/queue.go:194-203 | true exactly for keys in the slice, being processed, or with a sleeping goroutine |
| WorkQueue.Queue.EnqueuePolled | orchestrator/common/poller.go:58-61 | the polling loop appends exactly the fresh items, in order |
| DependencyUnion.MergeDependencies | cli/analyzer/merge.go:328-374 | the output has exactly the edges and the non-nil entries of both inputs, one entry per ref, each with a sorted list without repetitions |
| DependencyUnion.SortedRefs | cli/analyzer/merge.go:362-366 | the refs of a set, each once, sorted |
| Common.StringLeMeaning | cli/analyzer/merge.go:362-366 | the order in which refs are sorted: a string precedes another if it is a prefix of it or has the smaller character where they first differ |
| Sbom.SameKeyIff | cli/analyzer/merge.go:128-130 | two components share a key if and only if name and version agree, or the name of one continues that of the other into its version |
| Sbom.DotFreeKeys | cli/analyzer/merge.go:128-130 | for names without a dot: they share a key if and only if name and version are equal |
| Sbom.DotsAreConfused | cli/analyzer/merge.go:128-130 | two components that differ in name and version and share a key |
| SbomMergeSpec.ToComponentByKeyMeaning | cli/analyzer/merge.go:132-138 | a key is present if and only if some component of the list has it, and then holds the last such component |
| SbomMergeSpec.ComponentsOfMeaning | cli/analyzer/merge.go:71-72 | the same for the components of one document, none if it lists none |
| SbomMerge.MergedResults.Merge | cli/analyzer/merge.go:57-89 | one Merge has exactly the effect of the specification `Merged` on all four fields, for every order in which maps are visited; its precondition, that no nil main component is dereferenced, is made exact by SafeIffMergeable |
| SbomMerge.MergedResults.MergeMainComponent | cli/analyzer/merge.go:91-104 | records the main ref, keeps the first metadata and merges later main components into it |
| SbomMerge.MergedResults.AddSourceHash | cli/analyzer/merge.go:447-470 | sets the hash only when none is there |
| SbomMerge.MergedResults.MergeComponentsOf | cli/analyzer/merge.go:71-79 | merges component by component, whatever the order of the keys |
| SbomMerge.MergedResults.GetRealBomRefFromPreviousBomRef | cli/analyzer/merge.go:376-392 | returns the BOMRef of some component that recorded the ref, else that of the main component if it did, else the ref itself |
| SbomMerge.MergedResults.NormalizeDependencies | cli/analyzer/merge.go:303-326 | resolves every ref of every entry, in place, keeping nil lists nil |
| SbomMerge.MergedResults.MergeDependenciesOf | cli/analyzer/merge.go:83-86 | only the dependencies change, into the union of the old ones with a resolution of the document's |
| SbomRuns.RunRecords | cli/analyzer/merge.go:91-160 | after any sequence of merges the recorded refs are exactly the declared ones, and every component goes by the first of its refs |
| SbomRuns.CanonIsItselfIffFirst | cli/analyzer/merge.go:140-182 | with unique refs, a ref stands for itself in the end if and only if whatever the documents declare with it, a component or the main component, they declare with it first |
| SbomRuns.CanonStableIffSettled | cli/analyzer/merge.go:376-392 | with unique refs, a ref means the same after a prefix of the merges as after all of them if and only if it was declared in the prefix or is, for what it names, the first ref declared |
| SbomRuns.CanonIdempotent | cli/analyzer/merge.go:376-392 | resolving twice is resolving once, and a declared ref resolves to the BOMRef of a merged component |
| SbomRuns.ResolvedRef | cli/analyzer/merge.go:376-392 | for all documents, also with refs used for several things: a ref resolves to the first ref declared for some component that they declare under it, else, if they declare the main component under it, to the first ref declared for that, else to itself |
| SbomRuns.NoEdgeLostOrInvented | cli/analyzer/merge.go:83-86 | for all documents: every merged edge is an edge of some document as resolved when it was merged, and every edge of every document is still there |
| SbomRuns.FinalImageIffSettled | cli/analyzer/merge.go:303-392 | an edge is recorded as its image under the final refs if and only if both ends were declared by then or are first refs |
| SbomRuns.MergedGraphIsImage | cli/analyzer/merge.go:57-104 | with unique refs, the merged graph is exactly the image of the union of all documents' edges under the final canonical refs if and only if the documents settle the ends of all edges |
| SbomRuns.DeclaredEdgesAreSettled | cli/analyzer/merge.go:303-392 | refs declared in their own document or an earlier one are settled |
| SbomRuns.LateDeclarationIsMissed | cli/analyzer/merge.go:376-392 | a family of two-document runs with unique refs in which an edge to a ref declared later is not its final image |
| SbomRuns.RunsAreMergeable | cli/analyzer/merge.go:91-104 | a sequence of merges that dereferences no nil pointer has a main component in every document with a source hash, in every document after the first with metadata, and in that one if it is not the last document |
| SbomRuns.SafeIffMergeable | cli/analyzer/merge.go:57-104 | after such a sequence, the next merge dereferences no nil pointer if and only if the sequence with it has that property |
| SbomRuns.SecondWithoutMetadata | cli/analyzer/merge.go:98-103 | a document without metadata merges first, but not after one with a main component, which is a nil dereference |
| SbomRuns.MergeEach | cli/families/sbom/family.go:74-78 | the merging loop produces a run for every sequence with that property |
| SbomFields.ComponentsSummarize | cli/analyzer/merge.go:140-286 | after any sequence of merges a component is present exactly when some document has it; each text field and part and the hashes are the first given, licenses and properties are concatenated in merge order with the analyzers' names, the package URL means the fold of those given, each merge printed and read back, and everything else is that of the first |
| SbomFields.NothingDropped | cli/analyzer/merge.go:71-79 | after any sequence of merges a key is present if and only if some document lists some component with it, and what is there has that key |
| SbomFields.ReadFoldIsFirstOf | cli/analyzer/purl.go:195-200 | printing and reading back between merges changes nothing at any stage if and only if every merge of a prefix is empty, has a namespace or has a valid type |
| SbomFields.PurlHasFirst | cli/analyzer/merge.go:238 | then the merged package URL has the first scheme, type, namespace, name, version, subpath and value of each qualifier given |
| SbomFields.FinalAfterLoss | cli/analyzer/purl.go:195-200 | after a lost merge the fold goes on as from the empty purl; the final purl is the first of everything exactly when the first of the later ones is |
| SbomFields.LostAndFound | cli/analyzer/purl.go:114-147 | a package URL given twice that is lost, and a third that brings it back |
| SbomFields.MainSummarizes | cli/analyzer/merge.go:91-104 | after any sequence of merges there is a main component exactly when some document describes one; its name is the first given, or the first package name after a path; version, text fields, parts, licenses and package URL are as for components, its properties all those given, its hashes the first given unless these are empty or a source hash comes earlier, and then the first source hash |
| SbomFields.FirstMetadataStays | cli/analyzer/merge.go:98-103 | the merged metadata, its main component apart, is that of the first document with any |
| SbomFields.NextMainHashes | cli/analyzer/merge.go:447-470 | one more document keeps the rule for the hashes |
| SbomFields.NextMainName | cli/analyzer/merge.go:435-445 | one more main component keeps the name rule: a path gives way to the first package name, nothing else changes |
| Purl.SurvivesIffWellFormed | cli/analyzer/purl.go:34-158 | a purl is read back from its printed form if and only if it is empty or has a lower-case scheme, a type, separator-free parts and, without a namespace, a valid type |
| Purl.ParsedIsReadable | cli/analyzer/purl.go:95-158 | every string parses into the empty purl or one whose parts contain no separators |
| Purl.WrittenWithoutNamespace | cli/analyzer/purl.go:58-142 | what every string of the form pkg:type/name@version is read as: itself for the 29 types listed, corrected for alpine, empty for all others |
| Purl.WrittenInFull | cli/analyzer/purl.go:95-158 | every string of the form pkg:type/namespace/name@version?qualifiers#subpath is read as its parts |
| Purl.WrittenWithoutVersion | cli/analyzer/purl.go:152-155 | without @ the version is empty |
| Purl.WrittenOtherwise | cli/analyzer/purl.go:114-150 | an opaque part of one part, or of four, is read as the empty purl |
| Purl.CorrectionReachesFixedPoint | cli/analyzer/purl.go:114-147 | one print and parse after a parse, corrections included, changes nothing if and only if the result is empty, has a namespace or a valid type |
| Purl.FixedPointFails | cli/analyzer/purl.go:114-147 | for every purl outside that condition, a string that parses into it and loses it at the next print |
| Purl.MergePurl | cli/analyzer/purl.go:160-193 | each part is that of the first purl unless empty; qualifiers are united, the first purl's winning, the others cut to their first value |
| Purl.UnknownTypeIsLost | cli/analyzer/purl.go:114-147 | a purl with an unknown type and no namespace reads back as empty, or corrected if the type is alpine |
| Purl.MergedPurlMeaning | cli/analyzer/purl.go:195-200 | for all strings, the merged string means the merge of the two purls as read back, and the merge itself if and only if that is empty, has a namespace or has a valid type |
| Vulnerabilities.NormalFormMeaning | cli/scanner/merge.go:210-219 | two reports have the same normal form if and only if they differ at most in the order of string arrays and of CVSS entries with different versions |
| Vulnerabilities.KeyMeaning | cli/scanner/merge.go:246-248 | equal ID, package name and package version give equal keys, and only they do when IDs and package names contain no dot |
| Vulnerabilities.DotsAreConfused | cli/scanner/merge.go:246-248 | for every vulnerability, two packages that differ in name and version and share its key |
| StableSort.SortEqualIffSameBuckets | cli/scanner/merge.go:211-213 | stable sorting by a key identifies exactly the sequences that agree, key by key, in content and order |
| StableSort.SortStringsEqualIffPermutation | cli/scanner/merge.go:214-217 | sorting strings identifies exactly the permutations |
| VulnerabilityMerge.ToVulnerabilityByKey | cli/scanner/merge.go:221-244 | the loop computes the map that `LastByKeyMeaning` describes |
| VulnerabilityMerge.LastByKeyMeaning | cli/scanner/merge.go:221-244 | a key is present exactly when some match has it, and then holds the last such match |
| VulnerabilityMerge.FindingIsKept | cli/scanner/merge.go:221-244 | by fields, without such dots: every match of a report is in the result as the last match with its ID, package name and package version, and matches that differ in any of these are in it under different keys |
| VulnerabilityMerge.OneKeyPerFinding | cli/scanner/merge.go:221-244 | no two keys of the result stand for the same ID, package name and package version |
| VulnerabilityMerge.HandleVulnerabilityWithExistingKey | cli/scanner/merge.go:120-146 | appends the scanner to the first equal variant, leaving those behind it alone, or appends a new variant with the diffs against all others |
| VulnerabilityMerge.MergedResults.Merge | cli/scanner/merge.go:91-115 | every key of the report is handled once, in whatever order; the source is set once |
| VulnerabilityMerge.MergeAllIsGroupBy | cli/scanner/merge.go:91-146 | after any sequence of merges each key's list is the group-by of the reports about it: distinct variants in first-seen order, each with exactly the scanners that reported it in merge order and the diffs against earlier variants |
| VulnerabilityMerge.MatchIsMerged | cli/scanner/merge.go:91-146 | by fields, without such dots: after any sequence of merges every match of every report has a list, and the list is about its ID, package name and package version only |
| VulnerabilityMerge.VariantsDiffer | cli/scanner/merge.go:120-146 | two entries of one key never differ only in the order of arrays, unless json.Marshal refuses them |
| VulnerabilityMerge.DiffsPointAtEarlierVariants | cli/scanner/merge.go:124-134 | when everything encodes, entry i has exactly i diffs, the j-th pointing at the ID of entry j and leading from its normal form to that of entry i |
| VulnerabilityMerge.ScannersConserved | cli/scanner/merge.go:91-146 | the scanner entries of a key add up to the number of results that contain it |
| VulnerabilityMerge.EntryHasItsReporters | cli/scanner/merge.go:135-140 | the scanners of an entry that can be encoded are, with multiplicity, all that reported its vulnerability |
| VulnerabilityMerge.UnencodableHasOwnEntry | cli/scanner/merge.go:126-144 | every report that cannot be encoded has an entry of its own, with the ID drawn for it and exactly its scanner |
| VulnerabilityMerge.UnencodableEntryIsReport | cli/scanner/merge.go:126-144 | every entry that cannot be encoded is that of one report |
| VulnerabilityMerge.HandleUnencodable | cli/scanner/merge.go:120-146 | a report that cannot be encoded adds one such entry, and no other report changes any of those |
| VulnerabilityMerge.MergeOrderDoesNotMatter | cli/families/vulnerabilities/family.go:97-100 | for any two orders of the same results, every key has the same entries: the same multiset of normal forms with their scanners, encodable or not |
| VulnerabilityMerge.MergeEach | cli/families/vulnerabilities/family.go:97-100 | the merging loop computes that fold, and keeps the source of the first results that name one |
| LeastSquares.FitIsTheUniqueMinimum | provider/common/utils.go:86-87 | no other pair has as small a sum of squared residuals as the fitted one |
| LeastSquares.DenominatorZeroIffAllEqual | provider/common/utils.go:82-84 | the denominator is never negative, and zero if and only if all logarithms are equal |
| LeastSquares.NormalEquations | provider/common/utils.go:86-87 | at the fitted pair the residuals, and their products with the logarithms, add up to zero |
| LeastSquares.ErrorShift | provider/common/utils.go:56-90 | how the squared error changes when the line moves |
| LogarithmicFit.LogarithmicFit | provider/common/utils.go:58-90 | for every input: the invalid-input error exactly for empty or unequal lengths, then the non-positive error exactly if some x is not positive, then the zero-denominator error exactly if all logarithms are equal, else the unique minimum |
| LogarithmicFit.ZeroDenominatorIffOneX | provider/common/utils.go:82-84 | with a strictly increasing logarithm the zero denominator means one single x value |
| LogarithmicFit.ExactDataAreRecovered | provider/common/utils.go:26-35 | data evaluated from a curve of the model are fitted by that curve |
| StatusMachine.ChangesBounded | api/types/assetscanstatus.go:117-131 | in any machine whose transitions go up in rank, every accepted history changes at most as often as its rank rises |
| StatusMachine.NeverRollsBack | api/types/assetscanstatus.go:117-131 | a later status equals the earlier one or ranks higher |
| StatusMachine.StaleWriteRefused | api/types/assetscanstatus.go:81-131 | a status read earlier passes the check if and only if state, reason and message are still the stored ones |
| StatusMachine.ReasonsValid | api/types/assetscanstatus.go:106-115 | every status that differs from the first has a reason valid for its state |
| StatusMachine.FinalStays | api/types/assetscanstatus.go:95-104 | a state without outgoing transitions never changes, message and reason included |
| AssetScanStatus.AcceptedIff | api/types/assetscanstatus.go:23-131 | for every pair of statuses: the second is accepted over the first if and only if it is Equal to it, or is one of the listed pairs of state and reason and comes from one of the listed states |
| ResourceCleanupStatus.AcceptedIff | api/types/resourcecleanupstatus.go:23-107 | the same for the cleanup status |
| ScanStatus.AcceptedIff | api/types/scanstatus.go:23-127 | the same for scans |
| ScanEstimationStatus.AcceptedIff | api/types/scanestimationstatus.go:23-128 | the same for scan estimations |
| AssetScanEstimationStatus.AcceptedIff | api/types/assetscanestimationstatus.go:23-109 | the same for asset scan estimations |
| AssetScanStatus.AtMostFiveChanges | api/types/assetscanstatus.go:23-44 | an accepted history of an asset scan has at most five changes |
| AssetScanStatus.DoneThroughAllStages | api/types/assetscanstatus.go:23-44 | from Pending, Done comes after Scheduled, ReadyToScan and InProgress, in that order |
| AssetScanStatus.AbortedNeverDone | api/types/assetscanstatus.go:23-44 | after Aborted there is only Aborted and Failed |
| AssetScanStatus.DoneAndFailedAreFinal | api/types/assetscanstatus.go:23-44 | Done and Failed are absorbing |
| ResourceCleanupStatus.AtMostOneChange | api/types/resourcecleanupstatus.go:23-46 | a cleanup status changes at most once |
| ScanStatus.AtMostFourChanges | api/types/scanstatus.go:23-66 | a scan status changes at most four times |
| ScanEstimationStatus.AtMostFourChanges | api/types/scanestimationstatus.go:23-67 | a scan estimation status changes at most four times |
| AssetScanEstimationStatus.AtMostTwoChanges | api/types/assetscanestimationstatus.go:23-48 | an asset scan estimation status changes at most twice; Failed may still become Aborted |
| AssetScanApi.OnlyAcceptedRequestsChange | api/server/asset_scan_controller.go:41-245 | a refused, failing or crashing request changes nothing, an accepted one only the object it names |
| AssetScanApi.PostOutcome | api/server/asset_scan_controller.go:41-83 | answer and table after a POST: accepted if and only if the status is Pending, the cleanup status Pending or Skipped and the database takes it; then the body is stored under its new id |
| AssetScanApi.PatchOutcome | api/server/asset_scan_controller.go:98-168 | answer and table after a PATCH of a stored object, over any run: accepted if and only if the id fits, each status given may follow the stored one and the database takes it; then what is given overwrites what is stored, field by field, and all else stays |
| AssetScanApi.PutOutcome | api/server/asset_scan_controller.go:171-245 | answer and table after a PUT with both statuses, over any run: accepted under the same conditions, and then the body replaces what is stored |
| AssetScanApi.MissingOutcome | api/server/asset_scan_controller.go:98-200 | PATCH and PUT of an object that is not stored: 404, or 400 when the body has another id |
| AssetScanApi.ScanGoesWell | orchestrator/watcher/assetscan/watcher.go:225-297 | after any run, a POST and the patches to Scheduled, ReadyToScan (with resources prepared, or unsupervised), InProgress and Done are all answered with success and stored |
| AssetScanApi.CancelledScanFails | orchestrator/watcher/assetscan/watcher.go:445-449 | after any run, a ready or running scan can be aborted, and then failed |
| AssetScanApi.HistoriesFollowMachines | api/server/asset_scan_controller.go:48-245 | over any sequence of requests, the stored statuses of an object start as POST allows, follow both machines and end with what is stored |
| AssetScanApi.ProtocolHolds | api/server/asset_scan_controller.go:48-245 | over any sequence of requests: at most five status changes and one cleanup change, Done only through all stages, Aborted never followed by Done, Done and Failed final, a valid reason for every status but the posted one |
| AssetScanApi.CrashIff | api/server/asset_scan_controller.go:196-221 | over any sequence of requests, a request crashes if and only if it is a PUT with a matching id for a stored object, and either its status is missing, or its status may follow the stored one and its cleanup status is missing |
| AssetScanApi.PutWithoutCleanup | api/server/asset_scan_controller.go:209-214 | for one stored object: the same PUT without a cleanup status crashes, is answered 400 when its status is wrong as well, and 404 for another id |
| AssetScanApi.StalePatchRefused | api/server/asset_scan_controller.go:122-133 | a PATCH with the status read after some earlier request passes the status check if and only if that is still the stored status |
| AssetScanApi.StaleCleanupRefused | api/server/asset_scan_controller.go:135-144 | the same for the cleanup status |
| AssetScanServer.Server.PostAssetScans | api/server/asset_scan_controller.go:41-83 | response and table are those of the specification |
| AssetScanServer.Server.PatchAssetScansAssetScanID | api/server/asset_scan_controller.go:98-168 | response and table are those of the specification, with the guards in the order of the code |
| AssetScanServer.Server.PutAssetScansAssetScanID | api/server/asset_scan_controller.go:171-245 | the same for PUT, whose nil dereferences are crashes that change nothing |
| ScannerState.AppendEffectiveScanConfigAnnotation | cli/state/vmclarity.go:402-426 | the other annotations in order, each that is not a config annotation and no other, followed by one config annotation |
| ScannerState.ReannotatingReplaces | cli/state/vmclarity.go:402-426 | annotating twice leaves only the second config annotation |
| ScannerState.PatchWithCopy | cli/state/vmclarity.go:81-155 | a patch made of a copy read after any earlier call, with a new status, passes if and only if that may follow the stored status, the cleanup status is still that of the copy and the database does not refuse; then all the copy has overwrites what is stored |
| ScannerState.VMClarityState.MarkInProgress | cli/state/vmclarity.go:81-113 | for a copy read after any earlier call: accepted if and only if the scan is ready, or already so marked, and the cleanup status is still that of the copy; then the stored scan is in progress with the new start time, the copy's other data and annotations, and one config annotation; an end time in the copy is dropped, one stored stays; other objects are untouched |
| ScannerState.VMClarityState.MarkDone | cli/state/vmclarity.go:115-134 | crashes if and only if the copy has no scan time; accepted if and only if the scan is in progress, or already so marked, and the cleanup status is still that of the copy; then the stored scan is Done with the stored message and the new end time, and has never been aborted; otherwise, and for other objects, nothing changes |
| ScannerState.VMClarityState.MarkFailed | cli/state/vmclarity.go:136-155 | the same for Failed: accepted if and only if the scan is scheduled, ready, in progress or aborted, or already failed with that message, and the cleanup status is still that of the copy; then the stored scan is Failed with that message and the new end time |
| ScannerState.VMClarityState.MarkFamilyScanInProgress | cli/state/vmclarity.go:157-370 | accepted if and only if status and cleanup status are still those of the copy; then both stay, with the transition times of the copy, the family's status is in progress, and the rest of the copy overwrites what is stored; otherwise, and for other objects, nothing changes |
| ScannerState.FieldsDiffer | cli/state/vmclarity.go:157-370 | every family has a field of its own for its status, apart from the times of the scan |
| ScannerState.FamilyUpdateNeedsFreshStatus | cli/state/vmclarity.go:180-370 | any update that leaves both statuses of its copy alone is accepted if and only if they are still the stored ones, and then leaves both Equal to what they were |
| ScannerState.InProgressAcceptedIff | cli/state/vmclarity.go:81-113 | MarkInProgress passes the status check if and only if the scan is ready, or already in progress with no message |
| ScannerState.DoneAcceptedIff | cli/state/vmclarity.go:115-134 | MarkDone passes the status check if and only if the scan is in progress, or already done with no message |
| ScannerState.FailedAcceptedIff | cli/state/vmclarity.go:136-155 | MarkFailed passes the status check if and only if the scan is scheduled, ready, in progress or aborted, or already failed with that message |
| ScannerState.AbortBeatsDone | cli/state/vmclarity.go:115-134 | once a scan has been aborted, no patch with status Done is accepted, whatever copy it is made of |
| AzureProtocol.IssueKeepsSetup | provider/azure/provider.go:104-155 | a request issued in a state it may meet keeps the setup invariant, whether it took effect or not |
| AzureProtocol.DriftKeepsSetup | provider/azure/provider.go:104-155 | nothing the cloud does on its own breaks it or undoes what is finished |
| AzureProtocol.SetupMeaning | provider/azure/targetDisk.go:75-115 | spells out what the invariant kept by RunAttempts says of one request: an import disk only with the copy finished and the access revoked, a copy only right after a grant that took effect, the scanner VM only with snapshot, disk and NIC finished, every creation with its resource absent |
| AzureProtocol.AdvancingBegins | provider/azure/provider.go:104-155 | in a cloud where nothing is in progress, an attempt that asks to be retried has begun a step that was missing |
| AzureProtocol.StuckIsReachable | provider/azure/snapshot.go:40-45 | one request and the cloud failing it are enough for a setup to be stuck |
| AzureProtocol.RemovalNeverAdds | provider/azure/common.go:54-73 | a removal request never adds to what is left nor brings back what is gone |
| AzureProtocol.RemovalSheds | provider/azure/common.go:54-73 | an effective removal request leaves strictly less once pending deletions are through |
| AzureProtocol.DriftSheds | provider/azure/provider.go:157-184 | nothing the cloud does on its own adds to what is left to be removed |
| AzureProvider.Provider.RunAssetScan | provider/azure/provider.go:104-155 | every attempt keeps the setup invariant, whatever fails, and makes only the requests that belong to its region; success means snapshot, disk, NIC ready and disk attached, and across regions the copy finished and the access revoked; a request to retry means that something it needs was not ready and is under way; any other error is that of a call that failed; once a resource has failed, the attempt fails and leaves it failed |
| AzureProvider.Provider.EnsureCreated | provider/azure/snapshot.go:37-70 | the get-or-create shape: done only when the resource is ready, created only when absent; asked to be retried only with the resource there that was not ready; any other error is that of a call that failed |
| AzureProvider.Provider.EnsureSnapshotForVMRootVolume | provider/azure/snapshot.go:37-70 | done only with the snapshot ready; to be retried only with it under way |
| AzureProvider.Provider.EnsureBlobFromSnapshot | provider/azure/blob.go:46-109 | done only with the copy finished and the access revoked; to be retried only with the copy under way |
| AzureProvider.Provider.EnsureManagedDiskFromSnapshot | provider/azure/targetDisk.go:38-73 | done only with the disk ready; to be retried only with it under way |
| AzureProvider.Provider.EnsureManagedDiskFromSnapshotInDifferentRegion | provider/azure/targetDisk.go:75-115 | done only with the disk ready, the copy finished and the access revoked; to be retried only with the copy or the disk under way |
| AzureProvider.Provider.EnsureDisk | provider/azure/provider.go:126-137 | the disk by the way of its region: done only with the disk ready, across regions with the copy finished and the access revoked; to be retried only with the disk or the copy under way |
| AzureProvider.Provider.EnsureNetworkInterface | provider/azure/networkInterface.go:37-81 | done only with the NIC ready; to be retried only with it under way |
| AzureProvider.Provider.EnsureScannerVirtualMachine | provider/azure/scannerVm.go:42-130 | done only with the VM ready; to be retried only with it under way |
| AzureProvider.Provider.EnsureDiskAttachedToScannerVM | provider/azure/scannerVm.go:149-188 | done only with the disk attached; to be retried only with the disk listed by the VM and not attached; attaching may be requested again |
| AzureProvider.Provider.EnsureScanner | provider/azure/provider.go:139-152 | the stages from the NIC on: done only with the NIC ready and the disk attached; to be retried only with the NIC or the VM under way, or the disk newly listed |
| AzureProvider.RunAttempts | provider/azure/provider.go:104-155 | over any number of attempts from an empty cloud, every request met a state it may meet and every resource was created at most once; when ready, snapshot, disk and NIC are, and the disk is attached |
| AzureProvider.RunToReady | provider/azure/provider.go:104-155 | from any cloud in which nothing is in progress, attempts that each wait for what the last one began end with the scan set up, after at most one more attempt than steps were missing, unless a call or a needed resource failed |
| AzureProvider.SetUp | provider/azure/provider.go:104-155 | from an empty cloud that is at most six attempts in the region of the scanned VM and seven from another |
| AzureProvider.RepeatStuck | provider/azure/provider.go:104-155 | after a failed snapshot, disk, NIC or VM, or blob across regions, all further attempts end in an error |
| AzureProvider.Provider.EnsureDeleted | provider/azure/common.go:54-73 | done only with the resource absent; a deletion is requested only when all earlier stages are absent; a retryable error means less is left; any other error is that of a call that failed |
| AzureProvider.Provider.EnsureBlobDeleted | provider/azure/blob.go:111-145 | the same for the blob, which is deleted only when no copy to it is pending; a pending copy is aborted first |
| AzureProvider.Provider.RemoveAssetScan | provider/azure/provider.go:157-184 | each deletion is requested only when VM, NIC, disk and blob before it are absent; success means all five are; a retryable error means less is left; any other error is that of a call that failed |
| AzureProvider.RetryRemoval | provider/azure/provider.go:157-184 | retrying ends whatever the cloud does, with everything gone, or more errors than tolerated, or more attempts than patience allows for that came while a deletion was in progress; every error is a call that failed; the order of removal is kept throughout |
| TypeUtils.UnionSlices | api/types/utils.go:35-47 | the distinct elements of all slices, in order of first occurrence |
| TypeUtils.UnionAssociative | api/types/utils.go:35-47 | uniting is associative, order included |
| TypeUtils.DedupMembers | api/types/utils.go:35-47 | no element is lost or added |
| TypeUtils.DedupDistinct | api/types/utils.go:35-47 | no element comes twice |
| TypeUtils.DedupFirstSeen | api/types/utils.go:35-47 | elements stay in the order of their first occurrence |
| TypeUtils.UnionOfTwo | api/types/utils.go:35-47 | for two slices that is the union the merge of container images uses |
| ContainerImage.MergeAllSummarizes | api/types/containerimageinfo.go:52-98 | a list of image infos merges if and only if the IDs, systems and architectures given agree, and then into those, the largest size other than zero, and the unions of labels, digests and tags |
| ContainerImage.MergedLists | api/types/containerimageinfo.go:83-87 | after merging at least two, labels, digests and tags are those of all, each once, in the order in which they were first seen |
| ContainerImage.OrderDoesNotMatter | api/types/containerimageinfo.go:52-98 | it merges in one order if and only if in every order, with the same result up to the order in lists |
| Discoverer.HandleAssetConflict | orchestrator/discoverer/discoverer.go:68-97 | what a conflict is resolved to is still recognised as the stored asset |
| Discoverer.ConflictMeaning | orchestrator/discoverer/discoverer.go:68-97 | any other asset gives way to the one found; two images are merged if and only if they agree, into what they say together; nothing else can be resolved |
| Discoverer.InfoAfterDiscovery | orchestrator/discoverer/discoverer.go:107-150 | whatever fails: a stored asset that is not an image ends with the info it was last patched with, an image with what the stored info and all it was patched with say together; without errors everything found of it patches it |
| Discoverer.CreateOrRefresh | orchestrator/discoverer/discoverer.go:107-150 | the first loop keeps all accounts, and its errors are exactly the calls that failed and the assets that could not be merged with what was stored |
| AssetTable.StaleMeaning | orchestrator/discoverer/discoverer.go:164-167 | the query finds exactly the assets not terminated that were last seen in an earlier second, or never |
| AssetTable.IdentityMeaning | api/server/database/gorm/asset.go:289-333 | which assets conflict: images with the same ID, others with the same kind and identifying properties |
| Discoverer.UsedWhenAllIsWell | orchestrator/discoverer/discoverer.go:107-150 | when no call failed and everything could be merged, everything found created an asset or refreshed one |
| Discoverer.HandleFound | orchestrator/discoverer/discoverer.go:107-150 | one asset found is created or refreshed, or its failure is recorded, whether or not a failing call took effect; assets already handled stay so |
| Discoverer.HandleConflict | orchestrator/discoverer/discoverer.go:128-149 | the same for the branch after a conflict |
| Discoverer.TerminateNotSeen | orchestrator/discoverer/discoverer.go:174-188 | only stale assets whose patch did not fail are terminated; all of them when no call fails; its errors are the calls that failed |
| Discoverer.DiscoverAndCreateAssets | orchestrator/discoverer/discoverer.go:100-191 | whatever fails: a patch is attempted for exactly the refreshable assets, everything posted without failing is in the table, and a failed listing or query terminates nothing; if no patch of the second loop fails, every stale asset is terminated but those whose patch failed; every error is a call that failed or an asset that could not be merged, so without failing calls everything found is in the table |
| Discoverer.LiveAfterDiscovery | orchestrator/discoverer/discoverer.go:100-191 | when the second loop does not fail, whatever failed in the first: an asset is live afterwards if and only if it is new, or was live and is refreshable or was last seen in the second of the discovery; one that is no longer live was terminated at the time of the discovery |
| Discoverer.LiveWithoutErrors | orchestrator/discoverer/discoverer.go:100-191 | after a discovery without errors the live assets are exactly the new ones and those live before that were found again, if all were last seen in an earlier second |
| Discoverer.UnmergeableIsTerminated | orchestrator/discoverer/discoverer.go:129-133 | a live image found under another operating system is terminated |
| Discoverer.UnpostedIsTerminated | orchestrator/discoverer/discoverer.go:113-126 | a live image found as it is stored, whose POST fails, is terminated |
| Discoverer.PostedIsStored | orchestrator/discoverer/discoverer.go:107-150 | whatever is posted without failing is in the table afterwards, live if it is new |
| Discoverer.NotFoundGoesIffStale | orchestrator/discoverer/discoverer.go:164-188 | an asset not found again is terminated if and only if it was last seen in an earlier second or never |
| Discoverer.FoundIsNotTerminated | orchestrator/discoverer/discoverer.go:145-178 | whatever fails, a stored asset that is refreshable, or was last seen in the second of the discovery, is as live as before; a terminated asset never comes back to life |
| Discoverer.CreatedAreNew | orchestrator/discoverer/discoverer.go:107-116 | what is created was found and is not one of the assets there were |
| FamiliesManager.FamiliesInOrder | cli/families/manager.go:44-83 | every enabled family is there once, in ascending order of their eight places; SBOM before Vulnerabilities before Exploits |
| FamiliesManager.Manager.constructor | cli/families/manager.go:44-83 | the appends produce the enabled families in that order |
| FamiliesManager.Manager.Run | cli/families/manager.go:98-162 | no errors are returned if and only if every family started, ran and finished well; the errors are exactly the starts and finishes that could not be notified, and one more if some family failed or was aborted; the notifications are those specified; family i is given exactly the results of the successful families before it |
| FamiliesManager.ResultsMeaning | cli/families/manager.go:113-150 | what a family is given: in their order, the results of exactly those earlier families that were started, not aborted and successful |
| FamiliesManager.NotesMeaning | cli/families/manager.go:113-155 | what the notifier is told, by position: one start per family in order, followed, if it went through, by how that family ended, and nothing else |
| FamiliesManager.OneFinishPerStart | cli/families/manager.go:110-155 | when no family is listed twice, each that was started gets exactly one finish notification, every other none |

## Left out

- Percent-encoding in `net/url`: abstract, with the laws the round trips need; invalid UTF-8 is not modelled.
- The text and JSON of a diff: a diff is the pair of normal forms compared and the ID it points at.
- The order of CVSS entries with equal versions: Go's sort is not stable, the model's is.
- Aliasing between a merged object and the documents or reports merged into it, other than the sorting of shared arrays described above.
- Floating-point rounding in the fit, infinities and NaN.
- The strings of merged package URLs: what they mean is characterised, not how their qualifiers are encoded.
- CreateMergedSBOMBytes and the tool metadata of the SBOM written out: formatting only.
- AssetScanServer: the read and the write of a handler are one step; two handlers racing between them, and If-Match revisions, are not modelled. Whatever else the database refuses is an arbitrary outcome.
- The JSON content of an asset scan outside status, cleanup status and annotations: a map from paths to text, in which a patch overrides path by path.
- MarkInProgress, MarkDone, MarkFailed, MarkFamilyScanInProgress: the read before the write is the copy they are given; its errors, which send nothing, are not modelled.
- MarkFamilyScanInProgress: the family's status is one value; its transition time and message are not modelled.
- AssetScanEstimationStatus, ScanStatus and ScanEstimationStatus: their tables are modelled, the handlers that use them are not.
- RetryRemoval: the loop is a driver for the retries of the orchestrator; how long the orchestrator waits between attempts is not modelled.
- RunToReady, SetUp: drivers in the same sense; waiting until nothing is in progress is one step of theirs.
- RunAttempts: a driver in the same sense; the region of the asset does not change between its attempts.
- Whether reading the VM, parsing the instance ID or converting the asset info fails: one error parameter of RunAssetScan.
- Failures to make a blob client or to render the cloud-init data: they end an attempt before any request of that stage.
- Deletion of a scan's resources by anyone but the provider, and drift back from Succeeded.
- The AWS, GCP, Docker, External and Kubernetes providers: the first two repeat the Azure shape.
- Discoverer: the loop that repeats discoveries, and assets of other providers in the same table.
- Discoverer.LiveAfterDiscovery: when a patch of the second loop fails, which of the stale assets are terminated is up to the calls; only stale ones are.
- Manager.Run: the goroutine left behind when the context ends, and the clean-up of cached root file systems.
- The reconciler's time-outs and logging, and the poll period: they do not touch the queue.
- Generated clients, configuration, presenters, the user interface and the test environments.
