# Verification of dambi's registry, policy editor and decision pipeline

A Dafny model of the parts of dambi in which state, concurrency or a transformation
carries the weight, with proofs about all inputs, all runs and all reachable states.
`dafny verify dfyconfig.toml` checks it.

**Registry.** `LruMaps` is the theory of JavaScript maps used as LRU lists; `ObjectCaches`
and `RateLimiters` are the two classes built on it. `SingleFlights` coalesces reads.
`RegistryProxies` is the reverse proxy as a machine that steps from one `await` to the
next; it refines a server without cache and coalescing. `SourceBundles` performs the
substitution of a sourced manifest twice, as the builder does and as the proxy does, and
says exactly when the two agree; `ExpandedBundles` says what comes out; `SourceArtifacts` writes what the proxy later reads;
`IndexEmission` is the builder's callkey loop; `RegistryBuilds` is the builder as one
machine; `ServedEntries` and `RegistryBuilds` put builder, store and proxy together;
`SurfaceGates` is the surface-completeness gate.

**Policy editor.** `BlockIr` holds the reader and printer between Cedar's JSON policy
format (EST) and the block editor's tree; `EstRoundTrips`, `IrRoundTrips` and
`PolicyRoundTrips` say exactly which documents and which trees survive the two round
trips; `EstReading` says which key of a node decides; `OwnKeys` is the order in which
JavaScript lists an object's members. `AttrPaths` relates dotted paths to attribute
chains and says what the editor shows with them. `ExprTrees`, `NodeReplacement`, `Params` and
`ParamFilling` are the template layer: exposing, collecting, checking, substituting.

**Service worker.** `ApplyQueues` (with `SortedIds`), `PromiseChains` and `PolicyLoaders`
are the three promise-chain protocols, and `PolicyEngines` is queue and loader over their
one engine; `VerdictTrees` is the deny-overrides evaluation of
action trees; `VenueGates` is the parser and gate for venue request bodies.

`Jsons` is the value type: an object keeps its members in order, and `Canon` forgets that
order, as section 3.2 of RFC 8785 does; hashes are taken of canonical forms. `Logs` holds
runs, `Options` the result types.

A class with a `Snapshot()` performs one piece of code between two suspensions per
method, and each method's contract equates the new snapshot with a step function of the
old one; the theorems about runs are about those step functions.

Where the code and its documentation differ, the model follows the code:

- `applyEnabledIds` tells each queued batch the outcome of its own run; its comment
  promises the outcome of the final run (`ApplyQueues.QueuedCallerOutcome`, with a run in
  which they differ in `ApplyQueues.QueuedCallerMissesFinalResult`, and the guard under
  which the promise is kept in `ApplyQueues.QueuedCallerGetsFinalResult`).
- `withActorLock` compares a promise with one derived from it, so a slot is never
  released (`PromiseChains.ActorSlotStays`); serialisation is unaffected.
- A function that throws synchronously leaves `SingleFlight` holding its rejected promise
  for ever (`SingleFlights.StillbornStays`). The functions passed in the repository return
  promises.
- Two resolved addresses with one (source, chain, address) share the first one's context,
  so the second entry can be served a bundle of another hash than it promises
  (`SourceArtifacts.SecondEntryIsServedWrong`).
- `tryV2VerdictPath` says that a fail from any leg outranks a fault. A deny computed in a
  leg that throws afterwards does not: only the fault is left of that leg
  (`VerdictTrees.DenyBeforeThrowIsLost`; the exact condition is `VerdictTrees.FailExactly`).
- A body without a `domain` is not evaluated, and alone it passes
  (`VerdictTrees.DomainlessPasses`).
- The loss-free round trip holds exactly for the documents of `EstRoundTrips.Faithful`
  and the trees of `IrRoundTrips.Regular`; among the latter, record keys that are array
  indices must stand first and ascending, since objects list them so.

## Model

| member | source | states |
|---|---|---|
| `LruMaps.Evict` | registry-api/src/cache.ts:81-85 | the eviction loop keeps exactly the newest keys, as many as the capacity allows, in their order |
| `LruMaps.Residency` | registry-api/src/cache.ts:60-86 | in every history a map touched and evicted this way is bounded, lists its keys by last touch, holds the last value put under each, and misses a key put and not dropped since only when at least capacity distinct other keys were put after it |
| `LruMaps.ResidencyExact` | registry-api/src/rate-limiter.ts:51-66 | where nothing is ever dropped, a key is present if and only if it was put and fewer than capacity distinct other keys were put since |
| `ObjectCaches.ObjectCache.constructor` | registry-api/src/cache.ts:53-58 | a fresh cache is empty, its capacity at least one |
| `ObjectCaches.ObjectCache.Get` | registry-api/src/cache.ts:60-75 | answers with the stored value strictly before its expiry and touches it; an expired entry is removed and missed; hits and misses are counted |
| `ObjectCaches.ObjectCache.Set` | registry-api/src/cache.ts:77-86 | stores under the lifetime of its kind (which lifetime that is: the row on AnsweredExactly), touches, and evicts the oldest beyond the capacity; counters unchanged |
| `ObjectCaches.CacheIsLru` | registry-api/src/cache.ts:60-86 | after any calls the cache satisfies the residency law |
| `ObjectCaches.EntryIsLastSet` | registry-api/src/cache.ts:77-80 | a resident entry is the one made by the last set of its key |
| `ObjectCaches.HitIsLastSet` | registry-api/src/cache.ts:60-75 | a hit returns the value last set, and only within its lifetime |
| `ObjectCaches.AnsweredExactly` | registry-api/src/cache.ts:66-80 | a key held is answered with the value last set if and only if its lifetime is not over: the short one of the configuration for a missing object, the long one for any other |
| `ObjectCaches.UnexpiredIsLive` | registry-api/src/cache.ts:66-70 | a key whose last set has not expired was not dropped by a get |
| `ObjectCaches.MissMeansEvicted` | registry-api/src/cache.ts:60-86 | with a clock that does not go back, an unexpired key is missed only if at least capacity distinct other keys were touched since its own last touch |
| `RateLimiters.TokenBucketRateLimiter.constructor` | registry-api/src/rate-limiter.ts:37-42 | a fresh limiter has no buckets |
| `RateLimiters.TokenBucketRateLimiter.Allow` | registry-api/src/rate-limiter.ts:45-68 | the answer and the new bucket map of one call, eviction included |
| `RateLimiters.BucketIsKeptExactlyWhenRecent` | registry-api/src/rate-limiter.ts:51-66 | an IP has a bucket if and only if it has asked and fewer than the maximum of distinct other IPs asked since; never more buckets than the maximum |
| `RateLimiters.LevelIsLeastRoom` | registry-api/src/rate-limiter.ts:48-60 | closed form: tokens before request j are the least, over requests i up to j, of burst plus refill since i minus what was granted from i on |
| `RateLimiters.AllowedExactlyWhenEveryWindowHasRoom` | registry-api/src/rate-limiter.ts:53-60 | a request is granted if and only if every window ending with it has room for it |
| `RateLimiters.WindowBound` | registry-api/src/rate-limiter.ts:53-60 | with a clock that does not go back, a window grants at most burst plus rate times elapsed time |
| `RateLimiters.BucketIsLevel` | registry-api/src/rate-limiter.ts:47-61 | the bucket held for an IP is the one its own visits since its creation leave, whatever other IPs did |
| `RateLimiters.AnswersAreSpent` | registry-api/src/rate-limiter.ts:45-68 | the answers given to an IP are those of the closed form over its visits |
| `RateLimiters.AnswerIsWindowed` | registry-api/src/rate-limiter.ts:45-68 | in any interleaving the limiter says yes if and only if every window over the visits since the bucket was created has room |
| `RateLimiters.GrantedBound` | registry-api/src/rate-limiter.ts:45-68 | in any interleaving, any window over those visits is granted at most burst plus rate times elapsed time |
| `SingleFlights.SingleFlight.RunRead` | registry-api/src/single-flight.ts:18-30 | a caller joins the promise its key leads to, or starts a read; a function that throws synchronously settles its promise before the map records it |
| `SingleFlights.SingleFlight.Finish` | registry-api/src/single-flight.ts:22-26 | when a read settles, the key is free and the outcome recorded |
| `SingleFlights.ReachIsCoherent` | registry-api/src/single-flight.ts:18-30 | in every reachable state a running read is the one its key leads to, and a key leads to a settled promise exactly when its function threw synchronously |
| `SingleFlights.AtMostOneReadPerKey` | registry-api/src/single-flight.ts:18-21 | each key has at most one running read |
| `SingleFlights.CallerJoinsRunningRead` | registry-api/src/single-flight.ts:19-20 | a caller is given a running read of its key, or a promise whose function threw synchronously |
| `SingleFlights.OutcomeIsFinal` | registry-api/src/single-flight.ts:22-23 | the outcome of a promise never changes, so all who joined see the same |
| `SingleFlights.SettledReadIsNotJoined` | registry-api/src/single-flight.ts:24-26 | after a read settles, well or badly, the next caller of its key starts a new one |
| `SingleFlights.StillbornStays` | registry-api/src/single-flight.ts:21-28 | a key whose function threw synchronously leads to that settled promise for ever: the proviso under which the previous row holds |
| `RegistryProxies.RegistryProxy.constructor` | registry-api/src/server.ts:200-223 | a fresh proxy has an empty cache and nothing in flight |
| `RegistryProxies.RegistryProxy.Arrive` | registry-api/src/server.ts:211-223 | cache look-up on arrival, else the joined or started read |
| `RegistryProxies.RegistryProxy.BeginGenerated` | registry-api/src/server.ts:335-354 | only content-addressed objects are looked up in the cache; a cached miss is not used |
| `RegistryProxies.RegistryProxy.MainSettled` | registry-api/src/server.ts:225-262 | how a settled main read goes on: a missing object is cached as 404, an upstream error is not cached, a reference entry starts its template read |
| `RegistryProxies.RegistryProxy.GeneratedSettled` | registry-api/src/server.ts:355-369 | a found content-addressed object is cached; anything else throws |
| `RegistryProxies.RegistryProxy.GeneratedReturned` | registry-api/src/server.ts:496-523 | after the template comes the context, if the entry names one, then the rebuilt bundle |
| `RegistryProxies.RegistryProxy.Deliver` | registry-api/src/server.ts:227-249 | a materialisation that threw is an uncached 502; a value is cached and sent |
| `RegistryProxies.InvariantHolds` | registry-api/src/server.ts:211-270 | in every run over a store that does not change, every cache entry is the rendering of its key, every settled read is honest and every request in progress holds what the plain server would |
| `RegistryProxies.RepliesArePlain` | registry-api/src/server.ts:211-270 | for every interleaving of requests, read completions, transient errors, expiries and evictions a 200 or 404 is exactly the reply of a server without cache and coalescing, and a 502 is too unless one of the request's own reads failed |
| `RegistryProxies.CacheHoldsPlainReplies` | registry-api/src/server.ts:331-370 | nothing but 200 and 404 replies of the plain server is ever cached |
| `RegistryProxies.PlainServerExactly` | registry-api/src/server.ts:474-530 | what the server without cache answers: the stored object as it is, but for an index entry with the members of a reference, into whose response the bundle is put, expanded if a context is named; a 502 exactly when a file is missing or unreadable or the expansion fails |
| `RegistryProxies.ResponseSays` | registry-api/src/server.ts:503-530 | the members of that response |
| `RegistryProxies.EveryRequestAdvances` | registry-api/src/server.ts:211-370 | in every honest run a request not yet answered waits for a read that is running, or its next step brings it nearer to its answer, at most six steps away |
| `RegistryProxies.OthersDoNotMove` | registry-api/src/server.ts:211-370 | no other request and no read moves a request, and an answer is final |
| `RegistryProxies.EveryRequestCanBeAnswered` | registry-api/src/server.ts:211-370 | from every state of every honest run every request can still be answered |
| `SourceBundles.LookupSourcePath` | registry-api/src/server.ts:372-386 | the loop follows the path through arrays and objects |
| `SourceBundles.SubstKeepsKeys` | registry-api/src/server.ts:403-409 | substitution keeps an object's keys and substitutes each value |
| `SourceBundles.SelectorAfterSubst` | registryV2/scripts/build-index.ts:877-883 | a literal selector comes through substitution unchanged |
| `SourceBundles.ServeAgreesWithBuild` | registryV2/scripts/build-index.ts:865-885 | for every sourced manifest and address the bundle the proxy rebuilds equals the bundle the builder hashed, if and only if the address is in lower case, the substituted id is a string and the selector is not itself a placeholder |
| `SourceBundles.ServeAgreesCanonically` | registryV2/scripts/build-index.ts:865-885 | what is hashed, the canonical forms, agrees under the same condition and under no weaker one |
| `SourceBundles.BuildFailureIsServeFailure` | registry-api/src/server.ts:429-472 | what the builder rejects the proxy rejects too |
| `SourceBundles.SubstSame` | registry-api/src/server.ts:388-411 | substitution respects canonical form: member order of value and context does not matter |
| `SourceBundles.MaterializeSame` | registry-api/src/server.ts:429-472 | templates of one canonical form rebuild to bundles of one canonical form |
| `ExpandedBundles.SubstExactly` | registry-api/src/server.ts:388-411 | a string with the prefix becomes what its dotted path leads to in the context, and fails when that is nothing; arrays and objects are substituted part by part and fail exactly when a part does; everything else stays |
| `ExpandedBundles.ItemAtExactly` | registryV2/scripts/build-index.ts:803-806 | an index leads to the item at that place, and out of range to nothing |
| `ExpandedBundles.SourceContextExactly` | registryV2/scripts/build-index.ts:854-863 | address, chain id and suffix take precedence over the resolved context, whose other members stay; the suffix defaults to chain and address |
| `ExpandedBundles.ContextDocumentExactly` | registryV2/scripts/build-index.ts:1071-1079 | the members of the document stored for an address |
| `ExpandedBundles.BuiltExactly` | registryV2/scripts/build-index.ts:865-887 | the builder's expansion exists if and only if every placeholder leads somewhere and something is left of the suffix; its id has the suffix before the version, its match is one contract on one chain, the materialisation marker is gone and every other member is substituted |
| `ExpandedBundles.ServedExactly` | registry-api/src/server.ts:429-472 | likewise for the proxy, with the parts of the two documents that it needs, and the address in lower case |
| `ExpandedBundles.BuiltId` | registryV2/scripts/build-index.ts:846-852 | of the bundle that is hashed: a template id `name@version` becomes `name/suffix@version` |
| `ExpandedBundles.ServedId` | registry-api/src/server.ts:421-427 | and of the bundle that is served |
| `SourceArtifacts.ArtifactWriter.constructor` | registryV2/scripts/build-index.ts:1052-1054 | a fresh writer has written nothing |
| `SourceArtifacts.ArtifactWriter.WriteGeneratedJsonObject` | registryV2/scripts/build-index.ts:1056-1069 | a ref is written once; the same ref with another hash throws |
| `SourceArtifacts.ArtifactWriter.WriteByHash` | registryV2/scripts/build-index.ts:1056-1069 | writing an object under its own hash never throws and changes nothing on file; what is then on file has that hash, and is the object up to member order where the hash meets no collision among the objects filed |
| `SourceArtifacts.ArtifactWriter.WriteBundleRefArtifact` | registryV2/scripts/build-index.ts:1112-1116 | the ref returned is named by the bundle's hash, and what is on file under it has that hash, and is the bundle up to member order where no collision is met |
| `SourceArtifacts.ArtifactWriter.WriteTemplate` | registryV2/scripts/build-index.ts:1087-1094 | returns the template's hash, under which the template is on file, and caches it by identity |
| `SourceArtifacts.ArtifactWriter.WriteContext` | registryV2/scripts/build-index.ts:1096-1104 | the file of a context ref is the first context written for it, and the hash kept with it is that file's |
| `SourceArtifacts.ArtifactWriter.WriteSourceRefArtifacts` | registryV2/scripts/build-index.ts:1081-1110 | which refs and hashes are returned: the template's hash and the ref named by it, the context ref and the hash of the file under it; throws exactly on an empty path part; nothing on file changes |
| `SourceArtifacts.ServedBundleHasIndexedHash` | registryV2/scripts/build-index.ts:1219-1221 | with its own context on file, the rebuilt bundle has the hash in the index entry if and only if the output is regular (only the converse needs the hash to tell the two bundles apart) |
| `SourceArtifacts.OneContextIsOnFile` | registryV2/scripts/build-index.ts:1096-1104 | with one context per (source, chain, address), the file is each output's own |
| `SourceArtifacts.ContextRefExactly` | registryV2/scripts/build-index.ts:1040-1050 | what a context ref is made of, and that it is refused exactly when nothing is left of a part of the source's name |
| `SourceArtifacts.SameRefExactly` | registryV2/scripts/build-index.ts:1040-1050 | two outputs share a context ref if and only if chain, address up to case and the text left of the source's name are the same |
| `SourceArtifacts.EveryEntryIsServable` | registryV2/scripts/build-index.ts:1304-1319 | at any later time an output with one context of its own is served, from the files its entry names, as a bundle with exactly the indexed hash if and only if it is regular |
| `SourceArtifacts.EveryBundleRefIsServable` | registryV2/scripts/build-index.ts:1320-1328 | at any later time what a bundle ref names has the hash of the bundle written, and is that bundle up to member order where no collision is met |
| `SourceArtifacts.SecondContextIsIgnored` | registryV2/scripts/build-index.ts:1097-1104 | two outputs that share a context ref both get the first one's context: why the rows above ask for one context |
| `SourceArtifacts.SecondEntryExactly` | registryV2/scripts/build-index.ts:1096-1104 | the second of them is served with its indexed hash if and only if both contexts expand the template to the same bundle |
| `SourceArtifacts.SecondEntryIsServedWrong` | registryV2/scripts/build-index.ts:1096-1104 | a template and two contexts of one address for which it is not |
| `IndexEmission.IndexBuilder.constructor` | registryV2/scripts/build-index.ts:1198-1212 | a fresh build has written nothing |
| `IndexEmission.IndexBuilder.EmitKey` | registryV2/scripts/build-index.ts:1282-1371 | the new index, owners and counters after one key of one bundle |
| `IndexEmission.IndexBuilder.EmitBundle` | registryV2/scripts/build-index.ts:1280-1372 | the keys of a bundle, one after the other |
| `IndexEmission.IndexBuilder.EmitManifest` | registryV2/scripts/build-index.ts:1219-1399 | the bundles of a manifest, one after the other |
| `IndexEmission.IndexBuilder.Build` | registryV2/scripts/build-index.ts:1213-1432 | the whole emission loop; a strict build succeeds if and only if no collision was counted |
| `IndexEmission.KeyIsShown` | registryV2/scripts/build-index.ts:1285-1370 | a key claimed by a concrete manifest ends with the bundle hash of its last concrete claim; otherwise it keeps the first sourced claim; otherwise it is absent |
| `IndexEmission.EveryClaimIsCounted` | registryV2/scripts/build-index.ts:1286-1370 | written, skipped and repeated keys add up to all claims |
| `IndexEmission.CollisionFreeExactly` | registryV2/scripts/build-index.ts:1341-1367 | no collision is counted if and only if the concrete claimants of each key agree on its bundle |
| `IndexEmission.BuildHasOneSha` | registryV2/scripts/build-index.ts:989-1005 | manifest files have distinct paths and a concrete one gives one bundle, so every build meets the premise of the previous row |
| `IndexEmission.StrictBuildIgnoresOrder` | registryV2/scripts/build-index.ts:1427-1432 | claims without a collision give the same bundles at concrete keys in any order |
| `IndexEmission.StrictManifestsIgnoreOrder` | registryV2/scripts/build-index.ts:1427-1432 | a successful strict build of the same manifest files in any other order is successful and has the same bundles at concretely claimed keys |
| `IndexEmission.LastWins` | registryV2/scripts/build-index.ts:1353-1367 | without the strict flag the order of two manifests decides |
| `ServedEntries.WriteSourceEntry` | registryV2/scripts/build-index.ts:1304-1319 | the entry written for a `source_ref` output names its own files; what the writer has written and hashed afterwards is said, so that a caller can tell whether another context took its place; throws exactly where the refs cannot be made |
| `ServedEntries.WriteBundleEntry` | registryV2/scripts/build-index.ts:1320-1328 | the entry written for another sourced output names the file its bundle was written to |
| `ServedEntries.SourceEntrySays` | registryV2/scripts/build-index.ts:1305-1318 | the hashes and the materialisation a source entry names besides |
| `ServedEntries.OnlyBundlesAreCached` | registry-api/src/server.ts:331-334 | of the generated files exactly those of bundles and templates are cached under their own names, contexts and index files are not |
| `ServedEntries.CallkeyNames` | registry-api/src/server.ts:479-485 | the names treated as index entries are those of keys, each of one key |
| `ServedEntries.SourceEntryIsServed` | registry-api/src/server.ts:474-530 | over a store that prints the builder's files, a sourced entry is answered with a bundle of exactly the hash it promises if the output is regular; if not, with a failure or another hash |
| `ServedEntries.BundleEntryIsServed` | registry-api/src/server.ts:496-510 | an entry with a bundle ref alone is answered with a bundle of exactly the hash it promises |
| `ServedEntries.ConcreteEntryIsServed` | registry-api/src/server.ts:487-494 | an entry that holds its bundle is answered as it is |
| `ServedEntries.SourcedKeyIsAnswered` | registryV2/scripts/build-index.ts:1282-1369 | builder, index, store and proxy together: in every honest run a request for a key that only sourced manifests claim is answered with a bundle of the hash of its first claim, or met an upstream error |
| `RegistryBuilds.RegistryBuilder.constructor` | registryV2/scripts/build-index.ts:1195-1212 | a fresh builder has written nothing, and its books are in order |
| `RegistryBuilds.RegistryBuilder.WriteFiles` | registryV2/scripts/build-index.ts:1303-1337 | the shared files an index file refers to are on file, and the index file is the document of its output; throws exactly where the refs cannot be made |
| `RegistryBuilds.RegistryBuilder.EmitKey` | registryV2/scripts/build-index.ts:1280-1371 | one key of one output keeps shared files, index, ownership and index files in step; a sourced key that is taken writes nothing |
| `RegistryBuilds.RegistryBuilder.Build` | registryV2/scripts/build-index.ts:1213-1432 | after the whole loop they are in step with all emissions; the build succeeds when every ref can be made and, if strict, no collision was counted; a strict build with a collision fails |
| `RegistryBuilds.BuildMeetsPremises` | registryV2/scripts/build-index.ts:1280-1371 | of every build with one context per ref: a key whose file was written for a source ref is claimed by sourced manifests alone and first for this output, its refs name the output's own files and its file says so |
| `RegistryBuilds.EveryKeyIsServed` | registry-api/src/server.ts:211-249 | a server without cache answers every key of the index with a bundle of the hash the index promises, concrete, sourced or materialised, and any other key with 404 |
| `RegistryBuilds.EveryRequestShowsItsBundle` | registry-api/src/server.ts:211-270 | the whole registry: in every honest run every reply to a request for a key shows a bundle of the indexed hash, with the indexed path and hash, or is 404 if the index has no such key, or 502 because a read of this request failed |
| `OwnKeys.FromEntriesExactly` | browser-extension/sdk/block-ir/blocksToEst.ts:45 | an object built from entries lists its names in its own order, and lists the entries back unchanged if and only if they were distinct and in that order |
| `OwnKeys.CanonOfFromEntries` | browser-extension/sdk/block-ir/blocksToEst.ts:27 | rebuilding an object from its entries keeps its canonical form |
| `EstReading.IndexExactly` | browser-extension/sdk/block-ir/blocksToEst.ts:45 | names that are array indices are the numbers below 2^32 - 1 as they are printed |
| `EstReading.IndicesComeFirst` | browser-extension/sdk/block-ir/blocksToEst.ts:45 | in an object built from entries only smaller indices stand before an index |
| `EstReading.PlainNamesStay` | browser-extension/sdk/block-ir/blocksToEst.ts:45 | distinct names that are no indices are listed in the order they were added |
| `EstReading.EntriesExactly` | browser-extension/sdk/block-ir/estToBlocks.ts:77-85 | a record written as an array or a string is read by position, as an object member by member |
| `EstReading.FirstKeyDecides` | browser-extension/sdk/block-ir/estToBlocks.ts:62-99 | of the structural keys the first in the order of the tests decides, whatever other keys the node has |
| `EstReading.OnlyKeyDecides` | browser-extension/sdk/block-ir/estToBlocks.ts:100-112 | without one, a node with one key is an operator, a call or raw, and every other node is raw |
| `EstReading.NestedArrayIsCall` | browser-extension/sdk/block-ir/estToBlocks.ts:109-111 | an array of one array is read as a call of a function named "0" |
| `EstReading.OtherArraysAreRaw` | browser-extension/sdk/block-ir/estToBlocks.ts:100-112 | any other array is carried whole |
| `EstReading.NothingHasNoParts` | browser-extension/sdk/block-ir/estToBlocks.ts:86-116 | reading a part or an entity of null or undefined throws; other values have the members they have |
| `EstReading.NoNodeThrows` | browser-extension/sdk/block-ir/estToBlocks.ts:57-76 | a node that is neither object nor array throws, and so does a set whose value is no array |
| `EstReading.ScopesExactly` | browser-extension/sdk/block-ir/estToBlocks.ts:118-137 | an unknown operator is read as no restriction, a falsy slot or `in` part as missing |
| `EstReading.ActionScopesExactly` | browser-extension/sdk/block-ir/estToBlocks.ts:139-150 | an unknown operator is read as no restriction, missing entities as none |
| `EstReading.NullAnnotationsAreNone` | browser-extension/sdk/block-ir/estToBlocks.ts:41-55 | annotations that are null are read as if they were missing |
| `EstRoundTrips.ReadsNoHole` | browser-extension/sdk/block-ir/estToBlocks.ts:57-112 | the reader never produces a hole |
| `EstRoundTrips.ReturnsExactly` | browser-extension/sdk/block-ir/estToBlocks.ts:57-112 | whatever is read can be printed, and is printed back as the same document, members in any order, if and only if it was well-formed: operator key alone, inner record with exactly its fields, unrecognised nodes verbatim |
| `EstRoundTrips.FitsExactly` | browser-extension/sdk/block-ir/estToBlocks.ts:26-61 | well-formed EST is read if and only if it nests at most 400 deep, and the depth guard is the only thing that throws |
| `IrRoundTrips.PrintsExactly` | browser-extension/sdk/block-ir/blocksToEst.ts:32-77 | printing succeeds if and only if the tree has no hole |
| `IrRoundTrips.SurvivesExactly` | browser-extension/sdk/block-ir/blocksToEst.ts:32-77 | a hole-free tree printed and read back is the tree without its display annotations if and only if it is regular (literals typed, operators known, extension names free, record keys distinct and in object order, raw nodes unreadable otherwise) and nests at most 400 deep |
| `PolicyRoundTrips.ScopeSurvivesExactly` | browser-extension/sdk/block-ir/blocksToEst.ts:79-92 | a scope printed and read back is itself, unless it is a slot with an empty name |
| `PolicyRoundTrips.ActionScopeSurvives` | browser-extension/sdk/block-ir/blocksToEst.ts:94-103 | an action scope printed and read back is itself |
| `PolicyRoundTrips.PolicySurvivesExactly` | browser-extension/sdk/block-ir/blocksToEst.ts:18-30 | IR to EST to IR for whole policies: the identity up to display annotations if and only if the policy is regular |
| `PolicyRoundTrips.ScopeReturns` | browser-extension/sdk/block-ir/estToBlocks.ts:118-137 | a scope that is read is printed back as the same document if and only if it has one of the forms of the format |
| `PolicyRoundTrips.ActionReturns` | browser-extension/sdk/block-ir/estToBlocks.ts:139-150 | likewise for the action scope; the single-entity form of `in` is not carried |
| `PolicyRoundTrips.PolicyReturnsExactly` | browser-extension/sdk/block-ir/estToBlocks.ts:41-55 | EST to IR to EST for whole policies, with any schema or none: the same document if and only if the policy was well-formed |
| `PolicyRoundTrips.PolicyFitsExactly` | browser-extension/sdk/block-ir/estToBlocks.ts:41-61 | a well-formed policy is read if and only if no condition nests more than 400 deep |
| `AttrPaths.PrintIgnoresNotes` | browser-extension/sdk/block-ir/blocksToEst.ts:46-47 | the printer does not see display annotations |
| `AttrPaths.OnlyNotesChange` | browser-extension/sdk/block-ir/estToBlocks.ts:162-202 | the annotation pass changes nothing but display annotations |
| `AttrPaths.AnnotateIsInvisible` | browser-extension/sdk/block-ir/estToBlocks.ts:154-202 | an annotated tree prints as the tree it came from |
| `AttrPaths.AccessIsShown` | browser-extension/sdk/block-ir/schema.ts:38-48 | at every attribute access of the policy: manifest fields are custom, others come from where the first field with the path says or from nowhere known, that field's type is shown, the caption stays |
| `AttrPaths.AttrExprToPath` | browser-extension/sdk/block-ir/params.ts:149-159 | the loop computes the dotted path of a chain rooted at a variable, and nothing for other expressions |
| `AttrPaths.AttrPath` | browser-extension/sdk/block-ir/schema.ts:21-33 | the schema's path of an access equals the parameter layer's path of that access, on every expression and with any annotations |
| `AttrPaths.PathToAttrExpr` | browser-extension/sdk/block-ir/params.ts:139-146 | the loop builds the chain of the path's non-empty segments when the root is a request variable |
| `AttrPaths.SegmentsInOrder` | browser-extension/sdk/block-ir/params.ts:140 | the segments of a path are its non-empty parts between dots, in order, and no others |
| `AttrPaths.PathThroughChain` | browser-extension/sdk/block-ir/params.ts:139-159 | path to chain to path drops the empty segments and nothing else; it is the identity if and only if there are none |
| `AttrPaths.ChainThroughPath` | browser-extension/sdk/block-ir/params.ts:139-159 | chain to path to chain is the identity, annotations aside, if and only if every name is a non-empty string without dots and the root is a request variable |
| `ExprTrees.SameChildren` | browser-extension/sdk/block-ir/params.ts:87-116 | a node rebuilt around its own children is itself |
| `ExprTrees.OtherChildren` | browser-extension/sdk/block-ir/params.ts:57-116 | a node rebuilt around other children has those children, in order |
| `ExprTrees.PutBack` | browser-extension/sdk/block-ir/params.ts:181-192 | putting a node where it already is changes nothing |
| `ExprTrees.PutElsewhere` | browser-extension/sdk/block-ir/params.ts:181-192 | a replacement leaves every position apart from its own as it was |
| `ExprTrees.PutThere` | browser-extension/sdk/block-ir/params.ts:181-192 | the replacement is at the position replaced |
| `NodeReplacement.Replacer.Map` | browser-extension/sdk/block-ir/params.ts:183-191 | the result and the `done` flag of visiting one node |
| `NodeReplacement.Replacer.MapAll` | browser-extension/sdk/block-ir/params.ts:87-116 | the children of a node are visited in document order, the flag threaded through |
| `NodeReplacement.Replacer.MapConditions` | browser-extension/sdk/block-ir/params.ts:191 | the conditions are visited in order with one flag |
| `NodeReplacement.ReplaceNode` | browser-extension/sdk/block-ir/params.ts:181-192 | only the conditions of the policy change; the locator may go by what a node is or by which it is |
| `NodeReplacement.FirstMatchIsReplaced` | browser-extension/sdk/block-ir/params.ts:181-192 | of one tree exactly the first match in document order is replaced |
| `NodeReplacement.SomeIsFirst` | browser-extension/sdk/block-ir/params.ts:183-190 | a tree has a first match or no match at all |
| `NodeReplacement.ReplacesFirstMatch` | browser-extension/sdk/block-ir/params.ts:181-192 | a policy without a match is returned as it is; otherwise exactly its first match is replaced |
| `NodeReplacement.SelectedIsFirst` | browser-extension/sdk/block-ir/params.ts:13-16 | a node picked by identity is the first match, however many equal nodes come before it |
| `Params.FindRepeat` | browser-extension/sdk/block-ir/params.ts:215-219 | the loop finds the first name that occurred before |
| `Params.NoRepeatExactly` | browser-extension/sdk/block-ir/params.ts:215-219 | nothing is found if and only if the names are distinct |
| `Params.ExtractParams` | browser-extension/sdk/block-ir/params.ts:197-221 | the holes in document order, or the first repeated name |
| `Params.MadeHole` | browser-extension/sdk/block-ir/params.ts:120-177 | which values can be exposed, and every member of the hole made of one |
| `Params.HolesInOrder` | browser-extension/sdk/block-ir/params.ts:197-218 | the list holds each hole of the policy at its place in document order, with all it says, and nothing else |
| `Params.BuildSet` | browser-extension/sdk/block-ir/params.ts:282-293 | the element loop stops at the first element of the wrong type |
| `Params.BuildsExactly` | browser-extension/sdk/block-ir/params.ts:255-302 | a value is built if and only if it passes its type, range and enum check or is a known field path, and never holds a hole |
| `Params.BuildBecomes` | browser-extension/sdk/block-ir/params.ts:255-302 | what is built says what the value says: the literal of that number, text or flag, the entity of that type and id, the set of the literals of those items in order, the access along the segments of that path |
| `Params.BuildRefuses` | browser-extension/sdk/block-ir/params.ts:223-302 | a refused value is out of range, or else not among the options, or else of the wrong type |
| `Params.DiffersOnlyAtHoles` | browser-extension/sdk/block-ir/params.ts:305-308 | at every position of the template the filled tree has the hole's filling or the very same node |
| `Params.HoleFreeIsHoleless` | browser-extension/sdk/block-ir/params.ts:197-213 | a tree is hole-free if and only if no hole is collected from it |
| `Params.PolicyHoleFreeExactly` | browser-extension/sdk/block-ir/params.ts:305-308 | a filled policy is hole-free if and only if every hole got a filling without holes |
| `ParamFilling.FillParams` | browser-extension/sdk/block-ir/params.ts:313-338 | the loops over supplied names and holes: all complaints in order, or the filled policy |
| `ParamFilling.FillSucceedsExactly` | browser-extension/sdk/block-ir/params.ts:313-338 | filling succeeds if and only if hole names are distinct, no supplied name is unknown, every required hole is supplied and every value passes its check |
| `ParamFilling.RefusedExactly` | browser-extension/sdk/block-ir/params.ts:313-340 | a template is refused with exactly the complaints it deserves: unknown names, required holes without a value, and the reason of each value refused |
| `ParamFilling.FilledEverywhere` | browser-extension/sdk/block-ir/params.ts:326-337 | simultaneous substitution: wherever the template has a hole the result says what the value supplied for it says, or is the default of an optional hole, everywhere else the template's own node |
| `ParamFilling.FilledIsHoleFreeExactly` | browser-extension/sdk/block-ir/params.ts:326-337 | the result is hole-free, and can be printed, if and only if every default that was used is hole-free |
| `ParamFilling.ConcretizeIr` | browser-extension/sdk/block-ir/params.ts:344-363 | the loop of fillings, defaults where nothing usable is supplied |
| `ParamFilling.ConcreteEverywhere` | browser-extension/sdk/block-ir/params.ts:344-362 | at every hole stands what an acceptable value says, or else the default, and everywhere else the template's own node |
| `ParamFilling.RepeatedIsNotConcrete` | browser-extension/sdk/block-ir/params.ts:344-362 | a template with a name that occurs twice is returned as it is |
| `ParamFilling.ConcreteUndoesExpose` | browser-extension/sdk/block-ir/params.ts:344-363 | exposing the first matching value of a hole-free policy and making the result concrete gives back the policy |
| `ParamFilling.ConcreteUndoesExposeOfSelected` | browser-extension/sdk/block-ir/params.ts:13-16 | exposing the node the user selected puts the hole exactly there, and making the result concrete gives back the policy, also among equal nodes |
| `ParamFilling.FillReplacesExposed` | browser-extension/sdk/block-ir/params.ts:163-192 | filling the exposed hole puts an accepted value exactly where the old one was, and reports the one complaint otherwise |
| `SortedIds.NormalizeSorts` | browser-extension/backend/service-worker/policy-selection.ts:72-74 | the ids come out ascending, without repeats, and the same as a set |
| `SortedIds.LessIsUnitOrder` | browser-extension/backend/service-worker/policy-selection.ts:72-74 | ascending in the order of UTF-16 units, which `sort()` compares |
| `SortedIds.AscendingIsUnique` | browser-extension/backend/service-worker/policy-selection.ts:72-74 | there is only one such list |
| `SortedIds.NormalizeDependsOnSet` | browser-extension/backend/service-worker/policy-selection.ts:72-74 | the same set of ids gives the same list |
| `ApplyQueues.PolicySelection.constructor` | browser-extension/backend/service-worker/policy-selection.ts:59-61 | nothing in flight, nothing queued |
| `ApplyQueues.PolicySelection.ApplyEnabledIds` | browser-extension/backend/service-worker/policy-selection.ts:120-147 | a call starts the loop or overwrites the queued ids and adds its resolver |
| `ApplyQueues.PolicySelection.Awaited` | browser-extension/backend/service-worker/policy-selection.ts:76-97 | the run goes on after one of its awaits, well or badly |
| `ApplyQueues.PolicySelection.Resolve` | browser-extension/backend/service-worker/policy-selection.ts:139 | every resolver of the batch is told the outcome |
| `ApplyQueues.PolicySelection.Continued` | browser-extension/backend/service-worker/policy-selection.ts:134-147 | the loop takes what is queued, or ends and tells the first caller |
| `ApplyQueues.InvariantHolds` | browser-extension/backend/service-worker/policy-selection.ts:120-148 | what holds in every reachable state: one loop, the queue is what arrived since the last run started, runs have the last ids, storage and engine agree with the run's stage, callers know what they should |
| `ApplyQueues.OneReinstall` | browser-extension/backend/service-worker/policy-selection.ts:124-133 | at most one reinstall is active |
| `ApplyQueues.NoLostWakeup` | browser-extension/backend/service-worker/policy-selection.ts:124-145 | something is queued only while a run is in flight that will take it |
| `ApplyQueues.RunHasLastIds` | browser-extension/backend/service-worker/policy-selection.ts:126-138 | a run has the ids of the last call that arrived before it started |
| `ApplyQueues.QueuedCallerOutcome` | browser-extension/backend/service-worker/policy-selection.ts:134-140 | a queued caller is told the outcome of the first run that started after it queued, which used the last ids queued before it: the code, not its comment, which promises the final result |
| `ApplyQueues.QueuedCallerMissesFinalResult` | browser-extension/backend/service-worker/policy-selection.ts:134-140 | a run of three calls, whatever ids they ask for, in which the second is told of success and the final result is a failure |
| `ApplyQueues.QueuedCallerGetsFinalResult` | browser-extension/backend/service-worker/policy-selection.ts:134-147 | the promise is kept when no call arrives while the run that serves the caller is under way: then and ever after the caller has the outcome of the loop's last run, as the first caller has |
| `ApplyQueues.FirstCallerOutcome` | browser-extension/backend/service-worker/policy-selection.ts:131-147 | the caller that started the loop gets the outcome of its last run |
| `ApplyQueues.SettledOnce` | browser-extension/backend/service-worker/policy-selection.ts:125-139 | no later step changes what a caller was told |
| `ApplyQueues.IdleIsSettled` | browser-extension/backend/service-worker/policy-selection.ts:120-148 | at idle everybody has been told; if the last run succeeded, enabled, installed and applied are the sorted ids of the most recent call |
| `ApplyQueues.AppliedFollowsEngine` | browser-extension/backend/service-worker/policy-selection.ts:89-93 | the applied set changes only to what the engine was just made to run |
| `PromiseChains.ActorChain.constructor` | browser-extension/backend/service-worker/orchestrator.ts:158 | no chains at first |
| `PromiseChains.ActorChain.WithActorLock` | browser-extension/backend/service-worker/orchestrator.ts:160-179 | without an actor nothing is queued; otherwise the body is queued behind the lower-cased actor's last promise |
| `PromiseChains.ActorChain.Release` | browser-extension/backend/service-worker/orchestrator.ts:171-176 | what the `finally` callback deletes |
| `PromiseChains.InvariantHolds` | browser-extension/backend/service-worker/orchestrator.ts:160-179 | in every run of both chains a body waits for the last body of its key before it, or all of those are over |
| `PromiseChains.StartsInOrder` | browser-extension/backend/service-worker/orchestrator.ts:165-170 | bodies of one actor start in arrival order, each after all earlier ones are over |
| `PromiseChains.AtMostOneActive` | browser-extension/backend/service-worker/orchestrator.ts:160-179 | at most one body per actor is active |
| `PromiseChains.FailureDoesNotBlock` | browser-extension/backend/service-worker/orchestrator.ts:167-170 | however the earlier bodies ended, the next can start |
| `PromiseChains.ActorSlotStays` | browser-extension/backend/service-worker/orchestrator.ts:171-176 | an actor's slot is never deleted: the stored promise is never the one compared with |
| `PromiseChains.LoaderSlotFreed` | browser-extension/backend/service-worker/policies-loader.ts:117-122 | the loader's slot is free once every body has passed |
| `PolicyLoaders.PolicyLoader.constructor` | browser-extension/backend/service-worker/policies-loader.ts:105-106 | nothing installed, nothing in flight |
| `PolicyLoaders.PolicyLoader.EnsureDefaultPoliciesInstalled` | browser-extension/backend/service-worker/policies-loader.ts:133-146 | a boot call returns at once when installed, else queues a body that may skip |
| `PolicyLoaders.PolicyLoader.ReinstallAllPolicies` | browser-extension/backend/service-worker/policies-loader.ts:157-169 | a reinstall always queues a body |
| `PolicyLoaders.PolicyLoader.WithSerialization` | browser-extension/backend/service-worker/policies-loader.ts:105-123 | the body is queued behind the previous promise, or starts at once |
| `PolicyLoaders.PolicyLoader.Resume` | browser-extension/backend/service-worker/policies-loader.ts:107-116 | a waiting body starts, or skips when an interleaved reinstall did the work |
| `PolicyLoaders.PolicyLoader.InstallEnds` | browser-extension/backend/service-worker/policies-loader.ts:137-167 | the engine and the flag after an install that ended well or badly |
| `PolicyLoaders.InvariantHolds` | browser-extension/backend/service-worker/policies-loader.ts:105-169 | in every run the engine holds the latest-arrived install that succeeded and bodies are serial |
| `PolicyLoaders.InstallsAreSerial` | browser-extension/backend/service-worker/policies-loader.ts:105-123 | a body starts only when all earlier ones are over, however they ended |
| `PolicyLoaders.EngineIsLastArrival` | browser-extension/backend/service-worker/policies-loader.ts:133-169 | the engine holds the install of the latest-arrived body that installed |
| `PolicyLoaders.InstalledFlag` | browser-extension/backend/service-worker/policies-loader.ts:136-165 | when the flag is set, something is installed and no body after it has failed |
| `PolicyLoaders.BootSkipsUnlessFailed` | browser-extension/backend/service-worker/policies-loader.ts:133-146 | once an install has succeeded, a later boot body neither installs nor tries to, unless an install in between has failed |
| `PolicyEngines.InvariantHolds` | browser-extension/backend/service-worker/policy-selection.ts:76-147 | queue and loader together: in every run the reinstall awaited is the last one queued, with the run's ids, and once the run has gone on from it well it has installed |
| `PolicyEngines.EngineHolds` | browser-extension/backend/service-worker/policies-loader.ts:105-169 | after a last reinstall that succeeded the engine is its and counts as installed, whatever boots came after it |
| `PolicyEngines.EngineAtIdle` | browser-extension/backend/service-worker/policy-selection.ts:120-147 | when nothing is in flight and the last apply succeeded, engine and storage hold the ids of the most recent call, whatever boot installs arrived, ran or failed in between and whichever still wait |
| `PolicyEngines.BootThenCallEnds` | browser-extension/backend/service-worker/policy-selection.ts:76-147 | a run, for any policies asked for, in which a boot install goes between a call and its reinstall, and which ends with nothing in flight and exactly these policies installed |
| `VerdictTrees.EvaluateBodyTree` | browser-extension/backend/service-worker/orchestrator.ts:1285-1374 | the loop and recursion compute the verdicts of the body and of its multicall children, or the first throw |
| `VerdictTrees.TreeIsFlat` | browser-extension/backend/service-worker/orchestrator.ts:1352-1373 | the tree evaluates its bodies one after the other, parents first |
| `VerdictTrees.MulticallVisitsEveryAction` | browser-extension/backend/service-worker/orchestrator.ts:1353-1370 | of a multicall the body is visited first and then every inner action with all that is in it, in order, at its visit number |
| `VerdictTrees.OthersVisitThemselves` | browser-extension/backend/service-worker/orchestrator.ts:1353-1355 | any other body is visited alone |
| `VerdictTrees.InnerDenyDenies` | browser-extension/backend/service-worker/orchestrator.ts:1353-1490 | a deny at any inner action of a multicall leg that completes denies the transaction |
| `VerdictTrees.AggregateV2Verdicts` | browser-extension/backend/service-worker/orchestrator.ts:1518-1534 | fail if any failed, else warn if any warned, else pass; matches concatenated in order |
| `VerdictTrees.AggregateOfParts` | browser-extension/backend/service-worker/orchestrator.ts:1518-1534 | aggregating all verdicts or the aggregates of any parts is the same, matches included |
| `VerdictTrees.TryV2VerdictPath` | browser-extension/backend/service-worker/orchestrator.ts:1383-1491 | the loop over legs: the aggregate, the first engine error, or nothing; each visit of a body has an outcome of its own |
| `VerdictTrees.DenyOverrides` | browser-extension/backend/service-worker/orchestrator.ts:1485-1490 | a fail at any node of a leg that completes makes the result fail, even if another leg threw |
| `VerdictTrees.FailExactly` | browser-extension/backend/service-worker/orchestrator.ts:1417-1490 | the transaction is denied if and only if there are policies and a leg that completes has a body that is denied |
| `VerdictTrees.DenyBeforeThrowIsLost` | browser-extension/backend/service-worker/orchestrator.ts:1456-1491 | a denied multicall whose inner call throws ends as a warning |
| `VerdictTrees.FirstFaultIsShown` | browser-extension/backend/service-worker/orchestrator.ts:1456-1516 | with a leg that threw and no deny, the warning names the first engine error thrown, and none when there was none |
| `VerdictTrees.RealExactly` | browser-extension/backend/service-worker/orchestrator.ts:1389-1399 | an action is walked if and only if its body is an object whose domain is not unknown |
| `VerdictTrees.RealActionsInOrder` | browser-extension/backend/service-worker/orchestrator.ts:1389-1399 | those that are walked keep their order, and no other is |
| `VerdictTrees.PassExactly` | browser-extension/backend/service-worker/orchestrator.ts:1383-1510 | the transaction passes if and only if there are policies and a real action and in every real action every visited body has no domain or is evaluated to pass |
| `VerdictTrees.NestedUnknownNeverPasses` | browser-extension/backend/service-worker/orchestrator.ts:1342-1350 | an unknown body nested in a multicall never lets the result be pass |
| `VerdictTrees.UnknownIsMarked` | browser-extension/backend/service-worker/orchestrator.ts:1342-1350 | an unknown body contributes exactly one warning that names the partial decode |
| `VerdictTrees.DomainlessPasses` | browser-extension/backend/service-worker/orchestrator.ts:1303-1342 | a body without a domain is not evaluated and passes: why the row on passing names it |
| `VenueGates.ParseOrders` | browser-extension/backend/injected/hl-exchange-parse.ts:158-188 | the payloads of an order action, never empty |
| `VenueGates.EveryLegIsGuarded` | browser-extension/backend/injected/hl-exchange-parse.ts:158-188 | for any `orders` at all: each valid leg has its payload in its place, member by member as it was sent, and the rest is one unknown marker exactly when a leg is invalid or there is none |
| `VenueGates.ValidLegExactly` | browser-extension/backend/injected/hl-exchange-parse.ts:135-153 | a leg is valid if and only if there is an order that says what its members say |
| `VenueGates.ToSeqKeepsOrder` | browser-extension/backend/injected/hl-exchange-parse.ts:158-188 | the legs are those of the request, in its order |
| `VenueGates.ParseModify` | browser-extension/backend/injected/hl-exchange-parse.ts:202-223 | the valid legs of a modify in order, or nothing |
| `VenueGates.ModifyShowsValidLegs` | browser-extension/backend/injected/hl-exchange-parse.ts:190-223 | of a modify each valid leg has its payload in its place, member by member as it was sent, and an invalid one leaves nothing: all legs are shown if and only if all are valid |
| `VenueGates.ModifyLegsExactly` | browser-extension/backend/injected/hl-exchange-parse.ts:202-208 | the legs of a modify are the orders of its edits, in order, or else its own order |
| `VenueGates.InvalidModifyLegIsNotShown` | browser-extension/backend/injected/hl-exchange-parse.ts:209-223 | a batch of a valid and an invalid edit, of which only the first is shown |
| `VenueGates.ParseHyperliquidExchangeOrders` | browser-extension/backend/injected/hl-exchange-parse.ts:233-456 | the parse of a whole request body |
| `VenueGates.UnguardedExactly` | browser-extension/backend/injected/hl-exchange-parse.ts:233-456 | the parser returns nothing if and only if the envelope is malformed, the type is a listed benign one, or a modify has no valid leg |
| `VenueGates.RequestIsShownAsSent` | browser-extension/backend/injected/hl-exchange-parse.ts:278-445 | a whole request of a single-action type is put to the policies as one payload with its envelope; it says field by field what the request says, or is marked as not understood if and only if a field it needs is missing |
| `VenueGates.WireIsSent` | browser-extension/backend/injected/hl-exchange-parse.ts:278-445 | every field of the wire of a single action says what the action's own member says, with the documented defaults |
| `VenueGates.UnknownTypeIsShown` | browser-extension/backend/injected/hl-exchange-parse.ts:446-456 | a request of any other type that is not harmless is shown under its own type |
| `VenueGates.EvaluatePayloads` | browser-extension/backend/injected/fetch-hook.ts:158-184 | approval of the batch is approval of every payload |
| `VenueGates.DecideVenueBody` | browser-extension/backend/injected/hl-exchange-parse.ts:513-535 | unreadable bodies are denied; a parsed body is allowed if and only if every payload, markers included, is approved |
| `SurfaceGates.MutatingSelectors` | registryV2/scripts/check-surface-completeness.ts:524-533 | the selectors of the snapshot's nonpayable and payable functions |
| `SurfaceGates.CheckTriage` | registryV2/scripts/check-surface-completeness.ts:595-600 | I1 reports exactly the mutating selectors without a decision |
| `SurfaceGates.CheckRow` | registryV2/scripts/check-surface-completeness.ts:602-626 | I1' reports exactly what is wrong with one coverage key, the native-transfer sentinel included |
| `SurfaceGates.CheckRows` | registryV2/scripts/check-surface-completeness.ts:601-626 | I1' over all keys |
| `SurfaceGates.CheckCovers` | registryV2/scripts/check-surface-completeness.ts:641-669 | I2 and S2 report exactly the covers without a manifest |
| `SurfaceGates.CheckPresent` | registryV2/scripts/check-surface-completeness.ts:648-663 | I3 and S1 report exactly the manifests that are not covers |
| `SurfaceGates.CheckAddress` | registryV2/scripts/check-surface-completeness.ts:634-670 | the four checks at one address |
| `SurfaceGates.CheckUnit` | registryV2/scripts/check-surface-completeness.ts:561-670 | the failures of one coverage file are exactly its violations |
| `SurfaceGates.CheckEntry` | registryV2/scripts/check-surface-completeness.ts:697-722 | I0 for one deployed contract |
| `SurfaceGates.CheckList` | registryV2/scripts/check-surface-completeness.ts:686-722 | the failures of one deployment list are exactly its violations |
| `SurfaceGates.AddGated` | registryV2/scripts/check-surface-completeness.ts:573-580 | the contracts a coverage file gates are added to its protocol |
| `SurfaceGates.CheckUnits` | registryV2/scripts/check-surface-completeness.ts:561-679 | all coverage files: exactly their violations, and exactly the contracts gated per protocol |
| `SurfaceGates.Gate` | registryV2/scripts/check-surface-completeness.ts:551-778 | the gate reports exactly the violations there are |
| `SurfaceGates.PassExactly` | registryV2/scripts/check-surface-completeness.ts:561-722 | there is nothing to report if and only if the surface is complete: every mutating function decided, covered selectors and signed types equal those with manifests at every gated address, every deployed contract gated or excluded with a reason |
| `SurfaceGates.SameContractSameCover` | registryV2/scripts/check-surface-completeness.ts:641-669 | after a pass, coverage files that gate the same contract cover the same |

## Left out

- HTTP, GCS, `chrome.storage`, fetch and XHR wrapping, windows and streams: reads, writes and policy approval are steps or functions with arbitrary outcomes.
- Cedar evaluation, planning and dispatch: one function of the visit and the body that gives a verdict or throws; diagnosis capture, simulation recording and token decimals never change a verdict and are absent.
- JSON text, hashing, number and date parsing, id sanitising, `String(...)` of non-strings: function-valued parameters. The hash need only tell apart the finitely many objects that a row is about (`SourceArtifacts.NoCollision`), and `JSON.parse` undo `JSON.stringify` only on the files of the store (`ServedEntries.Holds`).
- Prototype keys and getters of JavaScript objects: values are plain data.
- Floating point in the rate limiter: times, rates and tokens are real numbers.
- Path validation, the 429 answer and request logs, which come before and after the proxy's read path.
- The store of `RegistryProxies` does not change during a run, and reads end as the store says or with a transient error; a rejected read is such an error.
- `getCurrentUserId` does not reject and there is one user per run of `ApplyQueues`; per-user key names are absent.
- Update in place of `annotate`: it is a function on trees, so aliasing of nodes is not captured; its effect on the printed policy is.
- Error messages: a thrown error or a reported failure is its kind and subject.
- Builder inputs: resolvers, RPC, directory walking and `--representative-source-refs`; by-selector and typed-data indexes, whose duplicates reject the whole build.
- Collecting the manifest surface for the gate, its warnings and its summary: the selectors and signed types per contract are an input.
- Values an adopter supplies under `field` that are not strings; the form gives strings.
- `descriptorFromCustomTypes`, severity ranking, storage-key migration, retry wrappers: they would only add easy members.
- The confirm window and the append-only logs: only sequential list facts would hold of them.
- VenueGates.RequestIsShownAsSent: for single actions; order legs carry no recipient.
- SourceArtifacts.EveryEntryIsServable: asks for one context per context ref; SourceArtifacts.SecondEntryExactly says what happens otherwise.
- RegistryBuilds.EveryRequestShowsItsBundle: that the store holds the builder's files, and the proxy accepts their names as references, is a premise, as are regular outputs and one context per ref.
- RegistryBuilds.RegistryBuilder.EmitKey: where refs cannot be made the build stops; the original goes on to report further errors and then fails.
- PolicyEngines.EngineAtIdle: which ids a boot install reads from storage is not modelled; reinstalls come from the queue alone.
- Strings with lone surrogates, which JavaScript allows.
