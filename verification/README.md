# AI gateway: a verified model

This project models the parts of the gateway that hold real algorithms or state, and proves what they are
for. The modules follow the components:

- `InferencePools`, `PoolFields`, `FilterChains`, `Rewrite`, `Translate`, `RewriteTheorems`, `RepeatedFilters`,
  `PostTranslate`, `Hooks`, `EndToEnd`: the extension server. InferencePools are stored in metadata as
  slash-separated strings; the post-translate hook reads them back, adds one cluster per endpoint picker, inserts
  one external-processor filter per pool into every filter chain that serves it, and switches the foreign filters
  off on every route. The main theorem, `OwnFiltersOnlyAfterRewrite`, says which filters run for which route, and
  `FreshRewriteIff` says exactly when; filter chains and routes are objects patched in place, and every map loop
  runs in an arbitrary order.
- `Cbor`, `BlockKeys`, `BlockKeyTheorems`, `RequestKeyTheorems`, `PromptHashes`: prefix-cache keys. Tokens are chunked and hashed in a
  chain over a canonical CBOR payload, modelled byte by byte; the 64-bit hash is an abstract function and
  "no collision among these payloads" is a hypothesis. Keys then behave like comparing token prefixes.
- `Datastore`, `DatastoreTheorems`: the endpoint store and its refresh loops as mutable objects, over any
  sequence of events. `MetricsClient`: choosing a sample, folding a scrape into the previous readings, and
  publishing snapshots that are never written again.
- `XdsStream`, `XdsProgress`: the two goroutines of an xDS connection as interleaved steps over bounded channels,
  what no interleaving breaks, and when the loop goes on or ends.
- `MetricSpec`, `MetricGrammar`, `StrCase`, `CaseLetters`: a parser with its exact language and a normal form, and
  case conversions over byte strings.
- `Scheduler`, `QueueScore`: filtering, weighted sums, top-n selection, and normalised queue scores.
- `Text`: strings, splitting, trimming and decimal numbers, shared by the others.

`dafny verify dfyconfig.toml` checks everything.

Some results say that the code falls short of what one would expect of it. Each is stated with its exact
condition or a concrete input:

- filters are disabled by name, so two pools that share a filter name but not a filter both run for each
  other's routes (`OwnFilterOnlyIff`, `SharedNameRunsForeign`, `ClashRunsBoth`);
- pool names or namespaces with underscores can share a filter name (`FilterNameSharedIff`, `FilterNameClash`);
- two routes to one pool put the pool twice in a listener's list, and its filter twice in the chain
  (`RepeatedFilterIff`, `TwoRoutesRepeatFilter`);
- on an object without metadata the pool reference is lost (`BuildEPPMetadata`);
- a key chain whose last key happens to be the empty hash cannot be resumed (`ResumeIff`,
  `EmptyLastKeyIsNotResumed`);
- a model name that spells a block and a hash shares the prompt hashes of another request one block on
  (`DepthsDiffer`, `SpelledModelSharesHashes`);
- a failed pod listing loses the resync until the selector changes or the pool goes (`FailedListingLosesResync`,
  `ResyncRunsIff`);
- a resync keeps surplus ranks of active pods and endpoints of namesakes in other namespaces (`ResyncExactIff`,
  `ReachableResyncIff`, `SurplusRankKept`), and new ports under an old selector reach no stored endpoint
  (`PortChangeDriftsIff`);
- an unreadable cache label puts another number where the comment on the refresh promises the last reading
  (`CacheReadingIff`, `UnreadableCacheLabelLosesReading`);
- the error of a failed receive is never read, so the stream stays up until it is stopped (`ErrorIsNeverRead`,
  `ReturnedIff`);
- none of the specially spelled names converts back from kebab case (`KebabRoundTripIff`, `SpecialNamesChange`);
- without score plugins nobody is chosen, however many pods are left (`NobodyChosenIff`).

Where the code does not compile as written, its evident intent is modelled: the store has one `pool`, read as
the converted argument of `StartPodMetricsLoop`; `RunScorePlugins` returns the totals it built, weighs with
the plugin's own weight, and its error is passed on by `Schedule`.

## Model

| member | source | states |
|---|---|---|
| InferencePools.RefRoundTrip | pkg/extensionserver/inferencepool.go:134-180 | For every pool, decoding its reference gives a pool with the same filter, cluster, authority, DNS name, port, body mode and override flag exactly when no string field holds a slash; otherwise it gives nothing |
| InferencePools.DecodedRefIsStable | pkg/extensionserver/post_translate_modify.go:361-389 | Any accepted reference, however its port was written, names a pool that survives another encoding and decoding |
| InferencePools.RefSplits | pkg/extensionserver/post_translate_modify.go:361-364 | A reference has six parts exactly when the pool is free of slashes |
| PoolFields.PortExact | pkg/extensionserver/inferencepool.go:170-180 | A declared port from 0 to 65535 is used as it is; in every other case the port is that of the pool without one, 9002 |
| PoolFields.DecodeExact | pkg/extensionserver/post_translate_modify.go:361-389 | A reference names a pool exactly when it is six slash-free parts of which the fourth is a 32-bit number, and each part fills its own field |
| PoolFields.RoundTripFields | pkg/extensionserver/inferencepool.go:134-180 | The pool that comes back through its reference has the declared namespace, name, picker, port and annotations, or the defaults 9002, duplex and false |
| PoolFields.PickerSettings | pkg/extensionserver/inferencepool.go:200-283 | For a pool and for what comes back through its reference: the cluster dials the declared port or 9002 at the picker's DNS name, the filter has that authority and cluster, buffers exactly when the annotation says buffered, and may be overridden exactly when it says true |
| PoolFields.PoolByMetadataExact | pkg/extensionserver/post_translate_modify.go:350-364 | Metadata without a string under the namespace and key names no pool, and with one the pool that string spells |
| PoolFields.WithRefKeeps | pkg/extensionserver/inferencepool.go:96-132 | Storing a reference leaves every other namespace and key as it was |
| PoolFields.DocumentedForm | pkg/extensionserver/post_translate_modify.go:169-186 | The documented reference, for any slash-free namespace, name and service, gives the filter name, cluster, authority, body mode and override of the documented filter |
| InferencePools.AuthorityIsDnsAndPort | pkg/extensionserver/inferencepool.go:279-283 | The authority a filter dials is the address of the picker cluster, a colon and its port |
| InferencePools.FilterNameFixesCluster | pkg/extensionserver/inferencepool.go:183-236 | Two pools share a filter name exactly when they share a cluster name |
| InferencePools.FilterNameInjective | pkg/extensionserver/inferencepool.go:183-185 | Filter names tell pools apart when pool names hold no underscore |
| InferencePools.FilterNameSharedIff | pkg/extensionserver/inferencepool.go:183-185 | Exactly when a filter name is not the pool's own: some pool of another name or namespace has it if and only if the pool's name or namespace holds an underscore |
| InferencePools.FilterNameClash | pkg/extensionserver/inferencepool.go:183-185 | With underscores two different pools get one filter name: a concrete pair |
| Hooks.BuildEPPMetadata | pkg/extensionserver/inferencepool.go:96-132 | The pool is read back from the metadata exactly when the message existed and no field holds a slash, and then leads to the same picker; all other entries stay |
| Hooks.ConstructInferencePools | pkg/extensionserver/inferencepool.go:47-80 | Returns the places, in ascending order and without a gap, of all resources that parse, have the pool version and kind and convert, and what stands there: nothing else, nothing twice, nothing out of order |
| Hooks.PoolsInOrder | pkg/extensionserver/inferencepool.go:47-80 | The same of the pools the hooks are specified with |
| Hooks.PostRouteModify | pkg/extensionserver/post_route_modify.go:48-93 | Only a route with exactly one pool is changed: host rewriting off, a nil override map made empty, the pool tagged so that it reads back to the same picker; two or more pools are an error that changes nothing |
| Hooks.PostClusterModify | pkg/extensionserver/post_cluster_modify.go:27-136 | The same for clusters, whose discovery, load balancing, timeout and EDS fields all end up as an original-destination cluster over the endpoint header |
| FilterChains.FindHcmFirst | pkg/extensionserver/post_translate_modify.go:324-338 | The first filter of the name decides: found if it is a connection manager, nothing otherwise, whatever follows; nothing without such a filter |
| FilterChains.SearchMisses | pkg/extensionserver/post_translate_modify.go:280-291 | The search reports a missing filter exactly when no filter has the pool's filter name |
| FilterChains.PatchedHcm | pkg/extensionserver/post_translate_modify.go:195-235 | Patching touches nothing of a chain but the HTTP filters of its connection manager |
| FilterChains.PatchedOrder | pkg/extensionserver/post_translate_modify.go:195-235 | In a patched chain every original filter keeps its place before the router, the router is last, and all in between are filters of the pools, of names the chain lacked |
| FilterChains.InsertionNames | pkg/extensionserver/post_translate_modify.go:201-226 | The filter names afterwards are the chain's own and those of the pools |
| FilterChains.InsertionAddsPoolFilters | pkg/extensionserver/post_translate_modify.go:201-219 | Whatever was not there before is the filter of one of the pools |
| FilterChains.InsertionCount | pkg/extensionserver/post_translate_modify.go:201-226 | How often each name occurs afterwards: a name already there gains none, another gains one per repetition in the pool list |
| FilterChains.NoRepeatedNameIff | pkg/extensionserver/post_translate_modify.go:201-226 | The result repeats no name exactly when the chain repeated none and the list repeats no missing pool |
| FilterChains.InsertionIdempotent | pkg/extensionserver/post_translate_modify.go:201-226 | Inserting pools whose names are already there adds nothing, even after a list with repeats |
| FilterChains.PatchIdempotent | pkg/extensionserver/post_translate_modify.go:187-236 | The same for a whole network filter chain |
| FilterChains.PatchNothing | pkg/extensionserver/post_translate_modify.go:195-235 | No pools, no change |
| FilterChains.ActiveAfterPatch | pkg/extensionserver/post_translate_modify.go:187-277 | Which picker names run after insertion and disabling, for any chain, pools and overrides |
| FilterChains.DisableExact | pkg/extensionserver/post_translate_modify.go:239-277 | Disabling a set of names disables exactly those and keeps every other override |
| FilterChains.RunningAfterPatch | pkg/extensionserver/post_translate_modify.go:187-277 | Which picker filters run: two may share a name |
| FilterChains.ClashRunsBoth | pkg/extensionserver/post_translate_modify.go:187-277 | The failing input: two pools of one filter name and different filters both run for a route of the first, on a bare chain |
| Rewrite.FindListenerRouteConfigs | pkg/extensionserver/post_translate_modify.go:294-321 | Collects the route configs the chains name; empty names count for the default chain alone |
| Rewrite.NamedIff | pkg/extensionserver/post_translate_modify.go:294-321 | A listener names a route config exactly when one of its chains, listed or default, has a connection manager that asks for it, by a non-empty name or as the default chain |
| Rewrite.NamesInOrder | pkg/extensionserver/post_translate_modify.go:294-321 | The names are those of the asking chains, one each, listed chains in order and the default chain last |
| Rewrite.AllChainsExact | pkg/extensionserver/post_translate_modify.go:188-193 | The chains of a translation are the listed and default ones of its listeners |
| Rewrite.AllRoutesExact | pkg/extensionserver/post_translate_modify.go:109-123 | The routes of a translation are those of all hosts of all route configs |
| Rewrite.CollectedIff | pkg/extensionserver/post_translate_modify.go:91-106 | A listener name is collected exactly when a listener has it and it starts with neither of the two probe prefixes |
| Rewrite.LastListenerWins | pkg/extensionserver/post_translate_modify.go:91-106 | Of several listeners of one name the last is rewritten |
| Rewrite.LastConfigWins | pkg/extensionserver/post_translate_modify.go:109-123 | Of several route configs of one name the last is used |
| Rewrite.LastRouteWins | pkg/extensionserver/post_translate_modify.go:109-123 | Of several routes of one config and name the last with a pool gives the matrix entry |
| Rewrite.CollectListeners | pkg/extensionserver/post_translate_modify.go:91-106 | Probes are skipped and the last listener of a name wins |
| Rewrite.CollectRoutes | pkg/extensionserver/post_translate_modify.go:109-123 | The pool matrix of all routes of all hosts of all configs, the last of equal names winning |
| Rewrite.ListenersByNameComplete | pkg/extensionserver/post_translate_modify.go:91-106 | With unique names no listener but a probe is lost |
| Rewrite.PoolsByRouteSound | pkg/extensionserver/post_translate_modify.go:109-123 | Every pool of the matrix is the pool of a route of that config |
| Rewrite.PoolsByRouteNames | pkg/extensionserver/post_translate_modify.go:109-123 | Every entry of the matrix is the pool of a route of that config and name |
| Rewrite.PoolsByRouteComplete | pkg/extensionserver/post_translate_modify.go:109-123 | A route's pool is in the matrix unless an equally named route of its config names another |
| Translate.CollectServed | pkg/extensionserver/post_translate_modify.go:126-142 | For every order of map iteration, each listener is given one pool for every pair of a config occurrence it names and a route name with a pool there, no pair left out or repeated |
| Translate.PatchFilterChain | pkg/extensionserver/post_translate_modify.go:195-235 | In place, the chain becomes its patched form, originals in their places and the router last: the slice steps do not lose it |
| Translate.PatchListener | pkg/extensionserver/post_translate_modify.go:187-236 | Every chain of the listener, shared or default, is patched once in effect |
| Translate.PatchVirtualHost | pkg/extensionserver/post_translate_modify.go:239-277 | For every map order, each route has the foreign filters disabled, its own untouched and every other override kept |
| Translate.PatchConfigs | pkg/extensionserver/post_translate_modify.go:148-160 | Routes of configs the listener names are patched, all others keep their overrides |
| Translate.ApplyServed | pkg/extensionserver/post_translate_modify.go:145-161 | For every map order, after any set of listeners each chain and each route is what those listeners make of it, shared configs included |
| Translate.MaybeModifyListenersAndRoutes | pkg/extensionserver/post_translate_modify.go:90-164 | The state after the rewrite: every served chain patched, every named route disabled as due, everything else as before |
| RewriteTheorems.ServedPoolsExact | pkg/extensionserver/post_translate_modify.go:109-142 | In any map order a listener is given exactly the pools of the routes its chains lead to |
| RewriteTheorems.ServedNamesExact | pkg/extensionserver/post_translate_modify.go:109-142 | The same of their filter names |
| RewriteTheorems.ForeignExact | pkg/extensionserver/post_translate_modify.go:145-161 | The names switched off on a route are those of the pools of all listeners that lead to it, but its own, whatever the map order |
| RewriteTheorems.RunningPickersExact | pkg/extensionserver/post_translate_modify.go:90-277 | Exactly which picker names run for any chain and route it reaches, with stale filters and overrides allowed beforehand |
| RewriteTheorems.RunningExact | pkg/extensionserver/post_translate_modify.go:90-277 | Exactly which picker filters run, under the same generality |
| RewriteTheorems.OwnFilterOnlyIff | pkg/extensionserver/post_translate_modify.go:90-277 | A route runs exactly its own pool's filter, or none without a pool, if and only if before the call its name was not switched off, every picker in the chain was its own or switched off, and no pool of its filter name still to be added has another filter |
| RewriteTheorems.OwnPickerOnlyIff | pkg/extensionserver/post_translate_modify.go:90-277 | The name-level version, a step on the way |
| RewriteTheorems.SharedNameRunsForeign | pkg/extensionserver/post_translate_modify.go:239-277 | The failing family: a pool served beside the route that shares its filter name but not its filter runs for it too |
| RewriteTheorems.OwnFiltersOnlyAfterRewrite | pkg/extensionserver/post_translate_modify.go:84-164 | From a clean start, when no listener leads to two pools of one filter name and different filters: for every listener, chain and route it leads to, the picker filters that run are the route's own, or none if it has no pool |
| RewriteTheorems.FreshRewriteIff | pkg/extensionserver/post_translate_modify.go:84-164 | From an untouched translation the property holds of all chains and routes if and only if no listener leads to two such pools |
| RewriteTheorems.CleanAfterRewrite | pkg/extensionserver/post_translate_modify.go:90-164 | A clean start stays clean, so the property holds after every later rewrite |
| RewriteTheorems.RouteNamesKept | pkg/extensionserver/post_translate_modify.go:90-164 | The rewrite changes no listener's route configs and leaves chains fit for another rewrite |
| RewriteTheorems.UnservedListenerUnchanged | pkg/extensionserver/post_translate_modify.go:101-103 | Probes and listeners without pools keep their chains |
| RewriteTheorems.SecondRewriteChangesNothing | pkg/extensionserver/post_translate_modify.go:90-291 | A second rewrite changes no chain and no override, in any map orders and with repeated pools |
| RepeatedFilters.RepeatedFilterIff | pkg/extensionserver/post_translate_modify.go:126-226 | A rewritten chain repeats no filter name if and only if it repeated none before and no name it lacked is the picker name of two routes the listener leads to, by different route names or through different chains |
| RepeatedFilters.TwoRoutesRepeatFilter | pkg/extensionserver/post_translate_modify.go:126-226 | The failing input: two routes of one config with one pool give the chain that pool's filter name twice |
| PostTranslate.EppClustersComplete | pkg/extensionserver/post_translate_modify.go:70-82 | Every cluster that names a pool gets that pool's picker cluster |
| PostTranslate.EppClustersInOrder | pkg/extensionserver/post_translate_modify.go:70-82 | The added clusters are the picker clusters of the clusters that name a pool, one each, in ascending order of place, and no others |
| PostTranslate.BuildClusters | pkg/extensionserver/post_translate_modify.go:70-82 | One picker cluster per cluster with a pool, in order, repeats kept |
| PostTranslate.InsertedFiltersReachClusters | pkg/extensionserver/post_translate_modify.go:46-66 | If every route's reference is on some cluster, every inserted filter names a cluster of the result and dials its address and port |
| PostTranslate.PostTranslateModify | pkg/extensionserver/post_translate_modify.go:46-66 | The whole call: clusters appended, the rewrite done, referential integrity and the own-filter property delivered |
| PostTranslate.RewriteTwice | pkg/extensionserver/post_translate_modify.go:90-164 | Running the rewrite twice in place ends in the state after the first |
| EndToEnd.TagBackend | pkg/extensionserver/post_cluster_modify.go:27-136 | Both hooks on one backend leave the reference of the same pool on its route and its cluster |
| EndToEnd.BackendsGiveRefs | pkg/extensionserver/post_route_modify.go:48-93 | So a translation that carries the tagged backends has every route's reference on a cluster |
| EndToEnd.TaggedRouteKeepsFilter | pkg/extensionserver/post_translate_modify.go:349-390 | The filter of the pool read back from a tagged route is the filter of the pool it was tagged with, or none if a field holds a slash |
| EndToEnd.BackendsRunTheirPools | pkg/extensionserver/post_translate_modify.go:46-164 | Hooks, translation and rewrite together: every route of a backend runs exactly the filter of the InferencePool in its resources, and every inserted filter reaches a cluster |
| Cbor.HeadInverse | pkg/epp/scheduling/framework/plugins/prefix-cache-kvevents/kvcache/kvblock/token_processor.go:151-153 | Every head, of any length, reads back with the rest untouched |
| Cbor.ExtraInverse | pkg/epp/scheduling/framework/plugins/prefix-cache-kvevents/kvcache/kvblock/token_processor.go:129-132 | Null, text and identifier lists read back apart |
| Cbor.DecodeInverse | pkg/epp/scheduling/framework/plugins/prefix-cache-kvevents/kvcache/kvblock/token_processor.go:151-153 | The canonical encoding of [parent, tokens, extra] decodes to what was encoded (section 3.9 of RFC 7049) |
| Cbor.EncodeInjective | pkg/epp/scheduling/framework/plugins/prefix-cache-kvevents/kvcache/kvblock/token_processor.go:151-162 | The hashed bytes determine parent, tokens and extras |
| Cbor.HeadIsShortest | pkg/epp/scheduling/framework/plugins/prefix-cache-kvevents/kvcache/kvblock/token_processor.go:151-153 | A number takes 1, 2, 3, 5 or 9 bytes, the fewest that hold it, as canonical CBOR demands |
| Cbor.NumbersOfAppendixA | pkg/epp/scheduling/framework/plugins/prefix-cache-kvevents/kvcache/kvblock/token_processor.go:151-153 | The unsigned integers of appendix A of RFC 7049 encode to the bytes listed there |
| Cbor.TextsAndArraysOfAppendixA | pkg/epp/scheduling/framework/plugins/prefix-cache-kvevents/kvcache/kvblock/token_processor.go:151-153 | So do its texts and arrays |
| Cbor.PayloadExample | pkg/epp/scheduling/framework/plugins/prefix-cache-kvevents/kvcache/kvblock/token_processor.go:151-153 | A whole payload, byte by byte |
| BlockKeys.BlockCount | pkg/epp/scheduling/framework/plugins/prefix-cache-kvevents/kvcache/kvblock/token_processor.go:110-123 | There are floor(length / block size) blocks |
| BlockKeys.BlockIsWindow | pkg/epp/scheduling/framework/plugins/prefix-cache-kvevents/kvcache/kvblock/token_processor.go:113-120 | Block k is the k-th window of the tokens |
| BlockKeys.BlocksSpellPrefix | pkg/epp/scheduling/framework/plugins/prefix-cache-kvevents/kvcache/kvblock/token_processor.go:110-123 | The blocks put together are the longest block-aligned prefix of the tokens |
| BlockKeys.ChunkTokens | pkg/epp/scheduling/framework/plugins/prefix-cache-kvevents/kvcache/kvblock/token_processor.go:110-123 | The chunking loop gives those blocks |
| BlockKeys.ChainLinks | pkg/epp/scheduling/framework/plugins/prefix-cache-kvevents/kvcache/kvblock/token_processor.go:125-139 | Each key is the hash over the key before it, its block and its extras |
| BlockKeys.PrefixHashes | pkg/epp/scheduling/framework/plugins/prefix-cache-kvevents/kvcache/kvblock/token_processor.go:125-139 | The hashing loop fills in that chain |
| BlockKeys.TokensToKVBlockKeys | pkg/epp/scheduling/framework/plugins/prefix-cache-kvevents/kvcache/kvblock/token_processor.go:86-106 | Keys, no keys without a whole block, or an error on features that do not line up; a nil feature list means none anywhere |
| RequestKeyTheorems.RefusedIff | pkg/epp/scheduling/framework/plugins/prefix-cache-kvevents/kvcache/kvblock/token_processor.go:86-106 | A request is refused exactly when it has a whole block and features that are not one per block |
| RequestKeyTheorems.RequestKeysExact | pkg/epp/scheduling/framework/plugins/prefix-cache-kvevents/kvcache/kvblock/token_processor.go:86-139 | Every key of an accepted request is the hash over the key before it, its window of the tokens and the images the caller passed for that block; the first is taken over the parent key, or over the hash of the model name |
| RequestKeyTheorems.FirstKeyDeterminesStart | pkg/epp/scheduling/framework/plugins/prefix-cache-kvevents/kvcache/kvblock/token_processor.go:86-139 | Without a collision, first keys are equal exactly when parent key or root, first window and images are |
| RequestKeyTheorems.KeyDeterminesRequest | pkg/epp/scheduling/framework/plugins/prefix-cache-kvevents/kvcache/kvblock/token_processor.go:86-139 | Without collisions, one key in two accepted requests means the same model, depth and tokens, and on every block up to it the same image identifiers as passed by the callers, absent and nil alike and empty apart |
| BlockKeyTheorems.RootIsNoBlockKey | pkg/epp/scheduling/framework/plugins/prefix-cache-kvevents/kvcache/kvblock/token_processor.go:91-105 | Without collisions no request's root equals a block key |
| BlockKeyTheorems.KeyDeterminesPrefix | pkg/epp/scheduling/framework/plugins/prefix-cache-kvevents/kvcache/kvblock/token_processor.go:86-139 | Without collisions among the hashed payloads, one key in two requests means the same model, the same depth, the same whole token prefix and the same extras |
| BlockKeyTheorems.KeysAgreeIff | pkg/epp/scheduling/framework/plugins/prefix-cache-kvevents/kvcache/kvblock/token_processor.go:110-139 | Under one root the first n keys agree exactly when the first n blocks of tokens and extras do |
| BlockKeyTheorems.SharedKeysCountSharedBlocks | pkg/epp/scheduling/framework/plugins/prefix-cache-kvevents/kvcache/kvblock/token_processor.go:110-139 | Under one root the common prefix of two key lists has length floor(common tokens / block size) |
| BlockKeyTheorems.KeysContinue | pkg/epp/scheduling/framework/plugins/prefix-cache-kvevents/kvcache/kvblock/token_processor.go:125-139 | Keys of a whole-block front followed by the rest chained from its last key are the keys of the whole list |
| BlockKeyTheorems.ResumeIff | pkg/epp/scheduling/framework/plugins/prefix-cache-kvevents/kvcache/kvblock/token_processor.go:86-106 | Passing the last key as parent resumes exactly when that key is not the empty hash, no block follows, or the model's root is the empty hash |
| BlockKeyTheorems.EmptyLastKeyIsNotResumed | pkg/epp/scheduling/framework/plugins/prefix-cache-kvevents/kvcache/kvblock/token_processor.go:86-106 | The failing input: a database whose one-block chain ends in the empty hash, with the keys of the whole list and the different ones of the resumed chain |
| PromptHashes.PromptChainLength | pkg/epp/scheduling/framework/prefix_cache_plugin.go:64-82 | One hash per whole block of the prompt |
| PromptHashes.PromptChainTake | pkg/epp/scheduling/framework/prefix_cache_plugin.go:56-60 | Truncating the prompt to n blocks keeps the first n hashes |
| PromptHashes.HashBlocks | pkg/epp/scheduling/framework/prefix_cache_plugin.go:73-80 | The loop computes the chain |
| PromptHashes.HashPrompt | pkg/epp/scheduling/framework/prefix_cache_plugin.go:49-83 | A prefix of the untruncated chain of length min(whole blocks, limit), none for a prompt shorter than a block |
| PromptHashes.PromptLinks | pkg/epp/scheduling/framework/prefix_cache_plugin.go:67-80 | Hash k is taken over block k and the hash before it, the first over the hash of model and salt |
| PromptHashes.SharedHashIff | pkg/epp/scheduling/framework/prefix_cache_plugin.go:67-80 | Without collisions two requests share the hash at one depth exactly when model and salt, written together, and all blocks up to it are the same |
| PromptHashes.DepthsDiffer | pkg/epp/scheduling/framework/prefix_cache_plugin.go:67-80 | Hashes at different depths differ unless model and salt are as long as a block and a hash |
| PromptHashes.SpelledModelSharesHashes | pkg/epp/scheduling/framework/prefix_cache_plugin.go:67-80 | The exception for every hash function: a model name that spells a block and a hash shares the later hashes of another request |
| Datastore.RankKeyInjective | pkg/epp/datastore/datastore.go:82-85 | The key name-rank-index determines namespace, pod name and index, whatever the names |
| Datastore.PodMetrics.constructor | pkg/epp/datalayer/backend/metrics/pod_metrics.go:214-230 | A new endpoint has its loop running, started once |
| Datastore.PodMetrics.StartRefreshLoop | pkg/epp/datalayer/backend/metrics/pod_metrics.go:232-255 | However often it is called, one goroutine was started |
| Datastore.PodMetrics.StopRefreshLoop | pkg/epp/datalayer/backend/metrics/pod_metrics.go:292-297 | However often it is called, done was closed exactly once and the loop is stopped |
| Datastore.PodMetrics.UpdateMetadata | pkg/epp/datalayer/backend/metrics/pod_metrics.go:257-259 | The new metadata replaces the old |
| Datastore.Store.constructor | pkg/epp/datastore/datastore.go:42-55 | A new store is empty |
| Datastore.Store.PodUpdateOrAddIfNotExist | pkg/epp/datastore/datastore.go:71-109 | One endpoint per target port with the pod's latest metadata, existing endpoints reused; reports whether all were there; every loop runs exactly while its endpoint is stored |
| Datastore.Store.PodDelete | pkg/epp/datastore/datastore.go:112-124 | Exactly the pod's endpoints go, in any range order, and their loops stop |
| Datastore.Store.Release | pkg/epp/datastore/datastore.go:115-120 | The endpoint leaves the map and its loop stops |
| Datastore.Store.RangeDelete | pkg/epp/datastore/datastore.go:169-177 | Exactly the endpoints of active pods remain, although nested deletes remove entries the range has not reached |
| Datastore.Store.Resync | pkg/epp/datastore/datastore.go:152-177 | The store after a resync with a listing |
| Datastore.Store.StartPodMetricsLoop | pkg/epp/datastore/datastore.go:126-181 | Resyncs for the first pool or a changed selector, fails exactly on a failed listing it needed |
| Datastore.Store.Clear | pkg/epp/datastore/datastore.go:183-197 | The map is empty and every loop ever started is stopped |
| Datastore.Store.Reconcile | pkg/controllers/networking/inferencepool/pod_reconciler.go:67-88 | Gone, unready or unselected pods are removed, others stored; only a failed fetch is an error |
| Datastore.Store.Handle | pkg/controllers/networking/inferencepool/pod_reconciler.go:67-88 | Every event keeps each endpoint ever created either stored and running or removed and stopped |
| Datastore.Store.Run | pkg/epp/datastore/datastore.go:71-197 | The same over any sequence of reconciles, resyncs, deletes and clears, and the contents are what the events amount to |
| DatastoreTheorems.PodEventExact | pkg/controllers/networking/inferencepool/pod_reconciler.go:67-88 | In every reachable state, a fetched pod is stored on every port of the pool, with its own name, address, labels and port, exactly when it is ready, a pool is remembered and every pair of its selector is among the pod's labels; otherwise no endpoint of its name remains, and other pods' endpoints stay |
| DatastoreTheorems.PodGoneExact | pkg/controllers/networking/inferencepool/pod_reconciler.go:67-78 | A pod that is gone leaves no endpoint of its name and every other one, and a failed fetch changes nothing |
| DatastoreTheorems.PoolGoneForgets | pkg/epp/datastore/datastore.go:183-197 | Once the pool is gone nothing is stored, whatever pod events follow |
| DatastoreTheorems.ReachableConsistent | pkg/epp/datastore/datastore.go:79-106 | In every reachable state each endpoint is stored under a rank key of its own pod |
| DatastoreTheorems.ResyncKeys | pkg/epp/datastore/datastore.go:140-178 | The keys after a resync: one per ready pod and port, and old ones of the names of ready pods |
| DatastoreTheorems.ResyncExactIff | pkg/epp/datastore/datastore.go:140-178 | One endpoint per ready pod and port and nothing else, exactly when no stored endpoint of an active pod name lies outside the wanted ones |
| DatastoreTheorems.ResyncMetadata | pkg/epp/datastore/datastore.go:152-167 | Each such endpoint carries address, port and labels as listed |
| DatastoreTheorems.ReachableResyncIff | pkg/epp/datastore/datastore.go:71-181 | In every reachable state of one namespace, a resync leaves exactly one endpoint per ready pod and port if and only if no rank stored for a ready pod is at or above the port count |
| DatastoreTheorems.SurplusRankKept | pkg/epp/datastore/datastore.go:79-106 | The failing runs: ports cut while the selector changes leave the endpoint of the port that is gone |
| DatastoreTheorems.SurplusRankExample | pkg/epp/datastore/datastore.go:79-106 | One such run: two ports, then one, under another selector |
| DatastoreTheorems.ResyncRunsIff | pkg/epp/datastore/datastore.go:130-178 | After any run a pool event resyncs exactly when its listing succeeded and no pool is remembered, none yet or gone since, or the selector differs |
| DatastoreTheorems.FailedListingLosesResync | pkg/epp/datastore/datastore.go:137-150 | A failed listing is never made up for: after any run of events that keeps the selector, a pool event of that selector changes no endpoint |
| DatastoreTheorems.PortChangeDriftsIff | pkg/epp/datastore/datastore.go:137-141 | New ports under an unchanged selector: stored ranks match the pool's ports exactly when the ports are the old ones |
| DatastoreTheorems.ExactResyncMatchesPorts | pkg/epp/datastore/datastore.go:140-178 | After an exact resync every stored pod has one endpoint per port, on that port |
| MetricsClient.LabelsMatch | pkg/epp/datalayer/backend/metrics/pod_metrics.go:163-182 | True exactly when the sample carries every label asked for, in any map order |
| MetricsClient.NewestIndex | pkg/epp/datalayer/backend/metrics/pod_metrics.go:143-153 | The newest matching sample, the first of equal timestamps, negative timestamps never chosen; none exactly when there is no eligible one |
| MetricsClient.GetMetric | pkg/epp/datalayer/backend/metrics/pod_metrics.go:133-160 | Finds that sample; fails exactly when there is none |
| MetricsClient.LookupExact | pkg/epp/datalayer/backend/metrics/pod_metrics.go:133-182 | The sample found fits, carrying every label asked for and no negative time, none that fits is newer, and none before it is as new; nothing is found exactly when nothing fits |
| MetricsClient.Metrics.Clone | pkg/epp/datalayer/metrics.go:31-57 | A fresh snapshot with fresh maps and the same readings |
| MetricsClient.Metrics.ReadCacheLabels | pkg/epp/datalayer/backend/metrics/pod_metrics.go:113-126 | Each cache property is decided by the last label of its name, and unreadable labels are reported |
| MetricsClient.PromToPodMetrics | pkg/epp/datalayer/backend/metrics/pod_metrics.go:76-131 | A fresh snapshot, each reading from its own metric or kept; clean exactly when every configured metric was found and readable; the existing snapshot is not written |
| MetricsClient.MetricsCell.RefreshMetrics | pkg/epp/datalayer/backend/metrics/pod_metrics.go:265-280 | Publishes a fresh snapshot, or none when fetching fails; earlier snapshots are never written |
| MetricsClient.MetricsCell.UpdateMetrics | pkg/epp/datalayer/backend/metrics/pod_metrics.go:282-286 | The snapshot is stamped and published |
| MetricsClient.MetricsCell.RefreshLoop | pkg/epp/datalayer/backend/metrics/pod_metrics.go:232-255 | Over any run of the loop no snapshot that existed before is written |
| MetricsClient.GaugesShowLastSource | pkg/epp/datalayer/backend/metrics/pod_metrics.go:80-105 | After any run each gauge shows the newest sample of the last scrape that had one, whatever failed elsewhere |
| MetricsClient.CacheValueKept | pkg/epp/datalayer/backend/metrics/pod_metrics.go:113-126 | A cache property without a label keeps its value |
| MetricsClient.CacheValueLast | pkg/epp/datalayer/backend/metrics/pod_metrics.go:113-126 | The last label of the name decides, even if it cannot be read |
| MetricsClient.TruncateTowardsZero | pkg/epp/datalayer/backend/metrics/pod_metrics.go:80-100 | A gauge becomes the integer next to it towards zero |
| MetricsClient.AtoiOfItoa | pkg/epp/datalayer/backend/metrics/pod_metrics.go:113-126 | Label numbers are read back as printed within 64 bits, and as the nearest bound with an error beyond |
| MetricsClient.AtoiOfOther | pkg/epp/datalayer/backend/metrics/pod_metrics.go:113-126 | Text that is no number gives 0 and an error |
| MetricsClient.CacheExample | pkg/epp/datalayer/backend/metrics/pod_metrics.go:107-128 | The documented sample gives block size 16 and 1024 blocks |
| MetricsClient.CacheReadingIff | pkg/epp/datalayer/backend/metrics/pod_metrics.go:108-128 | In any scrape with a cache sample, each cache property is kept or is the number its last label spells exactly when there is no such label, it can be read, or its fallback is the old reading |
| MetricsClient.CleanScrapeLosesNothing | pkg/epp/datalayer/backend/metrics/pod_metrics.go:76-131 | A scrape reported clean keeps or reads every cache property |
| MetricsClient.UnreadableCacheLabelLosesReading | pkg/epp/datalayer/backend/metrics/pod_metrics.go:115-119 | An unreadable block size puts 0 in place of the last reading: a concrete label |
| XdsStream.ReachableWithinCapacity | pkg/xds/connection.go:105-116 | No channel ever holds more than its capacity, and the error send never blocks |
| XdsStream.RequestsConserved | pkg/xds/stream.go:22-98 | In every interleaving, received requests are the processed ones, then the one in the channel, then the one in hand |
| XdsStream.BacklogAtMostTwo | pkg/xds/stream.go:22-98 | Processing order is a prefix of receive order, at most two behind |
| XdsStream.DoneCalledOncePerPush | pkg/xds/connection.go:68-73 | Every push event taken has done called exactly once, in order, on success and on failure |
| XdsStream.WaitingRequestBlocksPushes | pkg/xds/stream.go:31-65 | While a request waits, at most one push starts, and after it the loop stays out of the second select |
| XdsStream.AtMostOnePushBeforeTake | pkg/xds/stream.go:31-65 | In every run, at most one push starts between a request entering the channel and being taken |
| XdsStream.OnePushCanOvertake | pkg/xds/stream.go:47-64 | The bound is tight: a run in which one push overtakes a waiting request |
| XdsProgress.ReturnedIff | pkg/xds/stream.go:31-65 | In every interleaving the loop has returned exactly when a stop was seen, a request failed, or a push failed and its done was called; a stop is seen only on a stopped connection |
| XdsProgress.SelectsAlternate | pkg/xds/stream.go:31-65 | In every interleaving the choices of the first and the second select take turns, starting with the first |
| XdsProgress.CatchesUpIff | pkg/xds/stream.go:31-98 | From every reachable state some continuation without a new request takes all requests received, exactly when none is behind already or nothing was dropped, stopped or failed |
| XdsProgress.PushCanStart | pkg/xds/stream.go:47-64 | On a stream neither broken nor stopped, any push can be the next to start |
| XdsProgress.RequestCanFail | pkg/xds/stream.go:31-56 | While a request is behind, the next one taken can fail, and the loop returns |
| XdsProgress.PushCanFail | pkg/xds/stream.go:57-61 | A push can fail, its done is called, and the loop returns |
| XdsProgress.StopCanBeSeen | pkg/xds/stream.go:42-64 | A stopped stream can return without another request or push |
| XdsProgress.ErrorIsNeverRead | pkg/xds/stream.go:72-82 | The error of a failed receive stays in its channel for good, and nothing is received after it |
| XdsProgress.ReceiveCanFail | pkg/xds/stream.go:72-82 | On a stream that is not broken a receive can fail and its error is reported |
| XdsProgress.CloseDropsTheRequestInHand | pkg/xds/stream.go:91-96 | A stream that closes while a request is in hand drops that request |
| MetricSpec.StringToMetricSpec | pkg/epp/datalayer/backend/metrics/metrics_spec.go:62-112 | The parser, with each of its error branches, against its specification |
| MetricSpec.ParseLabels | pkg/epp/datalayer/backend/metrics/metrics_spec.go:83-96 | The loop over label pairs: the last pair of a name wins, the first bad pair is the error |
| MetricSpec.ParsePairsStops | pkg/epp/datalayer/backend/metrics/metrics_spec.go:84-96 | Nothing after the first bad pair changes the outcome |
| MetricSpec.ParsedIsWellFormed | pkg/epp/datalayer/backend/metrics/metrics_spec.go:62-112 | Whatever string is accepted, names and values are trimmed, non-empty and free of the delimiters |
| MetricSpec.ParsePrint | pkg/epp/datalayer/backend/metrics/metrics_spec.go:62-112 | Every well-formed specification, printed in any label order, parses back to itself |
| MetricSpec.AcceptedHasNormalForm | pkg/epp/datalayer/backend/metrics/metrics_spec.go:62-112 | Parse, print in any order, parse again gives the first result |
| MetricGrammar.ParseExact | pkg/epp/datalayer/backend/metrics/metrics_spec.go:62-112 | The accepted language, said without the parser: the empty text, a bare name, or a name and comma-separated name=value pairs in braces, white space allowed around every name and value and at both ends, the last pair of a name deciding; each is read as what it spells, and every other text is refused |
| Text.TrimSpaceSplits | pkg/epp/datalayer/backend/metrics/metrics_spec.go:66 | Trimming takes away white space at both ends and nothing else |
| Text.TrimPadded | pkg/epp/datalayer/backend/metrics/metrics_spec.go:66 | And all of it |
| Text.ParseSigned | pkg/extensionserver/post_translate_modify.go:368 | A port may be written with a sign |
| Text.ParseLeast | pkg/extensionserver/post_translate_modify.go:368 | Exactly the 32-bit numbers are read |
| Text.ParseRefuses | pkg/extensionserver/post_translate_modify.go:368 | Whatever is read is an optional sign and digits, at least one |
| StrCase.CamelCase | pkg/util/strcase/camelcase.go:41-79 | The index loops compute the specification on every byte string |
| StrCase.CamelFixedIff | pkg/util/strcase/camelcase.go:41-79 | The conversion leaves a string alone exactly when it has no separators and every small letter follows a character that is not a digit |
| StrCase.CamelIsCamel | pkg/util/strcase/camelcase.go:41-79 | Whatever goes in, what comes out is camel case |
| StrCase.CamelIdempotent | pkg/util/strcase/camelcase.go:41-79 | Converting twice is converting once, on every byte string |
| StrCase.CamelCaseToKebabCase | pkg/util/strcase/camelcase.go:6-38 | The special names and the rune loop compute the specification on every byte string |
| StrCase.RuneWidthOfUtf8 | pkg/util/strcase/camelcase.go:26-35 | A step of the loop over a UTF-8 encoded scalar value is as wide as its encoding (section 3 of RFC 3629) |
| StrCase.WideRuneIsUtf8 | pkg/util/strcase/camelcase.go:26-35 | A step of several bytes is over such an encoding, so any other byte is a step of its own |
| StrCase.AsciiRunes | pkg/util/strcase/camelcase.go:26-35 | Every ASCII string steps byte by byte |
| StrCase.KebabRoundTripIff | pkg/util/strcase/camelcase.go:6-79 | Kebab case converts back exactly for camel-case names off the special list whose runes are single bytes |
| StrCase.KebabInjective | pkg/util/strcase/camelcase.go:6-38 | On those names kebab case loses nothing |
| StrCase.SpecialNamesChange | pkg/util/strcase/camelcase.go:8-23 | None of the special names converts back |
| CaseLetters.KebabKeepsLetters | pkg/util/strcase/camelcase.go:6-38 | Dashes aside, kebab case spells the name in small letters, special names included; with wide runes it spells the first byte of each |
| CaseLetters.CamelKeepsLetters | pkg/util/strcase/camelcase.go:41-79 | Separators and capitals aside, camel case keeps every byte, behind an X for a leading separator |
| CaseLetters.SpecialSpellings | pkg/util/strcase/camelcase.go:8-23 | The special names and their spellings |
| Scheduler.RunFilterPlugins | pkg/llmrouter/scheduler/scheduler.go:80-98 | Succeeds exactly when no filter leaves nothing, with what the last one leaves |
| Scheduler.SurvivesEveryStage | pkg/llmrouter/scheduler/scheduler.go:80-98 | A pod left at the end was there at every stage before |
| Scheduler.WrapSum | pkg/llmrouter/scheduler/scheduler.go:116-125 | Wrapping each 64-bit addition is wrapping the sum |
| Scheduler.AddScores | pkg/llmrouter/scheduler/scheduler.go:116-125 | One plugin's scores are added once each, in any map order |
| Scheduler.RunScorePlugins | pkg/llmrouter/scheduler/scheduler.go:100-129 | The wrapped weighted sum over all plugins that scored the pod; fails exactly when a plugin has no pods to score |
| Scheduler.TotalsAreExact | pkg/llmrouter/scheduler/scheduler.go:28-33 | On the documented scale no total wraps until the weights reach 2^63 / 100 |
| Scheduler.RaisedScore | pkg/llmrouter/scheduler/scheduler.go:116-125 | Raising one score of a pod raises its total by the raise times the weight, so under a positive weight a better score never lowers a total |
| Scheduler.SingleScorer | pkg/llmrouter/scheduler/scheduler.go:116-150 | A single scorer of weight 1: its scores are the totals and the best pods are its best |
| Scheduler.SortByScore | pkg/llmrouter/scheduler/scheduler.go:137-139 | A permutation in descending order, equal scores in any order |
| Scheduler.TopNPodInfos | pkg/llmrouter/scheduler/scheduler.go:131-150 | min(n, scored) different pods in descending order, none better left out, for any map order and unstable sort |
| Scheduler.Schedule | pkg/llmrouter/scheduler/scheduler.go:55-73 | Failure leaves the context alone; success stores a top five of what the filters left |
| Scheduler.BestPods | pkg/llmrouter/scheduler/scheduler.go:55-150 | Given the stages the filters go through and the running sums of scores times weights, both written out: min(5, number scored) different pods by descending sum, no scored pod left out above a chosen one, each a survivor of every stage; scorers may leave pods out |
| Scheduler.NobodyChosenIff | pkg/llmrouter/scheduler/scheduler.go:68-70 | Nobody is chosen exactly when no scorer scored anyone |
| Scheduler.TopScoresAreDetermined | pkg/llmrouter/scheduler/scheduler.go:131-150 | Map order and sorting decide only between equal scores |
| Scheduler.TopIsUnique | pkg/llmrouter/scheduler/scheduler.go:131-150 | Without equal scores there is one outcome |
| QueueScore.QueueBounds | pkg/epp/scheduling/framework/least_waiting_request_plugin.go:10-21 | The running minimum and maximum end at the least and greatest queue |
| QueueScore.ExtremesBound | pkg/epp/scheduling/framework/least_waiting_request_plugin.go:10-21 | No queue lies outside the two |
| QueueScore.ExtremesReached | pkg/epp/scheduling/framework/least_waiting_request_plugin.go:10-21 | Both are queues of given pods |
| QueueScore.Score | pkg/epp/scheduling/framework/least_waiting_request_plugin.go:9-35 | One score per pod, its queue normalised between the two |
| QueueScore.ScoreRange | pkg/epp/scheduling/framework/least_waiting_request_plugin.go:23-34 | Scores lie in [0, 1]; 1 exactly at the shortest queue; 0 exactly at the longest when queues differ |
| QueueScore.ScoreReversesOrder | pkg/epp/scheduling/framework/least_running_request_plugin.go:22-36 | One pod scores above another exactly when its queue is shorter |
| QueueScore.ScoreDifference | pkg/epp/scheduling/framework/least_waiting_request_plugin.go:23-34 | Scores are evenly spread: score differences times the spread of queues are queue differences |
| QueueScore.ScoreRescaled | pkg/epp/scheduling/framework/least_running_request_plugin.go:8-37 | Shifting every queue, or measuring in another unit, changes no score |
| QueueScore.CombinedRespectsLoad | pkg/epp/scheduling/framework/least_running_request_plugin.go:8-37 | Under non-negative weights a pod no less loaded on both metrics never scores higher, and scores lower when more loaded on a weighted one |

## Left out

- HTTP, gRPC, Kubernetes and Envoy clients, informers, the command line, bootstrap, request handlers and the Python router: input and output over libraries that are not part of this model.
- Protobuf marshalling: `toAny` and `UnmarshalTo` are taken as total and faithful, and a connection manager lives directly inside its filter; a message of another type is a case of its own.
- JSON parsing of extension resources and the Kubernetes converter: what they make of the bytes is part of the resource.
- The translation between the hooks and the rewrite: hooks work on messages of their own calls, and `EndToEnd` takes the translated routes and clusters as carrying the metadata the hooks left.
- Constants of picker clusters and filters (timeouts, TLS, processing modes of headers and trailers, load balancing) beyond name, address, port, authority, body mode and override flag.
- Host rewriting on a route whose action is missing, and nil requests: `PostRouteModify` and `PostClusterModify` start from a route or cluster that is there.
- Slice backing arrays: two connection managers never share one, since each is unmarshalled afresh; filter lists are values.
- Empty HTTP filter lists: the rewrite requires a last filter to keep, as the original would panic without one.
- Filter chains shared between two listeners: every listener owns its chains, as in a protobuf message.
- The hash functions FNV-64a and xxhash, and the byte form of a hash fed back into xxhash: abstract functions.
- PromptHashes.HashPrompt: does not claim that two pairs of model and cache salt give different seeds, because the code writes them one after the other without a delimiter; and it requires a positive block size, since with 0 the original loop never ends.
- Construction of the token database, which computes the initial hash and rejects a block size of 0: `blockSize > 0` is required instead.
- Concurrency inside the store: each operation is atomic, so races between the two reconcilers are not covered; cancellation of the parent context is not modelled either.
- Keeping several pools per store and the pool lookup by name: half-done in the code.
- Readiness of a pod and the label selector of a listing: a pod carries a ready flag, and a listing is whatever the API returned.
- The branch of the stream loop that returns a receive error: nothing closes `reqChan`, so it is never taken. When `initialized` is closed is not shown, so it is a step that may happen.
- Text parsing of a metrics response and its HTTP request: a scrape is a map of families, or nothing when fetching failed.
- The LoRA metric of a mapping, which the code never reads.
- MetricsClient.PromToPodMetrics: does not model the overflow of a gauge too large for an integer, whose result Go leaves to the machine, nor NaN gauges.
- The texts of error messages, and logging.
- QueueScore.Score: uses exact reals, so floating-point rounding is not modelled; the running-queue plugin computes the same scores, its additional unused quotient aside.
- Negative queue lengths: a length is a natural number of the machine's range, so the spread does not overflow.
- The random scorer, the longest-prefix match, the prefill-decode branch, post hooks and the scheduler stubs.
- Generated kind tables, schema collections, the workload reconcilers and the Envoy Gateway translator: finite tables or API construction.
