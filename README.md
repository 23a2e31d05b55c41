# EBI cross-references, search post-processing and reply trimming, in Dafny

This project models the data logic of a set of MCP tool handlers for EBI web
services (EBI Search, PDBe, MGnify, ChEBI, UniProt/UniParc and the EBI Proteins
API), and proves properties of that model. The core is the EBI Search
cross-reference subsystem, which has three parts:

- discovery of the target domains of a source domain (`XrefDomain`);
- the all-domains aggregator (`XrefAll`). It fans out over at most ten target
  domains, groups the ids it receives per target as sets, truncates each group
  to three ids, ranks the groups (priority domains first, then larger groups)
  and returns at most three of them;
- the targeted resolver (`XrefTargeted`). It validates its arguments, keeps a
  process-wide cache of allowed target domains per source domain (a `class`
  whose field the method updates), refuses unsupported targets before
  fetching, and maps the reply entries one to one.

Around it are the search-all tree post-processing (`SearchAll`: pruning,
zero-hit removal, preorder flattening) and the trimming helpers:

- the recursive JSON cleaners (`Cleaners`): one parametrised filter-then-slice
  cleaner for MGnify super-studies and PDBe validation, and ChEBI's
  slice-then-map cleaner;
- the MGnify super-studies handler (`SuperStudies`);
- the PDBe validation handler (`Validation`);
- the PISA interface summary (`Pisa`);
- the UniParc handler (`UniParc`);
- the proteomics handler (`Proteomics`).

JavaScript values are `Js.Json`. Objects are ordered field lists, in
`Object.entries` order, and numbers are integers. A thrown `Error` is
`Js.Result.Err(message)`. Each remote call is a `Net.Request` answered by an
oracle `net: Request -> Reply`. `XrefAll.Run`, `XrefTargeted.TargetedResolver.Run`, `SearchAll.Run`,
`UniParc.Run` and `Proteomics.Run` also report the requests they send, so "no
fetch happens" can be stated for them. `SuperStudies.Run`, `Validation.Run` and
`Pisa.Run` return only their result: each of them consults the oracle once,
for the single request it builds, and their argument errors are returned
before that call. Loops the source runs step by step are
methods proved equal to a specification function: the fan-out loop, the
`flattenTree` accumulator, the cleaners' object-building loops, `buildQuery`
and the cache update. Expression-only code is functions.

## Model

| member | source | states |
|---|---|---|
| XrefDomain.CatalogEntries | src/handlers/search/handlers/xref_domain.ts:7-41 | a missing domain throws "domain is required"; the list is returned only after an ok reply |
| XrefDomain.IdStrings | src/handlers/search/handlers/xref_domain.ts:48 | `targetDomains` is `String(d.id)` of each catalog entry, in order, with the same length; it fails exactly when an entry is null |
| XrefDomain.Descriptors | dist/handlers/xref_domain.js:27-30 | one `{domain: String(d.id), description}` object per catalog entry, in order; it fails exactly on a null entry |
| XrefDomain.Discover | src/handlers/search/handlers/xref_domain.ts:7-49 | the discovery handler; specified by `XrefDomain.DiscoverSucceedsExactly`, `XrefDomain.DiscoverRefusals` and `XrefDomain.DiscoverCatalogOf` |
| XrefDomain.DiscoverDescriptors | dist/handlers/xref_domain.js:3-31 | the compiled discovery that xref_targeted imports: the same refusals, with the catalog entries as `XrefDomain.Descriptors`; specified by `XrefTargeted.AllowedTargetsOfCatalog` and `XrefTargeted.DescriptorDomain` |
| XrefDomain.DiscoverSucceedsExactly | src/handlers/search/handlers/xref_domain.ts:7-49 | discovery succeeds if and only if the domain is given and the reply is ok, JSON, parsable and holds a `domains` array; it then echoes the source domain |
| XrefDomain.DiscoverRefusals | src/handlers/search/handlers/xref_domain.ts:21-41 | a not-ok reply, a non-JSON content type, an unparsable body or a non-array `domains` each make discovery fail |
| XrefDomain.DiscoverCatalogOf | src/handlers/search/handlers/xref_domain.ts:46-49 | round trip: discovery over a catalog listing `ids` returns exactly `ids` |
| XrefAll.Discovered | src/handlers/search/handlers/xref_all.ts:31-34 | the discovered targets read as the discovery returns them: one string per target domain, in order |
| XrefAll.DiscoveredAsWritten | src/handlers/search/handlers/xref_all.ts:31-34 | the discovered targets as the source reads them (`t.domain` of a string): as many values as targets |
| XrefAll.NonPriorityStrings | src/handlers/search/handlers/xref_all.ts:50-53 | the discovered strings that are not priority domains: no priority domain and no non-string kept, every such string kept |
| XrefAll.TargetsToFetchShape | src/handlers/search/handlers/xref_all.ts:48-57 | the fetch list is the three priority domains in order, then discovered non-priority strings, at most ten in all |
| XrefAll.TargetsToFetch | src/handlers/search/handlers/xref_all.ts:46-60 | the fetch list; specified by `XrefAll.TargetsToFetchShape` and `XrefAll.DiscoveredTargetsFetched` |
| XrefAll.AsWrittenFetchesOnlyPriority | src/handlers/search/handlers/xref_all.ts:31-57 | as written, the fetch list is exactly the priority domains, whatever was discovered |
| XrefAll.NoStringsNoCandidates | src/handlers/search/handlers/xref_all.ts:50-53 | a discovered list without strings adds no candidate |
| XrefAll.AsWrittenSkipsUniprot | src/handlers/search/handlers/xref_all.ts:31-57 | a catalog listing only "uniprot" never gets "uniprot" fetched as written, but does when read as intended |
| XrefAll.DiscoveredTargetsFetched | src/handlers/search/handlers/xref_all.ts:48-57 | read as intended, every discovered target is fetched when at most seven non-priority ones exist |
| XrefAll.RefIds | src/handlers/search/handlers/xref_all.ts:79-83 | the ids read from a reference list; the scan is complete exactly when no reference is null, and it reaches the loop body (creating the group) exactly when the list is not empty |
| XrefAll.RefusedReplyContributesNothing | src/handlers/search/handlers/xref_all.ts:72-88 | a not-ok, unparsable or `entries`-less reply contributes no id and reaches no reference |
| XrefAll.ReplyScan | src/handlers/search/handlers/xref_all.ts:71-88 | the ids and references one target's fetch yields: none for a rejected, not-ok, unparsable or `entries`-less reply (`XrefAll.RefusedReplyContributesNothing`); an id is only ever read when a reference was reached |
| XrefAll.NullReferenceReply | src/handlers/search/handlers/xref_all.ts:78-86 | an ok reply whose only reference is null reaches the loop body, so the group is created, and then throws before adding an id |
| XrefAll.AddId | src/handlers/search/handlers/xref_all.ts:80-83 | adding an id never removes a group |
| XrefAll.FetchRequests | src/handlers/search/handlers/xref_all.ts:64-69 | one cross-reference query per target |
| XrefAll.AddEach | src/handlers/search/handlers/xref_all.ts:78-85 | the id loop of one target equals adding its ids one by one |
| XrefAll.FanOut | src/handlers/search/handlers/xref_all.ts:62-89 | the fan-out loop builds the groups of `Gathered` and sends one query per target, in order; a target's group is created when its first reference is reached, before that reference's id is read |
| XrefAll.Gathered | src/handlers/search/handlers/xref_all.ts:62-89 | the grouping after the fan-out, as a function of the replies; specified by `XrefAll.GatheredSpec`, `XrefAll.GatheredIds` and `XrefAll.StepEffect` |
| XrefAll.IdsForMembership | src/handlers/search/handlers/xref_all.ts:78-84 | in a well-formed grouping, a target with ids has a group, and its ids are distinct |
| XrefAll.AddIdEffect | src/handlers/search/handlers/xref_all.ts:80-83 | `grouped.get(t).add(id)` keeps the grouping well formed, touches only `t`'s group, and adds `id` with set semantics |
| XrefAll.AddAllEffect | src/handlers/search/handlers/xref_all.ts:78-85 | adding a list of ids is the set union of the list into `t`'s group, other groups unchanged |
| XrefAll.StepEffect | src/handlers/search/handlers/xref_all.ts:78-85 | one pass of the loop body keeps the grouping well formed, changes only the fetched target's group (set union of its ids), and that group exists afterwards exactly when it existed or a reference was reached |
| XrefAll.Step | src/handlers/search/handlers/xref_all.ts:78-85 | one pass of the loop body; specified by `XrefAll.StepEffect` |
| XrefAll.GatheredWellFormed | src/handlers/search/handlers/xref_all.ts:62-89 | after the fan-out no two groups share a target, no group holds an id twice, and every group is for a fetched target |
| XrefAll.GatheredIds | src/handlers/search/handlers/xref_all.ts:62-89 | a target's group holds the distinct ids of all its fetches, in first-seen order, and exists exactly when one of its replies reached a reference |
| XrefAll.GatheredSpec | src/handlers/search/handlers/xref_all.ts:62-89 | the grouping after the fan-out, stated without the loop: well formed, targets fetched, ids deduplicated, a group exists if and only if a reply of that target reached a reference, and every target that received an id has one |
| XrefAll.FanOutIsolation | src/handlers/search/handlers/xref_all.ts:71-88 | whatever one target's fetch returns, the other targets' groups are the same |
| XrefAll.FailedTargetSkipped | src/handlers/search/handlers/xref_all.ts:72-88 | a target whose fetch fails, or whose reply reaches no reference, gets no group |
| XrefAll.EmptyGroupKept | src/handlers/search/handlers/xref_all.ts:78-86 | a fetched target whose reply reaches a null reference first keeps an empty group: the `catch` swallows the error after the group was created |
| XrefAll.Truncated | src/handlers/search/handlers/xref_all.ts:94-101 | one cross-reference per group with the first three of its ids |
| XrefAll.PriorityIndex | src/handlers/search/handlers/xref_all.ts:114-115 | `indexOf` in the priority list: -1 exactly for a non-priority domain, otherwise its position |
| XrefAll.CompareIsPreorder | src/handlers/search/handlers/xref_all.ts:113-122 | the comparator is antisymmetric and transitive |
| XrefAll.Compare | src/handlers/search/handlers/xref_all.ts:113-122 | the comparator: priority rank first (999 for a non-priority target), then more entries first; specified by `XrefAll.CompareIsPreorder`, `XrefAll.RankSortSpec` and `XrefAll.RankedOrder` |
| XrefAll.Ties | src/handlers/search/handlers/xref_all.ts:113-122 | the elements that the comparator ranks equal to a given one, drawn from the list |
| XrefAll.RankSortStable | src/handlers/search/handlers/xref_all.ts:113-122 | the sort is stable: for every rank, the elements of that rank keep their input order |
| XrefAll.RankSort | src/handlers/search/handlers/xref_all.ts:113-122 | the ranking sort; specified by `XrefAll.RankSortSpec`, `XrefAll.RankSortStable` and `XrefAll.RankedOrder` |
| XrefAll.RankSortSpec | src/handlers/search/handlers/xref_all.ts:113-122 | the sort returns a permutation of its input ordered by the comparator |
| XrefAll.RankedOrder | src/handlers/search/handlers/xref_all.ts:112-122 | after ranking, priority domains come first in list order and larger non-priority groups come before smaller ones |
| XrefAll.TotalEntriesBound | src/handlers/search/handlers/xref_all.ts:127-130 | the summed count is at most the per-group bound times the number of groups |
| XrefAll.Run | src/handlers/search/handlers/xref_all.ts:18-143 | the handler returns the `Aggregate` result and sends the discovery then the per-target queries; it reads the discovered targets as the strings the discovery returns (the corrected reading of the first Finding), not `t.domain` |
| XrefAll.Aggregate | src/handlers/search/handlers/xref_all.ts:18-143 | the handler as a function of the replies; specified by `XrefAll.AggregateEarlyExits`, `XrefAll.NothingReachedMinimal` and `XrefAll.AggregatedResultSpec` |
| XrefAll.AggregateEarlyExits | src/handlers/search/handlers/xref_all.ts:21-43 | a missing domain or entry id throws before any request; an empty discovery gives the minimal result; a failed discovery throws |
| XrefAll.NothingReachedMinimal | src/handlers/search/handlers/xref_all.ts:71-110 | when no fetched reply reaches a reference (all failed, or none listed one), the result is the same minimal shape as for an empty discovery |
| XrefAll.SentBound | src/handlers/search/handlers/xref_all.ts:57-72 | at most one discovery and ten target fetches are sent |
| XrefAll.ReturnedSpec | src/handlers/search/handlers/xref_all.ts:94-130 | one to three ranked groups with distinct targets, each of at most three distinct ids of its group; the count is their sum, at most nine |
| XrefAll.Returned | src/handlers/search/handlers/xref_all.ts:94-125 | the truncated, ranked groups cut to three; specified by `XrefAll.ReturnedSpec` and `XrefAll.AggregatedResultSpec` |
| XrefAll.AggregatedResultSpec | src/handlers/search/handlers/xref_all.ts:103-141 | an aggregated result holds one to three ranked groups for fetched targets whose replies reached a reference, each with at most three distinct ids received for that target (none when the first reference read threw), and a count equal to the summed entries, at most nine |
| XrefAll.DistinctTargetsSurviveSort | src/handlers/search/handlers/xref_all.ts:94-125 | ranking keeps the returned target domains distinct |
| XrefTargeted.JoinedIds | src/handlers/xref_targeted.ts:70-72 | a single id goes as is; an array is joined with "," |
| XrefTargeted.MapTargets | src/handlers/xref_targeted.ts:116-119 | one `{id: String(x.id), domain: String(x.source)}` per reference, in order; fails exactly on a null reference |
| XrefTargeted.MapEntry | src/handlers/xref_targeted.ts:114-120 | an entry maps to `String(e.id)` and all its references mapped in order |
| XrefTargeted.MapEntries | src/handlers/xref_targeted.ts:114-121 | one item per reply entry, in order, each the mapping of that entry |
| XrefTargeted.PayloadOf | src/handlers/xref_targeted.ts:82-121 | a rejected fetch is its reason; a not-ok reply throws "EBI cross-reference search failed (`<status>`): " and the first 200 characters of the text; a non-JSON or unparsable reply and a missing `entries` array throw their messages; with an `entries` array the payload counts the entries and maps each of them, or fails with the first null entry |
| XrefTargeted.TargetedResolver.constructor | src/handlers/xref_targeted.ts:7 | the cache starts empty |
| XrefTargeted.TargetedResolver.Run | src/handlers/xref_targeted.ts:10-132 | one call: its result, the cache after it and the requests sent are those of `Resolve` on the cache before it |
| XrefTargeted.Resolve | src/handlers/xref_targeted.ts:10-132 | one call against a given cache; specified by `XrefTargeted.MissingArgumentRejected`, `XrefTargeted.UniprotGuard`, `XrefTargeted.CacheHitSkipsDiscovery`, `XrefTargeted.CacheMonotone`, `XrefTargeted.FailedDiscoveryLeavesCache`, `XrefTargeted.UnsupportedTargetNotFetched`, `XrefTargeted.CheckedSuccess` and `XrefTargeted.SuccessWasChecked` |
| XrefTargeted.MissingArgumentRejected | src/handlers/xref_targeted.ts:20-22 | a missing domain, entry ids or target throws before anything is sent or cached |
| XrefTargeted.UniprotGuard | src/handlers/xref_targeted.ts:27-36 | a single UniProt id containing "_" throws before discovery; an array of ids is not checked and is sent joined |
| XrefTargeted.UniprotEntryName | src/handlers/xref_targeted.ts:27-36 | the UniProt guard's condition; specified by `XrefTargeted.UniprotGuard` |
| XrefTargeted.CacheHitSkipsDiscovery | src/handlers/xref_targeted.ts:40-57 | a cached domain is not rediscovered and its cache is left unchanged |
| XrefTargeted.CacheMonotone | src/handlers/xref_targeted.ts:40-59 | the cache only grows: existing entries are never removed or overwritten |
| XrefTargeted.FailedDiscoveryLeavesCache | src/handlers/xref_targeted.ts:40-57 | a failed discovery throws its own error, sends only the catalog query and leaves the cache unchanged |
| XrefTargeted.UnsupportedTargetNotFetched | src/handlers/xref_targeted.ts:61-65 | a target outside the allowed set throws "Unsupported EBISearch cross-reference" and the targeted query is never sent |
| XrefTargeted.CheckedSuccess | src/handlers/xref_targeted.ts:59-82 | a successful check sends exactly the targeted query, for an allowed target |
| XrefTargeted.SuccessWasChecked | src/handlers/xref_targeted.ts:20-82 | a successful call had all arguments, passed the UniProt guard, has the target in the cached set and sent the targeted query last |
| XrefTargeted.SecondCallNoDiscovery | src/handlers/xref_targeted.ts:40-59 | once a call has cached a domain, a later call for it does no discovery |
| XrefTargeted.AllowedTargetsMember | src/handlers/xref_targeted.ts:52-56 | a target is allowed exactly when some discovered descriptor has it as its `domain` |
| XrefTargeted.AllowedTargetsOfCatalog | src/handlers/xref_targeted.ts:52-56 | the allowed set built from a catalog is exactly the set of `String(d.id)` of its entries |
| XrefTargeted.DescriptorDomain | dist/handlers/xref_domain.js:27-30 | the `domain` of descriptor i is `String(id)` of catalog entry i |
| XrefTargeted.PayloadSpec | src/handlers/xref_targeted.ts:110-121 | `count` is the number of entries, with one item per entry carrying all its references in order |
| XrefTargeted.References | src/handlers/xref_targeted.ts:116-119 | `e.references ?? []`, which must be an array; specified by `XrefTargeted.PayloadSpec` |
| SearchAll.RemoveZeroHits | src/handlers/search/handlers/search_all.ts:6-16 | null exactly for a node whose `hitCount` is 0, otherwise a tree with no zero-hit node; a null node throws |
| SearchAll.RemoveZeroHitsKeeps | src/handlers/search/handlers/search_all.ts:6-16 | a node that is not dropped comes back truthy exactly when it was; a node without a `subdomains` array comes back unchanged; otherwise every key but `subdomains` is unchanged and `subdomains` holds the cleaned children |
| SearchAll.RemoveAllZeroHits | src/handlers/search/handlers/search_all.ts:10-12 | the kept children are no more than the input and contain no zero-hit node |
| SearchAll.RemoveAllZeroHitsOk | src/handlers/search/handlers/search_all.ts:10-12 | the list is cleaned without throwing exactly when every child is |
| SearchAll.RemoveAllZeroHitsFilter | src/handlers/search/handlers/search_all.ts:10-12 | the cleaned list is `map(removeZeroHits)` followed by the truthy filter: exactly the truthy cleaned children, in order |
| SearchAll.Truthy | src/handlers/search/handlers/search_all.ts:12 | `filter(Boolean)`: every kept value is truthy and from the input, and every truthy input value is kept |
| SearchAll.PruneTree | src/handlers/search/handlers/search_all.ts:21-33 | an object no deeper than `depth` whose keys other than `subdomains` are the node's, with no `subdomains` key at depth ≤ 0 or when the node has no `subdomains` array; a null node throws |
| SearchAll.PruneTreeKeeps | src/handlers/search/handlers/search_all.ts:27-32 | above depth 0 a node with a `subdomains` array keeps it, holding its children pruned at `depth - 1` |
| SearchAll.PruneAll | src/handlers/search/handlers/search_all.ts:29-31 | every pruned child is no deeper than `depth`, and there are as many as children |
| SearchAll.PruneAllOk | src/handlers/search/handlers/search_all.ts:29-31 | the children are pruned without throwing exactly when each one is |
| SearchAll.PruneAllElements | src/handlers/search/handlers/search_all.ts:29-31 | the children are pruned without throwing exactly when each is, and then element `i` is child `i` pruned |
| SearchAll.Preorder | src/handlers/search/handlers/search_all.ts:38-51 | the entries of a node's traversal start with the node's own `{id, hitCount}`; a null node throws |
| SearchAll.PreorderAll | src/handlers/search/handlers/search_all.ts:44-48 | the traversal of a list has at least one entry per node |
| SearchAll.FlattenTree | src/handlers/search/handlers/search_all.ts:38-51 | the recursive accumulating traversal appends exactly the preorder entries of `node` to `out` |
| SearchAll.PreorderUnfold | src/handlers/search/handlers/search_all.ts:42-48 | a node's traversal is its entry followed by its children's traversals |
| SearchAll.PreorderAllStep | src/handlers/search/handlers/search_all.ts:45-47 | one more child extends the traversal by that child's subtree |
| SearchAll.PreorderAllPrefixErr | src/handlers/search/handlers/search_all.ts:45-47 | an error in some child is an error of the whole traversal |
| SearchAll.FlattenNoZeroHits | src/handlers/search/handlers/search_all.ts:6-51 | flattening a tree without zero-hit nodes lists no zero-hit entry |
| SearchAll.FlattenAllNoZeroHits | src/handlers/search/handlers/search_all.ts:6-51 | the same for a list of trees |
| SearchAll.Parsed | src/handlers/search/handlers/search_all.ts:82-100 | a rejected fetch is its reason; a not-ok reply throws "EBI Search failed (`<status>`)"; an ok non-JSON reply throws "EBI Search returned non-JSON response: " and the first 200 characters of the text; an unparsable body throws; a parsed body gives itself and its `domains` array, throws a TypeError when null, and otherwise "Unexpected API response format: domains not found" |
| SearchAll.Search | src/handlers/search/handlers/search_all.ts:54-135 | a missing query throws "query is required"; the other answers are stated by `SearchAll.SearchAnswers` |
| SearchAll.SearchAnswers | src/handlers/search/handlers/search_all.ts:82-135 | with a query: a failed reply check is the handler's error; an ok JSON reply with a `domains` array answers the query, `hitCount ?? null`, the first domain's `id ?? "allebi"` and `hitCount ?? data.hitCount`, and the processed hierarchy, or fails with the hierarchy's error |
| SearchAll.Respond | src/handlers/search/handlers/search_all.ts:82-135 | the handler after the fetch; specified by `SearchAll.SearchAnswers` |
| SearchAll.PayloadOf | src/handlers/search/handlers/search_all.ts:123-135 | the payload built from the parsed body; specified by `SearchAll.SearchAnswers` |
| SearchAll.FlattenAll | src/handlers/search/handlers/search_all.ts:118-120 | the `flatMap` over `flattenTree` is the preorder traversal of the list |
| SearchAll.ProcessHierarchy | src/handlers/search/handlers/search_all.ts:104-121 | the imperative hierarchy steps compute `Processed` |
| SearchAll.Processed | src/handlers/search/handlers/search_all.ts:104-121 | the processed hierarchy; specified by `SearchAll.HierarchyApplied`, `SearchAll.NonArraySubdomainsThrow` and `SearchAll.HierarchySpec` |
| SearchAll.Run | src/handlers/search/handlers/search_all.ts:54-135 | the handler returns `Search` and sends one request unless the query is missing |
| SearchAll.HierarchyApplied | src/handlers/search/handlers/search_all.ts:61-121 | with `includeHierarchy` set and a `subdomains` array on the first domain, the payload's `subdomains` is the hierarchy processed at `maxDepth`, which defaults to 2; without a truthy `subdomains` there is none |
| SearchAll.NonArraySubdomainsThrow | src/handlers/search/handlers/search_all.ts:106-109 | a requested hierarchy whose `subdomains` is truthy but not an array throws the `map is not a function` TypeError |
| SearchAll.DefaultsApplied | src/handlers/search/handlers/search_all.ts:61-135 | without `includeHierarchy` there are no `subdomains`; size defaults to 10 and start to 0; an empty domain list reports "allebi" |
| SearchAll.HierarchySpec | src/handlers/search/handlers/search_all.ts:106-121 | the hierarchy is pruned to `maxDepth` before zero-hit removal and flattening, and lists no zero-hit entry |
| SearchAll.Hierarchy | src/handlers/search/handlers/search_all.ts:106-121 | prune, remove zero hits, flatten; specified by `SearchAll.HierarchyApplied` and `SearchAll.HierarchySpec` |
| Cleaners.Limit | src/handlers/PDBe/handlers/validation.ts:39-40 | the array limit is 1 exactly when residue-heavy below the top level, otherwise 3 |
| Cleaners.Clean | src/handlers/MGnify/handlers/super-studies.ts:38-63 | undefined and "" become null; null, booleans, numbers and other strings are returned unchanged; never undefined |
| Cleaners.CleanItems | src/handlers/MGnify/handlers/super-studies.ts:41-47 | dropping nulls never lengthens the list |
| Cleaners.CleanIsClean | src/handlers/MGnify/handlers/super-studies.ts:38-63 | output has no undefined, no empty container, no null in arrays, no dropped key, no `__proto__` key and arrays within their limit |
| Cleaners.CleanItemsClean | src/handlers/MGnify/handlers/super-studies.ts:41-47 | cleaned array elements are clean and not null |
| Cleaners.CleanFieldsClean | src/handlers/MGnify/handlers/super-studies.ts:49-59 | cleaned object fields have kept keys and clean non-null values |
| Cleaners.CleanFixed | src/handlers/MGnify/handlers/super-studies.ts:38-63 | a value already in the cleaned shape is left as it is |
| Cleaners.CleanArrFixed | src/handlers/MGnify/handlers/super-studies.ts:41-47 | the array case of the fixed-point property |
| Cleaners.CleanObjFixed | src/handlers/MGnify/handlers/super-studies.ts:49-59 | the object case of the fixed-point property |
| Cleaners.CleanItemsFixed | src/handlers/MGnify/handlers/super-studies.ts:41-47 | clean non-null elements are kept as they are |
| Cleaners.CleanFieldsFixed | src/handlers/MGnify/handlers/super-studies.ts:49-59 | clean fields with kept keys are kept as they are |
| Cleaners.CleanIdempotent | src/handlers/PDBe/handlers/validation.ts:38-61 | cleaning twice at the same depth is cleaning once |
| Cleaners.CleanValue | src/handlers/PDBe/handlers/validation.ts:38-61 | the recursive cleaner with its key-by-key object loop computes `Clean` |
| Cleaners.CleanKept | src/handlers/MGnify/handlers/super-studies.ts:267-275 | dropping null payloads never lengthens the list |
| Cleaners.NonNull | src/handlers/MGnify/handlers/super-studies.ts:272-275 | `filter(x => x.payload !== null)`: every kept item has a non-null payload and comes from the input, and every such input item is kept |
| Cleaners.CleanKeptSpec | src/handlers/MGnify/handlers/super-studies.ts:267-275 | the kept items are exactly the cleaned items with a non-null payload, in input order (map, then filter); each is an input item with its payload cleaned into the cleaned shape |
| Cleaners.CleanTopSpec | src/handlers/PDBe/handlers/validation.ts:232-238 | the first three of the cleaned non-null items, in input order, and as many as there are up to three; each a cleaned input item with a non-null clean payload |
| Cleaners.ChebiClean | src/handlers/ChEBI2/handlers/_base.ts:39-52 | an array keeps exactly its first `limit` elements; undefined becomes null; other scalars, "" included, are unchanged |
| Cleaners.ChebiItems | src/handlers/ChEBI2/handlers/_base.ts:40 | element i is element i cleaned with the same limit |
| Cleaners.ChebiCleanIsClean | src/handlers/ChEBI2/handlers/_base.ts:39-52 | output has no undefined, no empty object, no `__proto__` key, and arrays within the same limit at every depth |
| Cleaners.ChebiFieldsIsClean | src/handlers/ChEBI2/handlers/_base.ts:42-48 | kept fields have clean values that are neither null nor undefined |
| Cleaners.ChebiFixed | src/handlers/ChEBI2/handlers/_base.ts:39-52 | a value in the cleaned shape is left as it is |
| Cleaners.ChebiFieldsFixed | src/handlers/ChEBI2/handlers/_base.ts:42-48 | clean fields are kept as they are |
| Cleaners.ChebiIdempotent | src/handlers/ChEBI2/handlers/_base.ts:39-52 | cleaning twice with the same limit is cleaning once |
| Cleaners.ChebiCleanValue | src/handlers/ChEBI2/handlers/_base.ts:39-52 | the slice, map and key-by-key loop compute `ChebiClean` |
| Cleaners.ProtoKeyDropped | src/handlers/MGnify/handlers/super-studies.ts:50-60 | a `__proto__` field is not copied by either cleaner, since assigning it runs the prototype setter; an object holding only that field cleans to null |
| Js.Assign | src/handlers/MGnify/handlers/super-studies.ts:56 | `obj[k] = v`: an existing own key is set in place; `__proto__` that is not an own key adds no own key; any other new key goes last |
| SuperStudies.FetchSmart | src/handlers/MGnify/handlers/super-studies.ts:14-33 | 404 is the not-found marker and 422 is null; another failure status throws "MGnify super-studies failed (`<status>`)"; a rejected fetch is its reason; an ok JSON reply is its parsed body (or throws when unparsable) and an ok non-JSON reply is `{__raw_text: text}` |
| SuperStudies.DataItems | src/handlers/MGnify/handlers/super-studies.ts:71-74 | item i has id `String(item.id ?? i)` and payload `attributes ?? item`; fails exactly on a null item |
| SuperStudies.ExtractDataArray | src/handlers/MGnify/handlers/super-studies.ts:68-75 | no items unless `data` is an array |
| SuperStudies.SetParam | src/handlers/MGnify/handlers/super-studies.ts:86 | after `qs.set(k, v)`, the name `k` has the one value `v` and every pair with another name is kept |
| SuperStudies.RemoveParam | src/handlers/MGnify/handlers/super-studies.ts:86 | exactly the pairs with another name are kept |
| SuperStudies.QueryParams | src/handlers/MGnify/handlers/super-studies.ts:83-87 | nothing is set exactly when every value is undefined or null; a pair `(k, v)` is set exactly when `v` is `String` of the last non-nullish value of a field named `k` |
| SuperStudies.QueryText | src/handlers/MGnify/handlers/super-studies.ts:89 | the query text is empty exactly when no parameter is set |
| SuperStudies.BuildQuery | src/handlers/MGnify/handlers/super-studies.ts:80-91 | the `forEach` loop gives "" when nothing is set, otherwise "?" and the query |
| SuperStudies.BuildQuerySpec | src/handlers/MGnify/handlers/super-studies.ts:80-91 | `buildQuery` is "" exactly when every value is absent, and otherwise starts with "?" |
| SuperStudies.RequestFor | src/handlers/MGnify/handlers/super-studies.ts:121-205 | a request exists only for a known action, and outside the list action only with a truthy `super_study_id` |
| SuperStudies.RequestGuards | src/handlers/MGnify/handlers/super-studies.ts:140-204 | an unknown action throws, a non-list action without an id throws, and the list action always builds a request |
| SuperStudies.NotFoundAnswers | src/handlers/MGnify/handlers/super-studies.ts:209-256 | a 404 answers a note with no data that echoes `super_study_id ?? null`: for genome catalogues "Genome-catalogues endpoint is not available for this super-study (404)", otherwise "No data found for super_study_id=" and the id; a 422 is "no meaningful data" |
| SuperStudies.ListingSpec | src/handlers/MGnify/handlers/super-studies.ts:258-277 | a listing holds at most three items, each with a non-null cleaned payload; the exact listing is stated by `SuperStudies.ListingAnswers` |
| SuperStudies.ListingAnswers | src/handlers/MGnify/handlers/super-studies.ts:206-310 | a failed fetch is the handler's error; a found reply answers a listing that echoes `super_study_id ?? null` and carries the reply's pagination: for list actions the cleaned non-null `data` items, at most three (or the error of a null item); for single objects the cleaned reply under `String(super_study_id ?? args.super_study_id ?? "0")`, or nothing when it cleans to a falsy value |
| SuperStudies.DataOf | src/handlers/MGnify/handlers/super-studies.ts:258-297 | the items of a found reply; specified by `SuperStudies.ListingAnswers` and `SuperStudies.ListingSpec` |
| SuperStudies.MetaOf | src/handlers/MGnify/handlers/super-studies.ts:299-306 | `{page, pages, count}` of a truthy `meta.pagination`, otherwise undefined; specified by `SuperStudies.ListingAnswers` |
| SuperStudies.Respond | src/handlers/MGnify/handlers/super-studies.ts:206-310 | the handler after `fetchSmart`; specified by `SuperStudies.NotFoundAnswers`, `SuperStudies.ListingAnswers` and `SuperStudies.ListingSpec` |
| SuperStudies.Run | src/handlers/MGnify/handlers/super-studies.ts:97-325 | `MGnifySuperStudiesHandler.run`; specified by `SuperStudies.RequestGuards`, `SuperStudies.NotFoundAnswers`, `SuperStudies.ListingAnswers` and `SuperStudies.ListingSpec` |
| Validation.FindEndpoint | src/handlers/PDBe/handlers/validation.ts:107-220 | the row found is a table row for that action; none is found only when no row has it |
| Validation.PostBody | src/handlers/PDBe/handlers/validation.ts:119 | a POST sends at most one body, and none without `pdb_ids` |
| Net.FetchOrNull | src/handlers/PDBe/handlers/validation.ts:15-33 | the PDBe `fetchJson` of validation.ts and of Pisa.ts:8-23, with the service name as a parameter: 404 and 422 are null, another failure status throws "`<service>` failed (`<status>`)", a rejected fetch is its reason, an ok reply is its parsed body or throws when unparsable |
| Validation.NormalizeTop | src/handlers/PDBe/handlers/validation.ts:66-69 | no items for a falsy or non-object value, otherwise one `{id, payload}` per own entry, in order |
| Validation.Run | src/handlers/PDBe/handlers/validation.ts:75-261 | an unknown action throws "Unknown validation action"; the other answers are stated by `Validation.ReportAnswers` and `Validation.NoDataAnswers` |
| Validation.Respond | src/handlers/PDBe/handlers/validation.ts:222-244 | the handler after the fetch; specified by `Validation.NoDataAnswers`, `Validation.ReportAnswers`, `Validation.ReportSpec` and `Validation.ReportIdsFromReply` |
| Validation.ReportSpec | src/handlers/PDBe/handlers/validation.ts:230-244 | the data is null or one to three items with non-null payloads cleaned with the action's residue rule; the exact report is stated by `Validation.ReportAnswers` |
| Validation.ReportAnswers | src/handlers/PDBe/handlers/validation.ts:222-244 | a failed fetch is the handler's error; an ok reply with a non-empty body answers the action, `pdb_id ?? pdb_ids`, and the body's entries as `{id, payload}` items cleaned with the action's residue rule, or null data when none is left |
| Validation.NoDataAnswers | src/handlers/PDBe/handlers/validation.ts:222-228 | a 404, a 422 or an empty object is "no data", not an error |
| Validation.ReportIdsFromReply | src/handlers/PDBe/handlers/validation.ts:232-238 | every reported id is a key of the reply |
| Validation.RequestShape | src/handlers/PDBe/handlers/validation.ts:107-220 | a POST action sends the joined ids as its body; a GET action puts the one id in the path |
| Pisa.LimitSub | src/handlers/PDBe/handlers/Pisa.ts:28-31 | nothing for a non-array, otherwise the first `max` elements |
| Pisa.BondsUpTo | src/handlers/PDBe/handlers/Pisa.ts:42-56 | bond i takes distance i and the atom fields at index i of both sides |
| Pisa.SummarizeBondBlock | src/handlers/PDBe/handlers/Pisa.ts:36-66 | null for a falsy or non-object block |
| Pisa.BondSummarySpec | src/handlers/PDBe/handlers/Pisa.ts:39-65 | `totalCount` is the number of distances (0 if absent), `shownCount` is min(total, max), `truncated` holds exactly when total > shown, and bond i reads index i |
| Pisa.MoleculesUpTo | src/handlers/PDBe/handlers/Pisa.ts:115-122 | succeeds exactly when none of the molecules is null, and then molecule i is `MoleculeOf` input i; a null molecule throws a TypeError |
| Pisa.Molecules | src/handlers/PDBe/handlers/Pisa.ts:114-123 | nullish gives none; a non-array throws "data.molecules?.map is not a function"; an array succeeds exactly when no molecule is null and gives the first five, molecule i built from input i |
| Pisa.MoleculeBounds | src/handlers/PDBe/handlers/Pisa.ts:115-122 | each molecule holds at most five buried areas and five solvation energies |
| Pisa.BlocksUpTo | src/handlers/PDBe/handlers/Pisa.ts:107-113 | one summary per bond block |
| Pisa.BlocksElement | src/handlers/PDBe/handlers/Pisa.ts:107-113 | summary k is the summary of block k |
| Pisa.Run | src/handlers/PDBe/handlers/Pisa.ts:73-150 | a missing `pdb_id` or a null assembly or interface id throws; the count is the number of interfaces, at most one; the other answers are stated by `Pisa.EmptyInterface` and `Pisa.FoundInterface` |
| Pisa.Summarize | src/handlers/PDBe/handlers/Pisa.ts:100-123 | the interface summary of a non-null reply; specified by `Pisa.SummarizeSpec`, `Pisa.InterfaceBounds` and `Pisa.BondSummarySpec` |
| Pisa.SummarizeSpec | src/handlers/PDBe/handlers/Pisa.ts:100-123 | the summary succeeds exactly when the five bond blocks and the molecules do, and then copies the interface's id, area, energies, p-value and residue count, holds the five block summaries in order and the molecules |
| Pisa.Blocks | src/handlers/PDBe/handlers/Pisa.ts:107-113 | the five bond blocks summarised in order; specified by `Pisa.BlocksSpec` |
| Pisa.BlocksSpec | src/handlers/PDBe/handlers/Pisa.ts:107-113 | the blocks succeed exactly when each of the five does, and block k is the summary of the k-th named block |
| Pisa.BlocksErr | src/handlers/PDBe/handlers/Pisa.ts:107-113 | a failing block list has a block whose summary throws |
| Pisa.EmptyInterface | src/handlers/PDBe/handlers/Pisa.ts:85-98 | a 404, a 422 or a null body gives count 0 and no data |
| Pisa.FoundInterface | src/handlers/PDBe/handlers/Pisa.ts:73-150 | a failed fetch is the handler's error; an ok reply with a truthy body answers the ids and count 1 with its summary, or fails with the summary's error |
| Pisa.InterfaceBounds | src/handlers/PDBe/handlers/Pisa.ts:100-124 | every bond list holds at most five bonds and is flagged truncated exactly when more than five exist; at most five molecules |
| UniParc.NormalizeSize | src/handlers/Protein/handlers/uniparc.ts:32-35 | a missing or zero size is 3; otherwise the size clamped to 1..10 |
| UniParc.FetchJson | src/handlers/Protein/handlers/uniparc.ts:37-50 | a value exactly from an ok, parsable reply, and it is the parsed body; a rejected fetch is its reason; a not-ok reply throws "UniParc API failed (`<status>`): " and the first 200 characters of the text; an unparsable body throws |
| UniParc.KeepKeys | src/handlers/Protein/handlers/uniparc.ts:55-68 | exactly the entries with an allowed key are kept |
| UniParc.KeepKeysFixed | src/handlers/Protein/handlers/uniparc.ts:66-68 | entries with allowed keys only are kept as they are |
| UniParc.TrimEntry | src/handlers/Protein/handlers/uniparc.ts:52-69 | falsy and non-object values pass through; an object keeps exactly its allow-listed entries |
| UniParc.TrimIdempotent | src/handlers/Protein/handlers/uniparc.ts:52-69 | trimming twice is trimming once |
| UniParc.ArrayTrimsToEmpty | src/handlers/Protein/handlers/uniparc.ts:52-69 | an array trims to the empty object: its index keys are never allowed |
| UniParc.TrimResults | src/handlers/Protein/handlers/uniparc.ts:71-73 | nullish gives none; an array gives its first `limit` entries trimmed; anything else throws |
| UniParc.AccessionLikeWidens | src/handlers/Protein/handlers/uniparc.ts:98 | the corrected accession shape accepts what the written one does, plus the O, P and Q accessions |
| UniParc.AccessionLike | src/handlers/Protein/handlers/uniparc.ts:98 | the corrected accession shape (any upper-case first letter); specified by `UniParc.AccessionLikeWidens` and `UniParc.GuessParamSpec` |
| UniParc.GuessParamAsWritten | src/handlers/Protein/handlers/uniparc.ts:96-102 | a "UPI" prefix is sent as `upis`; the accession and genes branches are stated by `UniParc.GuessParamAsWrittenSpec` |
| UniParc.GuessParamAsWrittenSpec | src/handlers/Protein/handlers/uniparc.ts:96-102 | as written: `upis` exactly for a "UPI" prefix, `accessions` exactly for the written `[A-NR-Z]` accession shape, `genes` for everything else; the value is the query or "undefined" |
| UniParc.AsWrittenMissesP04637 | src/handlers/Protein/handlers/uniparc.ts:98 | as written, the accession P04637 is sent as a gene name |
| UniParc.GuessParam | src/handlers/Protein/handlers/uniparc.ts:96-102 | a "UPI" prefix is sent as `upis`; the accession and genes branches are stated by `UniParc.GuessParamSpec` |
| UniParc.GuessParamSpec | src/handlers/Protein/handlers/uniparc.ts:96-102 | `upis` exactly for a "UPI" prefix, `accessions` exactly for an accession, `genes` for everything else; the classes never overlap; the value is the query or "undefined" |
| UniParc.Count | src/handlers/Protein/handlers/uniparc.ts:155 | an array counts its length, anything else 1 |
| UniParc.Answered | src/handlers/Protein/handlers/uniparc.ts:152-158 | an answer exactly when the data was obtained |
| UniParc.Run | src/handlers/Protein/handlers/uniparc.ts:80-159 | the four fetching actions send exactly one request, the others none; `bestguess` classifies with the corrected accession shape of the second Finding, not the written one; the answers are stated by `UniParc.FetchedAnswer` and `UniParc.NoticeActions` |
| UniParc.NoticeActions | src/handlers/Protein/handlers/uniparc.ts:129-150 | `by_proteome` and `by_sequence` answer a notice with count 1 and no fetch; an unknown action throws |
| UniParc.ListAnswer | src/handlers/Protein/handlers/uniparc.ts:93-118 | a list answer counts its entries, holds at most the normalised size (exactly `min(results, size)` entries when `results` is an array), and entry i is the trimmed result i |
| UniParc.FetchedAnswer | src/handlers/Protein/handlers/uniparc.ts:80-159 | a failed fetch is the handler's error; `by_accession` and `by_upi` answer the trimmed entry and its count; a list action with a `results` array answers its first `size` entries trimmed; `bestguess` with falsy results answers none |
| UniParc.DataOf | src/handlers/Protein/handlers/uniparc.ts:85-126 | the data a fetching action makes of the fetched value; specified by `UniParc.FetchedAnswer` and `UniParc.ListAnswer` |
| UniParc.GuessExamples | src/handlers/Protein/handlers/uniparc.ts:96-102 | P04637 is an accession, UPI000002ED67 a UPI, TP53 and a missing query gene names |
| Proteomics.NormalizeSize | src/handlers/Protein/handlers/proteomics.ts:26-29 | a missing or zero size is 3; otherwise the size clamped to 3..10 |
| Proteomics.FetchJson | src/handlers/Protein/handlers/proteomics.ts:11-21 | a value exactly from an ok, parsable reply, and it is the parsed body; a rejected fetch is its reason; a not-ok reply throws "UniProt Proteomics API failed (`<status>`)"; an unparsable body throws |
| Proteomics.SliceList | src/handlers/Protein/handlers/proteomics.ts:39-40 | nullish gives none, an array its first `limit` elements, anything else throws |
| Proteomics.Properties | src/handlers/Protein/handlers/proteomics.ts:55-59 | a truthy `properties` gives its first ten entries, otherwise undefined |
| Proteomics.TrimEvidence | src/handlers/Protein/handlers/proteomics.ts:49-60 | throws exactly on a null evidence |
| Proteomics.TrimEvidences | src/handlers/Protein/handlers/proteomics.ts:47-61 | one trimmed evidence per input, in order; throws exactly when one is null |
| Proteomics.TrimFeature | src/handlers/Protein/handlers/proteomics.ts:41-62 | at most `evidenceLimit` evidences, each with at most ten properties; a null feature throws; the fields are stated by `Proteomics.TrimFeatureSpec` |
| Proteomics.TrimFeatureSpec | src/handlers/Protein/handlers/proteomics.ts:41-62 | a feature trims exactly when it is not null, its evidences are nullish or an array, and none of the first `evidenceLimit` evidences is null; then type, begin, end, peptide and unique are copied and evidence i is the trimmed evidence i |
| Proteomics.TrimFeatureList | src/handlers/Protein/handlers/proteomics.ts:39-62 | one trimmed feature per input, in order |
| Proteomics.TrimFeatures | src/handlers/Protein/handlers/proteomics.ts:34-63 | nullish features give none |
| Proteomics.TrimFeaturesSpec | src/handlers/Protein/handlers/proteomics.ts:34-63 | at most `featureLimit` features, at most `evidenceLimit` evidences each, at most ten properties each; feature i comes from input i |
| Proteomics.SplitKeyValue | src/handlers/Protein/handlers/proteomics.ts:95 | the key is the text before the first colon (the whole text without one); the value is undefined without a colon, and otherwise the colon-free text after the first colon, ending at the next colon or at the end |
| Proteomics.BeforeColon | src/handlers/Protein/handlers/proteomics.ts:95 | a colon-free prefix ending at the first colon |
| Proteomics.Matches | src/handlers/Protein/handlers/proteomics.ts:97-103 | a null record throws exactly when the key is `taxId` or `upId` |
| Proteomics.FilterSpecies | src/handlers/Protein/handlers/proteomics.ts:97-103 | kept records are exactly the matching input records; throws exactly when a record read is null |
| Proteomics.OtherKeyMatchesNothing | src/handlers/Protein/handlers/proteomics.ts:97-103 | any other key yields an empty list |
| Proteomics.Count | src/handlers/Protein/handlers/proteomics.ts:191-195 | an entry counts its features, a species list its length |
| Proteomics.UnsupportedMessage | src/handlers/Protein/handlers/proteomics.ts:107-110 | the refusal names the action |
| Proteomics.Answered | src/handlers/Protein/handlers/proteomics.ts:187-197 | an answer exactly when the data was obtained |
| Proteomics.Run | src/handlers/Protein/handlers/proteomics.ts:69-212 | the three `*_search` actions, and a by-accession action without an accession, throw without any request; the answers are stated by `Proteomics.FetchedAnswers` |
| Proteomics.EntryBounds | src/handlers/Protein/handlers/proteomics.ts:113-180 | a by-accession answer counts its features: at most 3 with 3 evidences for nonPtm and ptm, at most the normalised size with 10 for hpp |
| Proteomics.FetchedAnswers | src/handlers/Protein/handlers/proteomics.ts:69-212 | `species` answers the fetched list as it is; `species_search` answers the filtered records and their count; a by-accession action sends one request for its accession and answers accession, entry name, taxid and the trimmed features with their count; a null reply throws a TypeError; fetch and trimming errors are the handler's |
| Proteomics.EntryOf | src/handlers/Protein/handlers/proteomics.ts:113-180 | the entry a by-accession action makes of the fetched value; specified by `Proteomics.FetchedAnswers` and `Proteomics.EntryBounds` |
| Proteomics.SpeciesSearchSpec | src/handlers/Protein/handlers/proteomics.ts:91-104 | a record is kept exactly when its `String(taxId)` or `upId` equals the value; any other key keeps nothing |
| Proteomics.SearchSpecies | src/handlers/Protein/handlers/proteomics.ts:91-104 | the species search; specified by `Proteomics.SpeciesSearchSpec` |

## Left out

- All HTTP: URLs, headers, percent-encoding (`encodeURIComponent`, `URLSearchParams`) and the `content` text copies of each reply. A request is a route plus its parameters, and the oracle `net` answers it.
- `JSON.stringify` escaping and number formatting. Numbers are integers; fractional values, NaN and string-to-number comparisons are not modelled.
- The MCP server wiring and the transport, and every handler not listed above (the duplicated cleaners and size clamps are covered by the parametrised versions).
- The "Failed to discover" branch of src/handlers/xref_targeted.ts:43-50. The discovery handler either throws or returns an array, so that branch cannot be reached.
- src/handlers/xref_domain.ts, which xref_targeted imports, is not part of this model. Its compiled form, dist/handlers/xref_domain.js, returns `{domain, description}` objects and is modelled as `XrefDomain.DiscoverDescriptors`.
- In-place updates are modelled on values. `removeZeroHits` rewrites `node.subdomains`, but the nodes it receives are fresh copies made by `pruneTree`, so no caller sees the aliasing. The `grouped` map and the `out` array are modelled as sequences that the loops rebuild.
- `Object.fromEntries` on duplicate keys (the last one wins) is not modelled. Parsed JSON objects have distinct keys.
- Cleaners.ChebiClean: `limit` is a natural number. The negative limits that JavaScript `slice` would accept are not modelled.
- The messages of JavaScript `TypeError`s are fixed strings, not the engine's exact wording.
- String lengths and `slice` count Unicode scalar values (Dafny `char`), where JavaScript counts UTF-16 code units. This differs only for characters outside the Basic Multilingual Plane: `sequence?.length` in uniparc and proteomics, and `text.slice(0, 200)` in the non-JSON error messages.
- XrefAll.Run runs the corrected discovery reading of the first Finding: it fetches the discovered targets, where the handler as written fetches only the priority domains. The as-written reading is `XrefAll.DiscoveredAsWritten`, with its consequence proved in `XrefAll.AsWrittenFetchesOnlyPriority`.
- UniParc.Run runs the corrected accession shape of the second Finding. The as-written classification is `UniParc.GuessParamAsWritten`, specified by `UniParc.GuessParamAsWrittenSpec`.

## Findings

| source | as written | input that shows it | evidently intended | confidence | as-written member | corrected member |
|---|---|---|---|---|---|---|
| src/handlers/search/handlers/xref_all.ts:31-34 | reads `t.domain` of each discovered target, but the discovery handler (src/handlers/search/handlers/xref_domain.ts:48) returns plain strings, so every target reads as undefined and is dropped | a catalog listing only `uniprot` | use the discovered strings themselves as the candidate targets | high, not executed | XrefAll.AsWrittenSkipsUniprot | XrefAll.DiscoveredTargetsFetched |
| src/handlers/Protein/handlers/uniparc.ts:98 | `^[A-NR-Z][0-9][A-Z0-9]{3}[0-9]$` excludes accessions beginning with O, P or Q, whose UniProtKB form is `[OPQ][0-9][A-Z0-9]{3}[0-9]` | query `P04637` (human p53) is sent as `genes=P04637` | send every six-character UniProtKB accession as `accessions` | medium, not executed | UniParc.AsWrittenMissesP04637 | UniParc.GuessParamSpec |
