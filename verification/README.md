# Verification of the ingestion and publishing core

A Dafny model of the deterministic heart of the repository, and proofs about it. `dafny verify dfyconfig.toml` checks
everything.

What is modelled, with the source it follows:

| part | files |
|---|---|
| cross-source clustering (`ingestion/orchestration/cross_source_dedup.py`) | `Connectivity`, `UnionFind`, `Clustering` (the meaning, over the records alone), `ClusterRecords`, `ClusterDescription` (the code), `ClusterTheorems`, `ClusterOrder`, `ClusterLinks`, `ClusterTies`, `ClusterTieExample`, `ClusterSummary`, `SemanticIdentity` |
| batch dedup (`ingestion/orchestration/eventqueue_dedup.py`) | `RecordKeys`, `DedupIndex`, `RecordIdentities` |
| URL canonicalisation (`ingestion/orchestration/canonical_url.py`) | `PercentCodec`, `CanonicalUrl`, `CanonicalUrlTheorems`, `CanonicalUrlAgain`, `UrlSpellings`, `UrlForms` |
| bridge to raw_events (`ingestion/orchestration/bridge_to_raw_events.py`) | `RawEventsBridge`, `BridgeRules` |
| crawl graph (`ingestion/agents/graph.py`) | `CrawlGraph`, `CrawlRounds` |
| rate limits (`host_rate_gate.py`, `rate_limit_governor.py`, `gdelt_strategy.py` in `ingestion/orchestration`) | `Clock`, `HostRateGate`, `RateLimitGovernor`, `GdeltStrategy` |
| fetch strategy loop (`ingestion/fetch_strategies`, `ingestion/core/retry_policy.py`) | `StrategyLoop`, `StrategyRules` |
| run planner (`production_state.py`, `production_scheduler.py` in `ingestion/orchestration`) | `ProductionState`, `ProductionRules`, `RunPlan` |
| source health (`ingestion/core/source_health.py`, `ingestion/fetch_strategies/collection_probe.py`) | `SourceHealth` |
| event queue (`ingestion/pipeline/event_queue.py`) | `EventQueue` |
| publishing (`agents/nodes`, `agents/graphs/event_processing_graph.py`) | `CardText`, `PublishGate`, `CardLaws`, `PublishPipeline` |
| extracted-text artifact (`artifact_store.py`, `artifact_parser.py`) | `ExtractedText` |
| shared vocabulary | `Options`, `Texts`, `Sorting` |

Objects the source updates in place are classes, its loops are loops, and each such method is proved against functions or
predicates on which the theorems rest. Digests, regular expressions, Unicode casing, ISO time parsing, the network, the
database, the language model and the clock are parameters; where a theorem needs a law of one of them (a digest that is
injective, an encoding that decodes what it encoded) it says so. Instants are integers in microseconds.

Eight places where the code does less than its documentation promises or its callers would expect, each with the exact
condition and a concrete input:

* The choice of a cluster's core is said not to depend on input order. `weak_only_members` does, if equally ranked strong
  components carry different keys (`ClusterTies.WeakOnlyStableIff`, `ClusterTieExample.OrderShows`).
* Canonicalisation is not idempotent if the part of the URL that will come last, once fragment, tracking parameters and
  trailing slashes are gone, ends in whitespace (`CanonicalUrlAgain.FixedPointIff`, `CanonicalUrlAgain.FixedPointCanFail`).
* Cutting a stream into batches changes stored refs of records without a ref (`DedupIndexes.SplittingKeepsIndexIff`,
  `DedupIndexes.SplitChangesRef`).
* A rate-limited source whose resume time carries no UTC offset does not resume: the planner raises from then on
  (`RunPlans.RateLimitEndsByItself`, `RunPlans.OffsetFreeStopsThePlan`).
* One item with U+0085, U+2028 or U+2029 in it stops the JSONL queue for good (`EventQueues.OneBadItemStopsTheQueue`,
  `EventQueues.LineSeparatorStopsTheQueue`).
* No sentinel should show on a published card, but the title can be "[no title]" (`PublishPipelines.PublishedTitle`,
  `PublishPipelines.TitleGoesMissing`).
* A parse failure is said to be kept as `parse_error`. An extracted-text artifact whose URL has a port that cannot be read
  makes the parser raise instead (`ExtractedTexts.RoundTrip`, `ExtractedTexts.BigPortLosesTheArticle`).
* Keys that join fields by a bar meet for different records if a field holds one (`RecordIdentities.SameKeyExactly`,
  `RecordIdentities.BarsCollide`, `ClusterLinks.StrongLinkedIff`, `ClusterLinks.BarsLink`).

## Model

| member | source | states |
|---|---|---|
| `UnionFinds.UnionFind.Find` | `ingestion/orchestration/cross_source_dedup.py:125-129` | Returns the least index connected to x by the edges united so far, and path halving, which rewrites parents on the way, leaves the represented connectivity as it was |
| `UnionFinds.UnionFind.Union` | `ingestion/orchestration/cross_source_dedup.py:131-134` | Afterwards the forest represents exactly the old edges and the new one |
| `UnionFinds.HalvingKeepsRoots` | `ingestion/orchestration/cross_source_dedup.py:126-128` | Pointing a vertex at its grandparent changes no root |
| `UnionFinds.RootIsLeast` | `ingestion/orchestration/cross_source_dedup.py:131-134` | In a forest whose links point to smaller indices and which represents the edges, the root of x is the least vertex connected to x |
| `ClusterLoop.LinkByKey` | `ingestion/orchestration/cross_source_dedup.py:156-179` | Linking every holder of a key to the first one connects exactly the records that share the key, although only star-shaped pairs are recorded |
| `ClusterLoop.LinkStrong` | `ingestion/orchestration/cross_source_dedup.py:156-179` | The three index passes connect exactly what the pairwise strong-link relation connects |
| `ClusterLoop.LinkWeak` | `ingestion/orchestration/cross_source_dedup.py:181-203` | The bucketed double loop finds exactly the weak links, with their similarities, and unites them with the strong ones |
| `ClusterLoop.CollectGroups` | `ingestion/orchestration/cross_source_dedup.py:206-208` | The groups are the connected components, each under its least member, members ascending |
| `ClusterDescription.ChooseCore` | `ingestion/orchestration/cross_source_dedup.py:246-249` | min over (size, publishable, least key) with input order deciding ties |
| `ClusterDescription.SplitCore` | `ingestion/orchestration/cross_source_dedup.py:229-251` | The inner union-find yields the primary strong component of the cluster and the members outside it |
| `ClusterDescription.Strength` | `ingestion/orchestration/cross_source_dedup.py:253-258` | 1.0 with a strong link inside, else the largest title similarity of a weak link inside |
| `ClusterDescription.ClusterRecords` | `ingestion/orchestration/cross_source_dedup.py:137-271` | Main result: for all records the returned list is, component by component, the declarative clustering: one result for every connected component of two or more records of "shares a canonical URL, official id or signal key, or same known day with similar title", with keys, primary, confidence, strength, clique flag and weak-only members as specified over the records alone |
| `ClusterLinks.WeakLinkedIff` | `ingestion/orchestration/cross_source_dedup.py:68-100` | Two records are weakly linked exactly if their times share the first ten characters and their titles agree once normalised, or have a word in common and at least four common words for every word that only one has |
| `ClusterLinks.StrongLinkedIff` | `ingestion/orchestration/cross_source_dedup.py:153-179` | They are strongly linked exactly if they have one canonical URL, one document id in external URLs, or are signals of one reading, day and title, provided no bar stands in the joined fields |
| `ClusterLinks.BarsLink` | `ingestion/orchestration/cross_source_dedup.py:174` | With a bar in a field two different readings are linked |
| `ClusterLinks.StrengthIs` | `ingestion/orchestration/cross_source_dedup.py:218-258` | A cluster is a duplicate of strength 1.0 exactly if two members share a key; otherwise its strength times all words of some two members that tell one story is their common words, and no such two exceed it |
| `ClusterLinks.CoreOutranks` | `ingestion/orchestration/cross_source_dedup.py:246-249` | The core has more members than any other strong component, or as many and alone an official record or article, or as much of both and a key that comes before all of the other, by code point |
| `ClusterTheorems.CliqueOkIff` | `ingestion/orchestration/cross_source_dedup.py:225-251` | clique_ok holds exactly if strong links alone connect all members, so a weak bridge between two strong components always fails it |
| `ClusterTheorems.CliqueOkIsDuplicate` | `ingestion/orchestration/cross_source_dedup.py:218-258` | clique_ok implies confidence duplicate, strength 1.0 and nobody left out |
| `ClusterTheorems.WeakOnlyIsComplementOfLargest` | `ingestion/orchestration/cross_source_dedup.py:234-251` | The members left out are, as keys, the complement of a strong component that no other one exceeds in size |
| `ClusterTheorems.KeylessIsSingleton` | `ingestion/orchestration/cross_source_dedup.py:148-151` | A record that only has the positional fallback key is linked to nothing, so its cluster is itself |
| `ClusterTheorems.ClusterMembersHaveKeys` | `ingestion/orchestration/cross_source_dedup.py:148-151` | Hence every member of a cluster of two or more has a key that does not depend on its position |
| `ClusterOrder.OrderDoesNotMatter` | `ingestion/orchestration/cross_source_dedup.py:211-270` | For any two orders of the same records the multisets of results agree in everything but weak_only_members |
| `ClusterOrder.ResultFollows` | `ingestion/orchestration/cross_source_dedup.py:216-270` | Rearranging the records carries the result of a cluster to the result of its image |
| `ClusterTies.WeakOnlyStableIff` | `ingestion/orchestration/cross_source_dedup.py:234-251` | weak_only_members is independent of input order exactly if all best-ranked strong components of the cluster carry the same keys; otherwise a rearrangement changes it |
| `ClusterTies.SettledOrderDoesNotMatter` | `ingestion/orchestration/cross_source_dedup.py:211-270` | If that holds of every cluster, any two orders of the same records give equal multisets of whole results, weak_only_members included |
| `ClusterTies.LeastKeysSettle` | `ingestion/orchestration/cross_source_dedup.py:234-251` | It holds of a cluster if no two of its strong components have one least key |
| `ClusterTies.DistinctKeysSettle` | `ingestion/orchestration/cross_source_dedup.py:234-251` | It holds of every cluster if no two records have one key, which a caller can check beforehand |
| `ClusterTieExample.NotSettled` | `ingestion/orchestration/cross_source_dedup.py:234-251` | The documented order independence fails for weak_only_members on six concrete signals of one day, for every reading that gives their two titles their own words: similar titles join two triples of three records each, equally ranked and with different keys |
| `ClusterTieExample.OrderShows` | `ingestion/orchestration/cross_source_dedup.py:246-251` | Another order of those six records gives another weak_only_members |
| `ClusterSummary.SummarizeClusters` | `ingestion/orchestration/cross_source_dedup.py:274-285` | The counts of the two confidences add up to the clusters |
| `ClusterSummary.CollapsedRecordsAddUp` | `ingestion/orchestration/cross_source_dedup.py:274-285` | Over a clustering, records collapsed plus clusters is the number of records that share a cluster: collapsing loses none |
| `SemanticIdentity.SameFingerprintIff` | `ingestion/orchestration/cross_source_dedup.py:102-118` | Two events share a fingerprint exactly if their titles have the same four or more telling words and they fall on the same known day |
| `SemanticIdentity.FingerprintsAreWeakLinks` | `ingestion/orchestration/cross_source_dedup.py:102-118` | A shared fingerprint is always a weak link of the clustering, as the shared normalisation promises |
| `DedupIndexes.DedupIndex.Check` | `ingestion/orchestration/eventqueue_dedup.py:140-145` | Duplicate exactly if the key is in the index, with the stored ref |
| `DedupIndexes.DedupIndex.Add` | `ingestion/orchestration/eventqueue_dedup.py:147-149` | The first ref of a key stays |
| `DedupIndexes.DedupIndex.Decide` | `ingestion/orchestration/eventqueue_dedup.py:151-168` | Decision and new index for a record without key, with a known key and with a new key |
| `DedupIndexes.DedupRecords` | `ingestion/orchestration/eventqueue_dedup.py:190-200` | Main result: every decision and the final index are those required of the whole batch, said without the loop: new is exactly the first record of each key the index lacked, every other one reports that record's ref |
| `RecordIdentities.SameKeyIff` | `ingestion/orchestration/eventqueue_dedup.py:79-123` | Two records have one key exactly if they are of one family and agree in what identifies it: canonical URL; source and document id; source, signal and time; source, title and URL; URL; source, title and time. Keys of two families never meet, and a record without any of these has none; no bar may stand in the joined fields |
| `RecordIdentities.DuplicateIff` | `ingestion/orchestration/eventqueue_dedup.py:151-200` | In a batch over an empty index a record is a duplicate exactly if an earlier one has its identity, and is reported with the ref of the first such one and the rule of its family |
| `RecordIdentities.DuplicateOverIndexIff` | `ingestion/orchestration/eventqueue_dedup.py:151-200` | Over any index it is a duplicate exactly if the index held its key or an earlier record has its identity |
| `RecordIdentities.SameKeyExactly` | `ingestion/orchestration/eventqueue_dedup.py:79-123` | With or without bars: signals, search results and records by title have one key exactly if their fields joined by bars read the same |
| `RecordIdentities.BarsCollide` | `ingestion/orchestration/eventqueue_dedup.py:47-49` | With a bar in a field two signals of two sources have one key |
| `DedupIndexes.ExpectedIsUnique` | `ingestion/orchestration/eventqueue_dedup.py:190-200` | That requirement admits one decision only |
| `DedupIndexes.ExpectedSeenIsUnique` | `ingestion/orchestration/eventqueue_dedup.py:190-200` | ... and one resulting index only |
| `DedupIndexes.NewExactlyOncePerKey` | `ingestion/orchestration/eventqueue_dedup.py:151-168` | A keyed record is new exactly if it is its key's first and the index lacked the key |
| `DedupIndexes.ReplayIsAllDuplicates` | `ingestion/orchestration/eventqueue_dedup.py:190-200` | Replaying a batch marks every keyed record duplicate and leaves the index as it was |
| `DedupIndexes.FirstBatchKeepsDecisions` | `ingestion/orchestration/eventqueue_dedup.py:190-200` | Cutting a stream in two leaves the whole decision of every record of the first batch as it was, the reported ref included |
| `DedupIndexes.SplittingKeepsVerdicts` | `ingestion/orchestration/eventqueue_dedup.py:190-200` | It changes no verdict and no reason of a record of the second batch either |
| `DedupIndexes.SecondBatchKeepsDecisionsIff` | `ingestion/orchestration/eventqueue_dedup.py:193-199` | The second batch reports the same refs too, exactly but for records that repeat one of their own batch that had no ref |
| `DedupIndexes.SplittingKeepsIndexIff` | `ingestion/orchestration/eventqueue_dedup.py:193-199` | It keeps the whole index exactly if no record without a ref of its own enters it from the second batch, because such refs are batch positions |
| `DedupIndexes.SplitChangesRef` | `ingestion/orchestration/eventqueue_dedup.py:193-199` | Two articles without refs, cut into batches of one, are such a stream: the second is stored under another ref |
| `PercentCodec.BytesRoundTrip` | `ingestion/orchestration/canonical_url.py:102-104` | Unquoting a quoted byte string gives it back (RFC 3986 section 2.1) |
| `PercentCodec.TextRoundTrip` | `ingestion/orchestration/canonical_url.py:102-104` | unquote_plus after quote_plus is the identity for every text of a lawful encoding |
| `PercentCodec.QueryRoundTrip` | `ingestion/orchestration/canonical_url.py:102-104` | parse_qsl(urlencode(L)) == L for every list of names and values |
| `CanonicalUrlTheorems.CanonicalIsNormal` | `ingestion/orchestration/canonical_url.py:76-106` | The result of the normaliser is a fixed point of it |
| `UrlForms.FormOf` | `ingestion/orchestration/canonical_url.py:76-106` | The form of a URL, part by part: http or https in small letters, the user, the host but for case and without capitals, the port as a plain number unless usual, the path up to trailing slashes, exactly the parameters that track nothing, in order, and no fragment |
| `UrlForms.HasFormIff` | `ingestion/orchestration/canonical_url.py:76-95` | A URL has no form exactly if its scheme is not http or https or it has no host, and has one exactly if besides its port can be read |
| `UrlForms.ResolverDecides` | `ingestion/orchestration/canonical_url.py:61-73` | With a resolver the result is the form of its answer, unless it raised, answered nothing or answered a text without a form |
| `CanonicalUrlTheorems.NormalAuthority` | `ingestion/orchestration/canonical_url.py:86-96` | User information is kept, the host is the same but for case and has no capitals, the port is kept exactly if it is not the default, and reading that back gives the same pieces |
| `CanonicalUrlTheorems.CanonicalEqualIff` | `ingestion/orchestration/canonical_url.py:76-106` | Two URLs have one canonical form exactly if scheme, user, host up to case and effective port, trimmed path and the multiset of parameters that count agree |
| `CanonicalUrlTheorems.QueriesRearranged` | `ingestion/orchestration/canonical_url.py:102-104` | Any reordering of the query and any tracking parameters added to it leave the parameters that count as they are |
| `CanonicalUrlAgain.FixedPointIff` | `ingestion/orchestration/canonical_url.py:54-73` | With or without a resolver the result is a normal form, and canonicalising it again gives it back exactly unless, in the parts of the stripped URL normalised last, no query parameter counts and the trimmed path (or, without a path, a host without a port of its own) ends in whitespace |
| `CanonicalUrlAgain.WhitespaceFreeIsIdempotent` | `ingestion/orchestration/canonical_url.py:54-73` | A URL without whitespace inside has a canonical form exactly if it has an http scheme, a host and a readable port, and that form is a fixed point |
| `CanonicalUrlAgain.ShieldedSpace` | `ingestion/orchestration/canonical_url.py:98-100` | Idempotence fails for a whole family: a space before trailing slashes becomes the end of the result, and a second call gives something else |
| `CanonicalUrlAgain.FixedPointCanFail` | `ingestion/orchestration/canonical_url.py:98-100` | "http://h/a /" becomes "http://h/a ", and a second call does not give that back |
| `UrlSpellings.FragmentIsFree` | `ingestion/orchestration/canonical_url.py:98-106` | On URL texts: appending any fragment changes no canonical form |
| `UrlSpellings.TrailingSlashIsFree` | `ingestion/orchestration/canonical_url.py:98-100` | On URL texts: one more slash after a path other than the root, before any query and fragment, changes no canonical form |
| `UrlSpellings.SchemeCaseIsFree` | `ingestion/orchestration/canonical_url.py:82-84` | On URL texts: the case of the scheme changes no canonical form |
| `UrlSpellings.HostCaseIsFree` | `ingestion/orchestration/canonical_url.py:86` | On URL texts: the case of the host changes no canonical form, whatever user, port, path, query and fragment stand around it |
| `UrlSpellings.DefaultPortIsFree` | `ingestion/orchestration/canonical_url.py:94-96` | On URL texts: neither an empty port nor the default port of the scheme, leading zeros included, changes a canonical form |
| `UrlSpellings.TrackingIsFree` | `ingestion/orchestration/canonical_url.py:102-104` | On URL texts: reordering the parameters and adding tracking parameters anywhere among them changes no canonical form |
| `UrlSpellings.TrackingAloneIsFree` | `ingestion/orchestration/canonical_url.py:102-104` | On URL texts: appending a query of tracking parameters only changes no canonical form |
| `UrlForms.ParamCountsIff` | `ingestion/orchestration/canonical_url.py:20-31` | On URL texts: one more parameter changes the form exactly if its name is none of nineteen tracker names and does not begin with utm_ |
| `UrlForms.OtherPortCounts` | `ingestion/orchestration/canonical_url.py:94-96` | On URL texts: any port number but 80 for http and 443 for https changes the form |
| `UrlForms.RootSlashCounts` | `ingestion/orchestration/canonical_url.py:98-100` | On URL texts: the slash of the root stays |
| `UrlForms.HttpUrlHasForm` | `ingestion/orchestration/canonical_url.py:82-95` | On URL texts: in any letter case an http scheme before a host makes a URL with a form |
| `UrlForms.LeadingIsFree` | `ingestion/orchestration/canonical_url.py:78` | On URL texts: control characters and spaces in front change no form |
| `UrlForms.TabIsFree` | `ingestion/orchestration/canonical_url.py:78` | On URL texts: tabs and line ends anywhere change no form |
| `UrlForms.TextPrints` | `ingestion/orchestration/canonical_url.py:104` | quote_plus prints letters, digits and - . _ ~ as they are, the space as a plus and any other byte as a percent sign and two capital hexadecimal digits (RFC 3986 section 2.1) |
| `UrlForms.EscapeReads` | `ingestion/orchestration/canonical_url.py:102-104` | Reading a query, a percent sign and two hexadecimal digits in either case are one byte |
| `UrlForms.OtherReads` | `ingestion/orchestration/canonical_url.py:102-104` | ... and any other character, a percent sign without two such digits included, stays |
| `RawEventsBridge.BridgeWriter.Write` | `ingestion/orchestration/bridge_to_raw_events.py:202-227` | Effect on hashes, counters and deliveries for a known hash, a success, a conflict and an exception; no hash is ever delivered twice by a writer |
| `RawEventsBridge.BridgeOne` | `ingestion/orchestration/bridge_to_raw_events.py:256-278` | One record of the stream: held, refused, or the write its place demands |
| `RawEventsBridge.BridgeRecords` | `ingestion/orchestration/bridge_to_raw_events.py:238-288` | Main result: every status is the one the stream and the sink's answers demand, the report counts exactly these statuses |
| `BridgeRules.StatusIs` | `ingestion/orchestration/bridge_to_raw_events.py:131-141` | A batch refuses exactly the records whose type is none of the six names or whose source is empty, holds exactly the others without external and canonical URL, and writes every other one unless its identifying URL is settled |
| `BridgeRules.SinkGets` | `ingestion/orchestration/bridge_to_raw_events.py:108-168` | The sink is called for exactly those, with their own type, source and URLs and the key of the caller or the source joined to the identifying URL |
| `BridgeRules.ContractPassIff` | `ingestion/orchestration/bridge_to_raw_events.py:238-288` | contract_pass exactly if every record is proper and no write failed |
| `RawEventsBridge.EveryRecordCounted` | `ingestion/orchestration/bridge_to_raw_events.py:278-288` | written + duplicates + held + rejected equals the number of records |
| `RawEventsBridge.OnlyUrlsReachTheSink` | `ingestion/orchestration/bridge_to_raw_events.py:108-168` | Only records with an external or canonical URL reach the sink, under the digest of that URL |
| `RawEventsBridge.AnsweredAtMostOnce` | `ingestion/orchestration/bridge_to_raw_events.py:202-227` | Per hash the sink answers without throwing at most once per batch |
| `RawEventsBridge.ThrownStaysRetryable` | `ingestion/orchestration/bridge_to_raw_events.py:222-224` | A record whose write threw is written again at the next occurrence of its hash |
| `RawEventsBridge.CleanRunStoresAll` | `ingestion/orchestration/bridge_to_raw_events.py:238-288` | A run without exceptions leaves every mapped hash in an on-conflict database |
| `RawEventsBridge.ReplayWritesNothing` | `ingestion/orchestration/bridge_to_raw_events.py:238-288` | Replaying that stream with a fresh writer over that database writes nothing, whatever fails this time |
| `CrawlGraph.StepKeepsInv` | `ingestion/agents/graph.py:130-618` | Every node and edge keeps the invariant: attempt number accounted for and within the budget and, over a sequence of distinct strategies, tried ones a prefix of it and the exhaustion flag exact |
| `CrawlGraph.StrategiesAreFresh` | `ingestion/agents/graph.py:303-320` | In every run over a sequence of distinct strategies the tried ones are a duplicate-free prefix of the sequence and extraction never repeats one |
| `CrawlGraph.AttemptsAreAccountedFor` | `ingestion/agents/graph.py:552-587` | After every retry decision attempt_no is the number of recorded errors plus scored attempts |
| `CrawlGraph.RetryDecisionIff` | `ingestion/agents/graph.py:552-587` | Where each decision leads, exactly; whether the error was marked retryable never matters |
| `CrawlGraph.BlockedIsFinal` | `ingestion/agents/graph.py:590-618` | Once the quality is BLOCKED no fetch, selection or extraction node runs again |
| `CrawlRounds.BlockerEndsTheCrawl` | `ingestion/agents/graph.py:380-618` | In every run: a captcha, login wall or paywall met on a page makes the quality BLOCKED at the next error analysis, the decision goes to the reflection, and nothing is fetched, selected or extracted from then on |
| `CrawlRounds.BlockedHasCause` | `ingestion/agents/graph.py:495-618` | Nothing else does: the quality turns BLOCKED only at such an error or by a score |
| `CrawlRounds.ExtractionStep` | `ingestion/agents/graph.py:319-492` | An extraction is scored exactly if it has a page, fetched before or loaded by a strategy that loads again, and is neither empty nor blocked; otherwise the error is of its kind |
| `CrawlRounds.AnalysisStep` | `ingestion/agents/graph.py:590-618` | Error analysis sets BLOCKED for exactly the three blockers |
| `CrawlRounds.DecisionStep` | `ingestion/agents/graph.py:552-587` | A decision counts one attempt and files the error at hand, leaving none |
| `CrawlRounds.FetchStep` | `ingestion/agents/graph.py:179-300` | Where each answer of a fetch leads and which error it leaves |
| `CrawlRounds.SelectionTakesNext` | `ingestion/agents/graph.py:303-316` | Every round tries the next strategy of the sequence |
| `CrawlRounds.ScoreDecides` | `ingestion/agents/graph.py:495-587` | Where each score leads, exactly |
| `CrawlRounds.FinishingOrder` | `ingestion/agents/graph.py:859-862` | The nodes after the loop, in their order |
| `CrawlGraph.AttemptsAreDecisions` | `ingestion/agents/graph.py:552-587` | In every run from any state attempt_no is the number of retry decisions taken so far |
| `CrawlGraph.RunIsBounded` | `ingestion/agents/graph.py:805-864` | Every run stops within a bound in max_attempts alone, and takes at most max_attempts + 1 retry decisions |
| `CrawlGraph.NothingIsStuck` | `ingestion/agents/graph.py:805-864` | Every configuration but the end can go on |
| `HostRateGates.HostRateGate.Decide` | `ingestion/orchestration/host_rate_gate.py:107-132` | Admits exactly if the last stamp in the shared file is at least the spacing old, and otherwise names the next instant |
| `HostRateGates.HostRateGate.RecordCall` | `ingestion/orchestration/host_rate_gate.py:139-149` | The stamp stored is the whole second of the call, and the file holds it at once |
| `HostRateGates.HostRateGate.Attempt` | `ingestion/orchestration/host_rate_gate.py:107-149` | One atomic check and record: admitted exactly if the shared file allows it, recorded exactly if admitted, and the calls stay spaced |
| `HostRateGates.AttemptAll` | `ingestion/orchestration/host_rate_gate.py:107-149` | Main result: any sequence of such attempts, through any gate objects on one file, for any hosts, spacings and instants, keeps all calls to a host spaced, and which gate an attempt went through makes no difference |
| `HostRateGates.AdmittedIsSpaced` | `ingestion/orchestration/host_rate_gate.py:53-54` | Stamps are at least the spacing apart and the real calls more than the spacing less one second, despite truncation |
| `HostRateGates.NextAllowedIsFirst` | `ingestion/orchestration/host_rate_gate.py:121-128` | next_allowed_at is exactly the first admitted instant |
| `HostRateGates.BoundIsTight` | `ingestion/orchestration/host_rate_gate.py:53-54` | The real-time bound cannot be improved |
| `HostRateGates.CallsSpread` | `ingestion/orchestration/host_rate_gate.py:107-149` | k calls to one host span at least k - 1 spacings |
| `RateLimitGovernors.RateLimitGovernor.Decide` | `ingestion/orchestration/rate_limit_governor.py:124-155` | Admits exactly if no cooldown lies ahead and the interval since the last call has passed; otherwise the refusal's reason |
| `RateLimitGovernors.RateLimitGovernor.RecordRateLimited` | `ingestion/orchestration/rate_limit_governor.py:162-185` | Stores a cooldown of the clamped number of seconds from the whole second of now |
| `RateLimitGovernors.EntryAfter` | `ingestion/orchestration/rate_limit_governor.py:157-195` | What calls alone, in any number and for any sources, make of a source's entry |
| `RateLimitGovernors.CooldownIsExact` | `ingestion/orchestration/rate_limit_governor.py:124-195` | After a rate limit at t every instant before floor(t) + secs is refused, whatever is called, and from there on exactly those are admitted where the interval has passed |
| `RateLimitGovernors.CooldownLength` | `ingestion/orchestration/rate_limit_governor.py:33-40` | A readable Retry-After is kept to between a second and a day, and otherwise the cooldown is 15, 30, 60 or 360 minutes by freshness |
| `RateLimitGovernors.RetryAfterIsKept` | `ingestion/orchestration/rate_limit_governor.py:162-185` | A provider that asks for n seconds, at most a day, is left alone for n seconds and called from then on if the interval allows it |
| `RateLimitGovernors.RefusalIs` | `ingestion/orchestration/rate_limit_governor.py:124-155` | A refusal names the cooldown before the interval, and its own reason if it has one |
| `GdeltStrategies.ClimbLadder` | `ingestion/orchestration/gdelt_strategy.py:88-120` | The rungs are tried in order until a reply ends the ladder; without success a cooldown of a quarter of an hour stands, but a fetch that throws leaves none, only the stamp of its call |
| `GdeltStrategies.CollectGdelt` | `ingestion/orchestration/gdelt_strategy.py:47-120` | Main result: a refusal by governor or host gate makes no call and changes nothing in the governor; otherwise every call is announced to the host gate, a run without success refuses everyone until its cooldown ends, and a run that succeeds or is broken off by an exception leaves no new cooldown for the source, only the stamp of its last call |
| `GdeltStrategies.EndsIff` | `ingestion/orchestration/gdelt_strategy.py:100-115` | What ends the ladder: an exception, a success with records, a status 429 or the error provider_rate_limited |
| `GdeltStrategies.SliceIsBounded` | `ingestion/orchestration/gdelt_strategy.py:91` | How many rungs are tried for any max_probes: never more than it says; a negative one drops rungs from the end |
| `StrategyLoops.Settle` | `ingestion/fetch_strategies/strategy_runner.py:78-149` | The branches after one fetch agree with the verdict the attempts call for |
| `StrategyLoops.Iterate` | `ingestion/fetch_strategies/strategy_runner.py:66-154` | Main result: the loop returns the run the surroundings determine: every attempt is what its predecessors call for, within the budget and after its backoff, and the status is the verdict that stopped it |
| `StrategyLoops.RunFetchStrategyLoop` | `ingestion/fetch_strategies/strategy_runner.py:27-154` | Cache hit and persisted cooldown make no attempt; a call is recorded exactly on success, a rate limit exactly when one ended the loop |
| `StrategyLoops.RunIsUnique` | `ingestion/fetch_strategies/strategy_runner.py:66-154` | The description of a run admits one result only |
| `StrategyLoops.StatusFits` | `ingestion/fetch_strategies/strategy_runner.py:66-154` | Never more fetches than the budget, and the status is read off the last attempt |
| `StrategyLoops.OnlyTheLastDecides` | `ingestion/fetch_strategies/strategy_runner.py:98-130` | A success or a blocker can only be the last attempt |
| `StrategyLoops.SelectionMovesOn` | `ingestion/fetch_strategies/strategy_selection.py:24-80` | Selection never stays at or goes back before the current strategy, with selenium after the end of the sequence |
| `StrategyLoops.StrategiesAscend` | `ingestion/fetch_strategies/strategy_runner.py:98-149` | Up to selenium strategies strictly ascend, except for a repeat after a rate limit while the 429 counter is below its allowance |
| `StrategyRules.EachAttemptFollows` | `ingestion/fetch_strategies/strategy_selection.py:24-80` | In every run each attempt follows from the one before: the same strategy after a rate limit; the browser after an empty plain fetch; selenium after the last browser strategy, if ready and preferred or all four failed; otherwise the next in the sequence, no browser for a feed |
| `StrategyRules.ExhaustedMeansNothingNext` | `ingestion/fetch_strategies/strategy_selection.py:24-80` | A run stops exhausted within its budget only where no strategy is next |
| `StrategyRules.DelaysMultiply` | `ingestion/core/retry_policy.py:60-62` | The first wait is the initial delay and every later one the base times the one before, up to the maximum |
| `StrategyLoops.RepeatsAreBounded` | `ingestion/fetch_strategies/strategy_runner.py:103-110` | A strategy is tried at most one time more than max_retries_on_429 before selenium |
| `StrategyLoops.DelaysGrow` | `ingestion/core/retry_policy.py:60-62` | Backoff delays never shrink and stay below the maximum |
| `StrategyLoops.DefaultBackoffSum` | `ingestion/core/retry_policy.py:60-62` | Under the default backoff a run of n attempts waits the sum of min(2^k, 30) for k from 1 to n - 1 |
| `ProductionStates.DerivedStatesAreCoherent` | `ingestion/orchestration/production_state.py:222-346` | Every derived state is concrete, is ready exactly if schedulable, a dead end exactly if in the dead-end set, and carries a deadline only in the states that wait |
| `ProductionRules.HealthFirst` | `ingestion/orchestration/production_state.py:256-279` | A source switched off is excluded, and a quarantine, cooldown or block in its health decides before memory and profile, with its deadline |
| `ProductionRules.ReadyIff` | `ingestion/orchestration/production_state.py:281-340` | With silent health: exactly which memory or profile makes a source ready, degraded or a community preview |
| `ProductionRules.RateLimitedIff` | `ingestion/orchestration/production_state.py:281-312` | ... exactly which makes it rate limited, with the resume time of the memory for a deadline |
| `ProductionRules.WaitingIff` | `ingestion/orchestration/production_state.py:281-332` | ... exactly which makes it wait for an API or a contract |
| `ProductionRules.OperatorIff` | `ingestion/orchestration/production_state.py:281-346` | ... exactly which sends it to an operator |
| `ProductionRules.ExcludedIff` | `ingestion/orchestration/production_state.py:281-332` | ... exactly which excludes it or makes it useless |
| `ProductionRules.BlockedIff` | `ingestion/orchestration/production_state.py:281-332` | ... exactly which blocks it |
| `ProductionRules.RunsIff` | `ingestion/orchestration/production_state.py:349-401` | A source runs exactly if its state is one of the three ready ones, or it is held by a rate limit or cooldown whose deadline can be read and has passed |
| `ProductionRules.StrategyIs` | `ingestion/orchestration/production_state.py:398-401` | It runs the strategy that succeeded, else the one preferred next, else the one of the profile; blank ones do not count |
| `ProductionRules.PolicyGivesTime` | `ingestion/orchestration/production_state.py:188-202` | A policy that names a time gives it, stripped |
| `ProductionRules.EvidenceGivesTime` | `ingestion/orchestration/production_state.py:188-202` | Otherwise the first stamp after next_resume_at= in the evidence does |
| `RunPlans.Judge` | `ingestion/orchestration/production_scheduler.py:106-163` | The verdict on one profile is right: due exactly if it passes every gate, else the reason of the first gate that fails; it raises exactly if a deadline without an offset is reached |
| `RunPlans.VerdictIsUnique` | `ingestion/orchestration/production_scheduler.py:106-163` | That description admits one verdict only |
| `RunPlans.BuildRunPlan` | `ingestion/orchestration/production_scheduler.py:80-188` | Main result: the plan is assembled from those verdicts in input order, cut by max_sources as Python slices do, with reasons, strategies and category counts |
| `RunPlans.PlanConserves` | `ingestion/orchestration/production_scheduler.py:165-176` | Every profile is handed on once, category counts add up to the skipped sources, a cap is respected |
| `RunPlans.CapIs` | `ingestion/orchestration/production_scheduler.py:165-171` | How many sources stay due under any max_sources, negative ones included |
| `RunPlans.OneReasonEach` | `ingestion/orchestration/production_scheduler.py:106-171` | With distinct ids a source is in exactly one half; skipped with the first failing gate's reason, or passing every gate and deferred by the cap |
| `RunPlans.CategoriesFollowGates` | `ingestion/orchestration/production_scheduler.py:59-77` | The category read off the reason text is that of the gate, for every gate, state and text inside the reason: a source held by a rate limit counts as a cooldown and never as a dead end, and only a missing state and the cap count as other |
| `RunPlans.RateLimitEndsByItself` | `ingestion/orchestration/production_state.py:188-219` | A rate-limited memory with resume time T, with nothing else in the way, is due exactly from T on if T carries an offset; without one the plan raises from T on, unreadable it never resumes |
| `RunPlans.OffsetFreeStopsThePlan` | `ingestion/orchestration/production_state.py:188-219` | One source with the policy respect_cooldown_until:2024-05-01T00:00:00 stops the plan for all sources from that instant on |
| `SourceHealths.RetryListIsTheSkipsComplement` | `ingestion/core/source_health.py:174-225` | For a source that cools down or is quarantined, due for retry is exactly not skipped at the same instant |
| `SourceHealths.HealthStore.CollectionProbe` | `ingestion/fetch_strategies/collection_probe.py:25-63` | A gated probe neither reaches the network nor changes the store; an admitted one records its outcome |
| `SourceHealths.HealthStore.Gate` | `ingestion/fetch_strategies/collection_probe.py:183-211` | What the gate answers for each kind of state |
| `SourceHealths.HealthStore.ListDueForRetry` | `ingestion/core/source_health.py:207-225` | Exactly the sources due, or an exception if some deadline carries no offset |
| `SourceHealths.HealthFollowsHistory` | `ingestion/core/source_health.py:90-171` | Over any run from any store the failure count is the failing outcomes since the last success, deferrals and plain rate limits not counted, and the kind follows from the last outcome |
| `SourceHealths.DeadlineIs` | `ingestion/core/source_health.py:90-171` | Only a rate limit and a quarantine carry a deadline: the one the provider gave, and six hours after the failure |
| `SourceHealths.SkippedIff` | `ingestion/core/source_health.py:174-195` | Which states are skipped, until when, and when the comparison raises |
| `SourceHealths.QuarantineIsEarned` | `ingestion/core/source_health.py:143-157` | QUARANTINED implies at least three failures since the last success |
| `SourceHealths.TerminalIsAbsorbing` | `ingestion/fetch_strategies/collection_probe.py:183-211` | A blocked or deferred source keeps its state under any unforced probes and none of them reaches its network |
| `SourceHealths.QuarantineLasts` | `ingestion/core/source_health.py:147-157` | A source just quarantined is admitted again exactly from six hours after the whole second of the failure |
| `EventQueues.EventQueue.Enqueue` | `ingestion/pipeline/event_queue.py:75-80` | Appends one record; keys the item brought along win |
| `EventQueues.EventQueue.Dequeue` | `ingestion/pipeline/event_queue.py:82-97` | Hands out and marks the first count pending records, or fails and changes nothing if a line cannot be read |
| `EventQueues.EventQueue.Peek` | `ingestion/pipeline/event_queue.py:99-111` | Shows the first pending records without change; it fails exactly if a line it reads cannot be read |
| `EventQueues.EventQueue.MarkDone` | `ingestion/pipeline/event_queue.py:113-125` | Marks every record with the id, and no other |
| `EventQueues.ClaimTakesTheFront` | `ingestion/pipeline/event_queue.py:82-97` | Refinement of a FIFO queue: a claim takes the front |
| `EventQueues.ClaimLeavesTheRest` | `ingestion/pipeline/event_queue.py:82-97` | ... and leaves the rest in its order |
| `EventQueues.EnqueueJoinsTheEnd` | `ingestion/pipeline/event_queue.py:75-80` | ... an item without reserved keys joins the end |
| `EventQueues.OwnStatusWins` | `ingestion/pipeline/event_queue.py:75-80` | An item with a status other than pending is stored but never waits |
| `EventQueues.OwnIdWins` | `ingestion/pipeline/event_queue.py:75-80` | An item with an id of its own is marked by that id, not by the one that enqueue returned |
| `EventQueues.MarkingRemoves` | `ingestion/pipeline/event_queue.py:113-125` | ... and mark_done takes out exactly the records of its id |
| `EventQueues.PeekPreviews` | `ingestion/pipeline/event_queue.py:99-111` | peek(n) previews dequeue(n) exactly for n >= 1 or an empty queue: peek(0) shows a record |
| `EventQueues.DeliveriesAreInTurn` | `ingestion/pipeline/event_queue.py:75-125` | Over every run deliveries follow the order of enqueueing and no record is delivered twice |
| `EventQueues.RunOps` | `ingestion/pipeline/event_queue.py:75-125` | A queue object taken through any sequence of enqueue, dequeue and mark_done holds the file of that run and hands out, in order, the records at its delivered places |
| `EventQueues.StatusesMoveForward` | `ingestion/pipeline/event_queue.py:75-125` | Every step keeps place, id and payload and moves statuses only forward |
| `EventQueues.NothingIsLost` | `ingestion/pipeline/event_queue.py:75-125` | pending + processing + done equals enqueued, for items without reserved keys |
| `EventQueues.OneBadItemStopsTheQueue` | `ingestion/pipeline/event_queue.py:79-96` | The file stays readable exactly as long as no item carried U+0085, U+2028 or U+2029, which JSON leaves unescaped and splitlines splits at; after that every claim and mark fails |
| `EventQueues.OtherTextIsHarmless` | `ingestion/pipeline/event_queue.py:79-96` | Items without those three characters never stop it |
| `EventQueues.LineSeparatorStopsTheQueue` | `ingestion/pipeline/event_queue.py:79-96` | One item holding U+0085, U+2028 or U+2029 behind any plain item: the next claim and the next mark fail |
| `CardTexts.PartIsUnmarked` | `agents/nodes/baselines.py:82-92` | No part of a sentinel-free text holds a sentinel |
| `CardTexts.JoinIsUnmarked` | `agents/nodes/baselines.py:173-180` | Joining after a sentence end makes no sentinel |
| `CardTexts.SummaryBaseline` | `agents/nodes/baselines.py:166-181` | The loop computes the specified summary |
| `CardTexts.SummaryIsUnmarked` | `agents/nodes/baselines.py:166-181` | Splitting, joining and truncating a sentinel-free text never makes a sentinel |
| `CardLaws.SummaryIsBeginning` | `agents/nodes/baselines.py:166-181` | The summary of a text that is not blank is a beginning of that text, whitespace aside, of at most 280 characters, and all of a text of at most 280: nothing is invented |
| `CardLaws.SummaryOfBlank` | `agents/nodes/baselines.py:168-169` | A blank text has its title for a summary, or says that it has no content |
| `CardLaws.SentenceEndsAtMark` | `agents/nodes/baselines.py:172` | The first sentence ends at the first full stop, exclamation mark or question mark, if whitespace follows |
| `CardLaws.NoMarkNoEnd` | `agents/nodes/baselines.py:172` | A text without such a mark is one sentence |
| `PublishGates.ExtractEntities` | `agents/nodes/baselines.py:98-129` | The loop keeps the accepted phrases, first spelling first, until there are eight |
| `PublishGates.EntityListIsSound` | `agents/nodes/baselines.py:98-129` | At most eight entities, no two alike but for case, each an accepted phrase of a match |
| `CardLaws.OneWordIsEntity` | `agents/nodes/baselines.py:98-129` | A single word is an entity unless it is a stop word, noise, or shorter than four letters and no acronym |
| `CardLaws.EntityListIsComplete` | `agents/nodes/baselines.py:98-129` | A list of fewer than eight entities misses no accepted phrase, case aside |
| `CardLaws.TrimsExactly` | `agents/nodes/baselines.py:106` | What is taken off the ends of a match: spaces, full stops, hyphens and ampersands |
| `PublishGates.EntitiesAreUnmarked` | `agents/nodes/baselines.py:98-129` | No entity holds a sentinel |
| `PublishGates.ImpactHasNoBracket` | `agents/nodes/baselines.py:152-163` | The baseline impact text holds no bracket, so no sentinel |
| `CardLaws.ImpactNamesSectors` | `agents/nodes/baselines.py:152-163` | The baseline impact names every sector and says that nothing was assessed |
| `PublishPipelines.PublishOrHold` | `agents/nodes/publish_or_hold.py:29-69` | The card is published exactly if no corroboration is required, the fact check passed, evidence is grounded, the body is not blank and no field it reads is marked |
| `PublishPipelines.FactCheckPassesIff` | `agents/nodes/fact_check.py:9-38` | Fact check and corroboration together say exactly what can be checked before the run |
| `PublishPipelines.CardIsUnmarked` | `agents/nodes/final_writer.py:10-54` | Whatever the model answers, the card of a sentinel-free text has no sentinel in summary, impact and entities |
| `PublishPipelines.RunPipeline` | `agents/graphs/event_processing_graph.py:23-75` | Main result: the card is published exactly if the event needs no corroboration, its text is not blank and shows none of the four sentinels, its URL is valid and, where checked, reachable, and the model, where asked, did not object; summary, impact, entities, evidence and title of the card are those of the nodes, a model answer counting only if it shows no sentinel |
| `PublishPipelines.PublishedTitle` | `agents/nodes/parse_source.py:12-15` | The title of a publishable event is empty, so shown as the sentinel "[no title]", exactly if its first eighty characters are blank; the gate does not look at the title |
| `PublishPipelines.TitleGoesMissing` | `agents/nodes/final_writer.py:42-44` | Eighty spaces before a plain sentence are such an event |
| `ExtractedTexts.ParseExtractedText` | `ingestion/orchestration/artifact_parser.py:370-398` | The loop computes the specified candidate with its canonical URL, or raises where canonicalising the URL does |
| `ExtractedTexts.SplitsExactly` | `ingestion/orchestration/artifact_parser.py:374` | A text is cut into lines at the ten line ends of str.splitlines |
| `Texts.StripsExactly` | `ingestion/orchestration/artifact_parser.py:376-388` | What str.strip takes off header names and values: the whitespace of ASCII and Unicode, and no other character |
| `ExtractedTexts.PrintedReads` | `ingestion/core/artifact_store.py:56-66` | Any plain header lines before a separator and any body, with or without separator lines in it, read back as printed |
| `ExtractedTexts.RoundTrip` | `ingestion/core/artifact_store.py:46-68` | Parsing a printed artifact gives back title, URL, time and body, stripped, blank ones missing, with the URL in canonical form, for one-line header values and any body, exactly unless the stripped URL has an http scheme, a host and a port that cannot be read: then the parser raises |
| `ExtractedTexts.RaisesIff` | `ingestion/orchestration/canonical_url.py:86-96` | Canonicalising raises for exactly those URLs, because the port is read outside the try |
| `ExtractedTexts.UnreadablePortLosesTheArticle` | `ingestion/orchestration/artifact_parser.py:392-397` | Any host with any port text that is not blank and no number up to 65535 makes such a URL, and title, time and body are lost with it |
| `ExtractedTexts.BigPortLosesTheArticle` | `ingestion/orchestration/artifact_parser.py:392-397` | One of them is http://h:99999 |
| `ExtractedTexts.TitleCanEndTheHeader` | `ingestion/orchestration/artifact_parser.py:375-391` | A title that ends in a separator line loses URL and time |

## Left out

- HTTP, browsers, Redis, PostgreSQL, the language model, files and the clock: parameters, or a value that a file would hold. JSON text is not modelled except for the line breaks that matter to the event queue.
- SHA digests, regular expressions, Unicode lower-casing and normalisation, ISO and HTTP date parsing: parameters with the laws a theorem needs. Lower-casing acts on single characters, so the word-final sigma is not modelled.
- URLs: the authority is ASCII without brackets, so no IPv6 hosts and no internationalised host names; urlsplit's other checks are not part of this model.
- CanonicalUrlAgain.FixedPointIff: does not speak of URLs that make the normaliser raise, such as an unreadable port.
- Time parsing is a total function of the text. An offset at the very edge of the calendar (0001-01-01T00:00:00+05:00) makes normalize_time raise OverflowError, which leaves the dedup and the clustering as an exception; that is not modelled.
- Record fields are strings or missing; values of other types that the source would print are not modelled.
- CrawlGraph.StrategiesAreFresh: assumes a non-empty sequence of distinct strategies, as the graph's default is; with repeated strategies the last one can be tried again. The same holds for CrawlGraph.RetryDecisionIff; the other results on the graph are about every run from any state.
- Crawl graph: which URL is fetched, what is extracted and how quality is scored are answers of the surroundings.
- HostRateGates.AttemptAll: assumes no other loop acts between check and record; the source says that this window remains.
- GdeltStrategies.CollectGdelt: says nothing about the spacing of the later ladder steps towards other loops, since the gate is asked only on entry; the sleep between steps is left out.
- RateLimitGovernors: saving and loading the state file, and detect_rate_limit_signal.
- StrategyLoops.StrategiesAscend: stops at the first selenium attempt, because the policy's next_strategy restarts the sequence after it; from there on only the budget bounds the loop.
- Strategy loop: sleeping on a 429, elapsed times and the cache are left out; the delays an attempt waits are part of it.
- Run planner: the terminal reason's text and the seconds in a governor's refusal stand for any text in RunPlans.CategoriesFollowGates; run_id, created_at and mode names are left out. evaluate_quarantine is not part of this model.
- SourceHealths.HealthStore.ListDueForRetry: gives the set of sources, not the store's order.
- Source health: the stores' files and the reason texts.
- Event queue: the Redis backend. UUIDs are given, not drawn.
- Publishing: sector mapping, past context and the SSRF-safe reachability check are answers of the surroundings; the structural URL check is a parameter; the word lists for entities are parameters.
- ExtractedTexts.RoundTrip: header values are strings of one line, which ExtractedTexts.TitleCanEndTheHeader shows to be needed; a missing value prints as the text None and is not modelled. It is about texts: reading the file in text mode turns a "\r\n" or "\r" in a body into "\n", which is not part of this model. Only URLs inside the URL model are covered.
- Source adapters, vendor routes, report writers, audits, monitoring, runners, frontend and backend wiring: they would add only easy members.
