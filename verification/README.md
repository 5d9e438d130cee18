# ZeroProof: a verified model of its decision cores

ZeroProof watches a UniFi network: a backend infers which networks may reach each other, keeps a
configuration change log, matches traffic against threat feeds, merges test results sent in chunks by
ESP32 probes, de-duplicates vulnerability findings and offers upgrades that a sidecar installs. This
project models the parts of it that are hard to get right, in Dafny, and proves what they are for.

| area | files |
|---|---|
| Firewall topology and its consumer | `Topology`, `TopologyCompiler`, `TopologyPass`, `PrioritySort`, `Reachability`, `TopologyVerdict` |
| Canonical JSON and the change log | `JsonValue`, `StableStringify`, `ConfigChange` |
| Chunked result transport | `Utf8`, `ChunkTransport` |
| Stored test results | `ResultsJson`, `ResultsRecord`, `ResultsRace` |
| Updater run machine | `UpdaterRun` |
| Detectors | `Identity`, `Paging`, `Grouped`, `Corroboration`, `CorroborationPass`, `CorroborationMeaning`, `IocMatch`, `IocMatchPass`, `IocMeaning` |
| Release tags | `ReleaseTags`, `TagGrammar`, `UpdateStatus` |
| Vulnerability de-duplication | `Endpoints`, `VulnDedup`, `VulnRace`, `VulnStore`, `VulnMeaning` |
| Honeypot firmware | `HoneypotPorts`, `HoneypotService`, `HoneypotLog` |
| Subnet arithmetic | `Subnet` |
| Shared helpers | `Wrappers`, `Text` |

Each area has a declarative half, saying what the result means, and the program: methods with the
loops, tables and fields of the source, proved against it. Loops over query results use keyset cursors
("id greater than the last one seen") over an unchanged table and hold for every page size. Where a
proof has to carry a large definition through several loops, the definition is passed as a ghost
function value (a "reading") that the loops treat as a symbol.

`TopologyVerdict`, `CorroborationMeaning`, `IocMeaning`, `ResultsRecord`, `TagGrammar` and `VulnMeaning` say the
same results once more on the columns, texts and numbers of the source, without the specification's own predicates.

## What turned out not to hold as promised

Each has a failing input and the exact condition under which the promise is kept.

- Pair keys `src:dst` coincide exactly when one source id, a colon and a remainder make the other source id,
  the remainder running on into the destination (`SameKeyIff`). Where two pairs of networks meet so, some
  configuration of these networks has no right pair table at all (`MeetingKeysFail`; ids "a", "b:c", "a:b", "c":
  `MeetingKeysInstance`). Where none do, and only ids are unique, the topology results hold (`BuildConnections`);
  ids without colons never meet (`ColonFreeKeysApart`). The evaluator is right about two ids exactly when they
  are two LAN networks or share no key with such a pair (`DecisionTellsTheTruth`).
- The ACL baseline is seeded under `_id` or `id`, while diffs are kept under `_id`. A rule {"id": "x"} that
  never changes gets a creation that no diff knows (`SeedUnderAnotherIdCounterexample`). A seed over a snapshot
  keeps its meaning exactly when each seeded id finds, in the id map, the last rule seeded under it
  (`SeedKeepsMeaningIff`), and a whole log replays to the last snapshot exactly when no other seed was left
  untouched by later diffs (`RecordHistory`). Both hold when every rule with an `id` has an `_id`
  (`ProperlyKeyedSeedsAgree`, `ProperlyKeyedNeverStray`).
- The device cuts the payload at byte offsets and the backend decodes each chunk as text, so a character
  whose bytes straddle a cut is garbled (`StraddlingIsGarbled`). What is assembled equals what was sent
  exactly when no chunk after the first starts inside a character (`TransportDelivers`, `CleanCutsIff`).
- `mergeJson` is not associative (`MergeNotAssociative`); it is exactly when, wherever the three operands hold
  record, non-record and record, the third subsumes the first, so that merging it over the first leaves just the
  third (`MergeAssociativeIff`).
- The tag comparison is not transitive with leading zeros (`LeadingZeroCounterexample`). Between identifier lists
  that have none, a list can be compared through exactly when it has none either (`PassesThroughIffClean`; this
  is about lists of identifiers, of which tags carry one). The comparison is SemVer precedence on all valid tags
  exactly when the locale orders text identifiers by code unit (`FollowsSemverIffAscii`); with "alpha" before
  "Beta" it is not (`LetterCaseCounterexample`).
- Test results are read, rebuilt and written with other handlers in between. An empty delivery never erases
  results if each write directly follows its read (`ResultsFollowDeliveries`, `UndisturbedDelivers`), but the
  timeout's, read before the results arrive and written after, does (`TimeoutErasesResults`). The stored results
  are the last nonempty list written, throughout a run, exactly when nothing without results is written from a
  reading that a different list has overtaken (`ResultsFollowIff`), and what is stored is safe from empty
  deliveries exactly when no handler holds a reading with other results (`ResultsLastIff`).
- De-duplication, taken one finding at a time, keeps at most one open record per configuration, endpoint and
  source when batches all carry a configuration or none does (`SteadyRunsStayUnique`). When they are mixed it
  does so exactly if resources naming one endpoint mention the same endpoints of the pool
  (`MixedRunsStayUniqueIff`); a source network named like another target's address is enough to fail
  (`NetworkNamedLikeAnAddress`).
- Findings are not processed in one step: other batches and operators write between a batch's reads and writes.
  At most one record stays live, whatever the findings and the interleaving, exactly when no two batches can
  reach the same records: all carry a configuration, no two the same, or there is only one batch
  (`UniqueIffApart`). Two batches of one configuration that search before either writes both create a record and
  then acknowledge each other's, so that none is left open (`RaceLeavesNoneOpen`). Batches of one configuration
  are safe as long as nobody else writes the records concerned between a batch's read and its write
  (`UninterruptedStaysUnique`), and undisturbed processing is the one-step machine (`UndisturbedIsAtomic`).
- An operator's note lasts exactly when no batch holds a reading of the record from which it would overwrite the
  note (`NoteStaysIff`; lost otherwise, `EditInBetweenIsLost`), and likewise a settled record (`StaysSettledIff`).
- An acknowledged record can be reopened by automation exactly when it carries no note, or the automatic
  one, and some finding other than a policy opening can match it (`ReopenableIffUnsettled`). This is about the
  function: its producers give fewer findings, and never a breach titled as an opening.
- The two subnet forms differ at /0 (`FormsAgreeIff`).

## Model

| member | source | states |
|---|---|---|
| TopologyCompiler.SameKeyIff | backend/src/services/topologyAnalyzer.ts:508 | Two pairs of ids share a table key exactly when they are the same pair, or one source and a colon begin the other source, whose remainder runs on into the destination |
| TopologyCompiler.ColonFreeKeysApart | backend/src/services/topologyAnalyzer.ts:508 | Networks whose ids have no colon never share a key |
| TopologyPass.MeetingKeysFail | backend/src/services/topologyAnalyzer.ts:508-865 | Whenever two pairs of networks share a key, no pair table yields right connections for the configuration whose one policy blocks the first of them |
| TopologyPass.MeetingKeysInstance | backend/src/services/topologyAnalyzer.ts:508-865 | Four networks with unique ids for which that happens |
| TopologyCompiler.InitPairs | backend/src/services/topologyAnalyzer.ts:510-545 | After initialisation every ordered pair of distinct networks has one undecided entry, marked isolated exactly when either network or an ACL entry isolates it |
| TopologyCompiler.AclLookup | backend/src/services/topologyAnalyzer.ts:491-523 | The per-source lookup answers exactly whether some L3 ACL entry blocks the pair |
| TopologyCompiler.FirstHitOutranks | backend/src/services/topologyAnalyzer.ts:571-663 | In a ranked order, the first covering rule outranks every other covering rule |
| TopologyCompiler.ApplyHit | backend/src/services/topologyAnalyzer.ts:630-662 | Applying one rule to all pairs it covers turns a table that means a list of rules into one that means the list with that rule appended |
| TopologyPass.FindNetwork | backend/src/services/topologyAnalyzer.ts:589-600 | A network reference resolves to the first network of that name or id, or to nothing |
| TopologyPass.ResolveNetworkFromGroup | backend/src/services/topologyAnalyzer.ts:549-568 | A firewall group resolves to exactly the networks its members denote by id, subnet or name |
| TopologyPass.ResolveSide | backend/src/services/topologyAnalyzer.ts:587-629 | One side of a rule resolves to exactly the networks the rule selects, widened to all when only private ranges are named |
| TopologyPass.ApplyRules | backend/src/services/topologyAnalyzer.ts:571-663 | The pass over enabled LAN rules, sorted stably by index, leaves the table meaning that list of rules |
| TopologyPass.ApplyPolicies | backend/src/services/topologyAnalyzer.ts:667-743 | The pass over user policies extends the table's meaning by the sorted policies, after every rule |
| TopologyPass.FirstHitDecides | backend/src/services/topologyAnalyzer.ts:571-743 | The first hit of the program's order is the rule that decides a pair: covering, and outranked by no covering rule |
| TopologyPass.DecisionUnique | backend/src/services/topologyAnalyzer.ts:571-743 | At most one rule or policy decides a pair |
| TopologyPass.ConnectMeans | backend/src/services/topologyAnalyzer.ts:805-865 | The connection emitted for a pair allows it exactly when neither direction is isolated and the deciding rule, if any, permits it; isolation and bidirectionality are symmetric |
| TopologyPass.BuildConnections | backend/src/services/topologyAnalyzer.ts:470-868 | For networks with unique ids that share no key, the whole pass emits exactly one connection per ordered pair of distinct networks, each meaning what the configuration says |
| TopologyVerdict.RuleCoversIff | backend/src/services/topologyAnalyzer.ts:575-643 | A rule covers a pair of networks exactly if it is an enabled rule of a "lan" ruleset whose sides hold the two: by reference to the first network of that name or id, by a group member that is the id, subnet or name, or, where a side names nobody, by one of four private-range texts in the rule |
| TopologyVerdict.PolicyCoversIff | backend/src/services/topologyAnalyzer.ts:667-719 | A policy covers a pair exactly if it is enabled, not predefined, lists networks on some side, and each side lists the network or says ANY |
| TopologyVerdict.RuleVerdict | backend/src/services/topologyAnalyzer.ts:571-640 | The covering rule of least index, the earlier listed of equals, makes the connection allowed exactly if its action is "accept" and isolation does not block it, decides the block reason, and heads the list |
| TopologyVerdict.PolicyVerdict | backend/src/services/topologyAnalyzer.ts:667-735 | Where no rule covers the pair, the covering policy of least index does so with the action "allow" in any case |
| TopologyVerdict.DefaultVerdict | backend/src/services/topologyAnalyzer.ts:805-850 | A pair that nothing covers is allowed by default exactly if isolation does not block it |
| TopologyVerdict.SomethingIsFirst | backend/src/services/topologyAnalyzer.ts:571-743 | One of these cases applies to every covered pair |
| TopologyVerdict.IsolationVerdict | backend/src/services/topologyAnalyzer.ts:510-545 | A connection is blocked by isolation exactly if one of its networks isolates itself or an ACL entry blocks either direction, and then it is not allowed |
| TopologyVerdict.BothWays | backend/src/services/topologyAnalyzer.ts:805-850 | A connection is bidirectional exactly if the opposite one has the same verdict |
| TopologyVerdict.ListShows | backend/src/services/topologyAnalyzer.ts:640-660 | Every entry of a connection's list shows the name, action and index of its rule or policy, with the defaults for missing ones |
| Reachability.EvidenceIsTruthful | backend/src/services/reachabilityPolicyService.ts:306-353 | Evidence carries the right verdict, is explicit exactly when isolation or a rule decided, gives the reason that applies, quotes the deciding rule exactly when a rule decided, and never uses the "inferred" sentences |
| Reachability.BuildEffectiveReachabilityMap | backend/src/services/reachabilityPolicyService.ts:279-362 | The map holds one truthful evidence for every ordered pair of LAN networks and nothing else |
| Reachability.DecisionTellsTheTruth | backend/src/services/reachabilityPolicyService.ts:172-277 | A decision reports a conflict exactly when a known intent contradicts what the configuration does, follows the intent when there is one and the configuration otherwise, and has the source and confidence that belong to the case - exactly when the ids are two LAN networks or are not mistaken for two others |
| Reachability.RemovingShadowedRule | backend/src/services/topologyAnalyzer.ts:571-663 | Removing a rule whose every pair is covered by an earlier rule changes no pair's verdict |
| Reachability.RemovingShadowedRuleKeepsDecisions | backend/src/services/reachabilityPolicyService.ts:172-277 | ... and no evaluator decision, for any intent and any ids |
| Reachability.IsolationOnlyCloses | backend/src/services/topologyAnalyzer.ts:805-865 | Adding isolation flags or ACL entries never allows a pair that was blocked |
| PrioritySort.StableSort | backend/src/services/topologyAnalyzer.ts:571-573 | The sorted list is a strictly increasing listing, by key and then list position, of the same positions |
| PrioritySort.SortedByKey | backend/src/services/topologyAnalyzer.ts:572-574 | Of two positions in the sorted list the earlier has the lower key, or the same key and comes first in the unsorted list |
| Text.LessTotal | backend/src/services/configChangeService.ts:15 | The order of keys, by UTF-16 code unit, compares any two different texts one way only |
| Text.TrimCuts | backend/src/detectors/identity.ts:28-30 | Trimming cuts white space off both ends, all of it, and nothing else |
| Text.LowerIsLower | backend/src/services/topologyAnalyzer.ts:576-579 | Lower-casing leaves no capital and changes nothing but letter case |
| StableStringify.SortKeysAscends | backend/src/services/configChangeService.ts:15 | Sorting lists the same keys in strictly ascending order |
| StableStringify.AscendingUnique | backend/src/services/configChangeService.ts:15 | Only one ascending listing of a key set exists, so member order cannot show |
| StableStringify.SameValueSameText | backend/src/services/configChangeService.ts:9-17 | Values equal up to key order at any depth print the same text |
| StableStringify.QuoteReadsBack | backend/src/services/configChangeService.ts:9-17 | A quoted string followed by anything can be read back: same text means same string and same remainder |
| StableStringify.ReadsBack | backend/src/services/configChangeService.ts:9-17 | A printed value followed by anything that can follow a value can be read back |
| StableStringify.SameTextIffSameValue | backend/src/services/configChangeService.ts:9-17 | Two documents print the same text exactly when they are equal with key order ignored |
| ConfigChange.BuildMap | backend/src/services/configChangeService.ts:54-55 | The map keeps, per id, the last resource listed |
| ConfigChange.IdMapHoldsLast | backend/src/services/configChangeService.ts:54-55 | An id is in the map exactly if a resource has it, and is mapped to the last that does |
| ConfigChange.CompareResources | backend/src/services/configChangeService.ts:44-109 | The rows written are exactly one per id that differs, of the right kind and content; the count is their number |
| ConfigChange.SeedBaseline | backend/src/services/configChangeService.ts:116-154 | The baseline is written only when there are rules and no earlier ACL rows, one creation per rule with an id |
| ConfigChange.BaselineTells | backend/src/services/configChangeService.ts:133-153 | The baseline has a creation for every rule with a nonempty seed id, under that id and name, and nothing else |
| ConfigChange.AclKeys | backend/src/services/configChangeService.ts:133-240 | Diffs key an ACL rule by `_id`; seeds by `_id` or else `id`; both name it by `name` or else by their key |
| ConfigChange.DiffReplays | backend/src/services/configChangeService.ts:44-109 | Replaying a diff over the previous snapshot yields the current one, up to canonical equality |
| ConfigChange.DiffUndoes | backend/src/services/configChangeService.ts:60-106 | Reading the rows of a diff backwards over the current map - removing what was created, putting back previous values - yields the previous one, up to canonical equality |
| ConfigChange.RowsTell | backend/src/services/configChangeService.ts:60-106 | A creation is of a new id, a deletion of one that is gone, a modification of one whose value differs; before and after are the two resources, and the name is that of the resource as it is now or last was |
| ConfigChange.DiffEmptyIffSame | backend/src/services/configChangeService.ts:73 | No rows are written exactly when the snapshots agree |
| ConfigChange.ReplayRespectsMeaning | backend/src/services/configChangeService.ts:44-109 | Replaying does not depend on the key order inside the resources |
| ConfigChange.SeedKeepsMeaningIff | backend/src/services/configChangeService.ts:116-154 | Replaying the seeded baseline over a snapshot's map changes nothing exactly when each seeded id finds the last rule seeded under it in the map of the diffs |
| ConfigChange.SeedUnderAnotherIdCounterexample | backend/src/services/configChangeService.ts:133-240 | A rule with `id` and no `_id`, kept unchanged, is seeded under an id the diffs do not have |
| ConfigChange.ProperlyKeyedSeedsAgree | backend/src/services/configChangeService.ts:133-240 | If every rule with an `id` has an `_id`, seeds agree with the map |
| ConfigChange.ProperlyKeyedNeverStray | backend/src/services/configChangeService.ts:133-240 | ... and over a history no seed is left astray |
| ConfigChange.RecordHistory | backend/src/services/configChangeService.ts:160-220 | Over any sequence of snapshots, replaying all rows over the first one's map yields the last one's map exactly when no seed, put under an id where its snapshot has something else, was left untouched by later diffs |
| Utf8.DecodeEncoded | backend/src/mqtt/index.ts:352-391 | Decoding encoded text followed by other bytes gives that text, then the rest |
| Utf8.CutAt | esp32-firmware/src/mqtt_client.cpp:168-172 | Every byte offset falls between characters or inside exactly one of them |
| Utf8.PiecesCount | esp32-firmware/src/mqtt_client.cpp:168-172 | Pieces that begin with the end of a character decode to at least one character for it and one for each character after it |
| Utf8.PiecesDecodeIff | backend/src/mqtt/index.ts:352-391 | Decoding pieces one by one gives the text back exactly when no later piece starts inside a character |
| ChunkTransport.SplitAt | esp32-firmware/src/mqtt_client.cpp:168-172 | Chunk i of the split is the payload from i times the chunk size, and nothing is lost |
| ChunkTransport.PublishChunkedResults | esp32-firmware/src/mqtt_client.cpp:161-200 | The loop sends the chunks of the split in order, numbered, and stops at the first failed publish |
| ChunkTransport.PublishResults | esp32-firmware/src/mqtt_client.cpp:109-159 | Small payloads go out whole, larger ones as the complete split, and a failure is followed by an error message |
| ChunkTransport.MqttService.HandleChunkedTestResults | backend/src/mqtt/index.ts:352-430 | Every buffer summarises the chunks received since it was created; a payload is assembled exactly when they are complete, from the latest text of each index |
| ChunkTransport.MqttService.HandleTestResults | backend/src/mqtt/index.ts:291-293 | Direct results drop the test's buffer and no other |
| ChunkTransport.MqttService.CleanupStaleChunkBuffers | backend/src/mqtt/index.ts:457-466 | A sweep drops exactly the buffers that have been idle too long |
| ChunkTransport.MqttService.OnTimedOutCompleted | backend/src/mqtt/index.ts:244-269 | Once a timed-out running test is completed, its buffer goes and no other, with whatever arrived since the sweep |
| ChunkTransport.AbsorbNext | backend/src/mqtt/index.ts:367-384 | Storing one more chunk keeps the buffer a summary of everything received for it |
| ChunkTransport.JoinSlotsIsJoinLatest | backend/src/mqtt/index.ts:386-391 | Joining the slots is the index-order join of the latest payload per index |
| ChunkTransport.AssembledIsTheSplit | backend/src/mqtt/index.ts:352-391 | For any loss, duplication, reordering, interleaving and stale drops, what is assembled from chunks of one split is that split joined |
| ChunkTransport.AssembledSays | backend/src/mqtt/index.ts:367-404 | The assembled success, error and duration are those of the last buffered message that gives one, and absent if none does; test, device and count are the completing message's |
| ChunkTransport.RepeatedOutcome | esp32-firmware/src/mqtt_client.cpp:174-186 | So an outcome that every chunk repeats, as the firmware's do, is the outcome assembled |
| ChunkTransport.TransportDelivers | esp32-firmware/src/mqtt_client.cpp:161-200 | End to end, the assembled text is the device's text exactly when the cuts are clean |
| ChunkTransport.CleanCutsIff | esp32-firmware/src/mqtt_client.cpp:168-172 | Cuts are clean exactly when no byte at a cut is a UTF-8 continuation byte |
| ChunkTransport.AsciiIsClean | esp32-firmware/src/mqtt_client.cpp:168-172 | ASCII payloads are always delivered intact |
| ChunkTransport.StraddlingIsGarbled | esp32-firmware/src/mqtt_client.cpp:168-172 | A JSON text with a two-byte character across a cut is sent in chunks and put together as another text |
| ChunkTransport.InOrderDeliveryCompletes | backend/src/mqtt/index.ts:386-391 | If every chunk arrives in order, the last one completes the payload |
| ResultsJson.MergeJson | backend/src/services/testRunResultsJson.ts:27-40 | The recursive merge loop computes the merge: patch values win, records are merged field by field |
| ResultsJson.EmptyIsIdentity | backend/src/services/testRunResultsJson.ts:27-40 | The empty record is a two-sided identity |
| ResultsJson.MergeIdempotent | backend/src/services/testRunResultsJson.ts:27-40 | Merging a value with itself changes nothing |
| ResultsJson.MergeAbsorbs | backend/src/services/testRunResultsJson.ts:27-40 | Applying the same patch again changes nothing |
| ResultsJson.SubsumesIff | backend/src/services/testRunResultsJson.ts:27-40 | Merging a patch over a base gives just the patch exactly when every key of the base is already in the patch, at every depth where both hold records |
| ResultsJson.MergeAssociativeIff | backend/src/services/testRunResultsJson.ts:27-40 | Merging is associative exactly when the third operand subsumes the first wherever the three hold record, non-record and record |
| ResultsJson.MergeNotAssociative | backend/src/services/testRunResultsJson.ts:27-40 | Three concrete operands for which it is not |
| ResultsJson.BuildStructuredResultsJson | backend/src/services/testRunResultsJson.ts:72-126 | The statements of the builder compute the stored record |
| ResultsJson.MetadataSettles | backend/src/services/testRunResultsJson.ts:76-92 | The metadata derived from a stored record and the same payload is the metadata already stored |
| ResultsJson.LegacySettles | backend/src/services/testRunResultsJson.ts:42-53 | Metadata from the legacy fields settles after one delivery, whatever mix of legacy and nested fields arrives |
| ResultsJson.RedeliveryIsHarmless | backend/src/services/testRunResultsJson.ts:72-126 | Building again from the stored record with the same payload and patch changes nothing |
| ResultsJson.BuiltResults | backend/src/services/testRunResultsJson.ts:94-126 | `results` always equals `commandResults`, the incoming results unless they are empty |
| ResultsJson.ResultsFollowDeliveries | backend/src/services/testRunResultsJson.ts:72-126 | After any run of deliveries, each read, built and written before the next, the stored results are those of the latest delivery that had any |
| ResultsRecord.ResultSpellings | backend/src/services/testRunResultsJson.ts:55-62 | The results of a payload are the first list found under its three spellings, even an empty one |
| ResultsRecord.ListKept | backend/src/services/testRunResultsJson.ts:89-94 | Evidence and verdicts are the lists that arrive, unless empty; then the stored ones |
| ResultsRecord.ListsFollowDeliveries | backend/src/services/testRunResultsJson.ts:89-111 | After any run of deliveries, evidence and verdicts are those of the latest delivery that had any |
| ResultsRecord.TransportFlag | backend/src/services/testRunResultsJson.ts:96-99 | A transport flag is what the handler says, or else the payload, or else what was stored |
| ResultsRecord.SchemaVersionKept | backend/src/services/testRunResultsJson.ts:101-105 | The schema version is the number that arrives, or else the stored one, or else 2 |
| ResultsRecord.MetadataKey | backend/src/services/testRunResultsJson.ts:42-84 | A metadata key is merged from stored metadata, stored root, arriving metadata and arriving root, in this order, the roots counting for four legacy keys only |
| ResultsRecord.RootKey | backend/src/services/testRunResultsJson.ts:115-124 | Three legacy keys are shown at the root as the metadata has them; a key nothing manages is merged |
| ResultsRecord.MergedValue | backend/src/services/testRunResultsJson.ts:27-40 | A value that is not a record replaces, records merge key by key, an absent value changes nothing |
| ResultsRecord.OtherValuesAreEmpty | backend/src/services/testRunResultsJson.ts:16-22 | Anything that is not a record counts as an empty one |
| ResultsRace.OutcomeResults | backend/src/services/testRunResultsJson.ts:72-142 | What a handler writes lists the results it brings, or else those it has read; a metadata patch brings none |
| ResultsRace.ResultsFollowIff | backend/src/mqtt/index.ts:238-330 | Over any interleaving of handlers the stored results are, throughout, the last nonempty list written, exactly when nothing without results is written from a reading that a different list has overtaken since |
| ResultsRace.ResultsLastIff | backend/src/mqtt/index.ts:238-330 | The results in a row survive all deliveries without results exactly when no handler holds a reading of it with other results |
| ResultsRace.TimeoutErasesResults | backend/src/mqtt/index.ts:238-330 | If the timeout reads before the results are written and writes after, whatever was stored before them is back |
| ResultsRace.UndisturbedDelivers | backend/src/mqtt/index.ts:291-330 | If each write directly follows its read, the record is what delivering one after the other makes it |
| ResultsRace.TestRunRow.FindUnique | backend/src/mqtt/index.ts:299-302 | Reading is one step: the handler holds the record as it is |
| ResultsRace.TestRunRow.UpdateResults | backend/src/mqtt/index.ts:313-330 | Writing is one step: the record is replaced by what the builder makes of the handler's reading |
| ResultsRace.TestRunRow.MergePatch | backend/src/services/testRunResultsJson.ts:128-142 | Likewise for a metadata patch |
| UpdaterRun.StepKeepsInvariant | updater/src/index.ts:244-345 | Every interleaved step keeps every run coherent, one reservation, and children only where a run awaits them |
| UpdaterRun.TraceInvariant | updater/src/index.ts:144-345 | The invariant holds after any sequence of requests, script exits, health answers and file errors |
| UpdaterRun.OneChildAtATime | updater/src/index.ts:144-149 | At most one upgrade child is alive, and never one of a finished run |
| UpdaterRun.OneRunAtATime | updater/src/index.ts:144-149 | An unfinished run is the reserved one |
| UpdaterRun.RollbackOnlyWhenWanted | updater/src/index.ts:262-300 | Automatic rollback starts only in an apply that exited 3, or exited 0 and was not healthy |
| UpdaterRun.ZeroMeansHealthy | updater/src/index.ts:262-300 | A final code of 0 means the script exited 0 and its health wait passed |
| UpdaterRun.RolledBackMeansRecovered | updater/src/index.ts:262-300 | `rolledBack` means the rollback exited 0 and was healthy, and the final code is not 0 |
| UpdaterRun.TraceWitnessed | updater/src/index.ts:244-345 | Everything a run has recorded is backed by an event of the history |
| UpdaterRun.ZeroWasEarned | updater/src/index.ts:262-300 | Behind every final 0 there is a child that ended with 0 and a health answer that was ok |
| UpdaterRun.RunsAreRequested | updater/src/index.ts:144-165 | Over any sequence of events, run i has the operation and target of the i-th request accepted |
| UpdaterRun.StepKeepsOrders | updater/src/index.ts:244-345 | No step changes the operation or target of a run, or drops a run |
| UpdaterRun.ExitCodeReported | updater/src/index.ts:244-345 | The exit code of a finished run: -1 if anything threw; 1 for an apply that exited 3, or exited 0 and stayed unhealthy, and for a rollback that stayed unhealthy; otherwise the script's own |
| UpdaterRun.FaultsAreSeen | updater/src/index.ts:244-345 | A run counts as failed from exactly the events that say so, and its code is then -1 |
| UpdaterRun.RunsFinish | updater/src/index.ts:305-345 | Every step other than a health poll brings its run closer to the end |
| UpdaterRun.Updater.HandleApply | updater/src/index.ts:144-160 | The handler rejects, refuses or starts exactly as the step relation says; the run accepted has the operation asked for and, unless it is a rollback, the target |
| UpdaterRun.Updater.OnOpened | updater/src/index.ts:311-325 | The code after the log is opened takes the step of the machine |
| UpdaterRun.Updater.OnLogClosed | updater/src/index.ts:262-300 | The code after the script's log is closed takes the step of the machine |
| UpdaterRun.Updater.OnWaitOver | updater/src/index.ts:262-300 | The code after a health wait takes the step of the machine |
| UpdaterRun.Updater.Resume | updater/src/index.ts:244-345 | Every resumption of a run is a step of the machine |
| Identity.MatchesIffSpelled | backend/src/detectors/identity.ts:32-39 | The pattern accepts exactly the four spellings of twelve hex digits |
| Identity.SpelledNormalises | backend/src/detectors/identity.ts:32-39 | Every spelling normalises to the colon form of its lower-case digits, placeholders to nothing |
| Identity.SameKeyIffSameDigits | backend/src/detectors/identity.ts:32-39 | Two spellings get the same key exactly when they denote the same digits |
| Identity.NormalizeMacIdempotent | backend/src/detectors/identity.ts:32-39 | Normalising a normalised address changes nothing |
| Identity.RecreationIsIdentity | backend/src/detectors/identity.ts:63-77 | Creating an identity from an identity's own fields gives it back |
| Identity.StoredIdentityParses | backend/src/detectors/identity.ts:63-90 | Every created identity survives being stored and parsed |
| Identity.ParsedIff | backend/src/detectors/identity.ts:79-90 | A stored value is an identity exactly if version, kind and event id are given and every other field is null or usable text |
| Identity.SpacesIgnored | backend/src/detectors/identity.ts:20-46 | White space around a text or an address is not seen, and a blank text counts as absent |
| Paging.AfterCursor | backend/src/detectors/validatedCompromise.ts:99-104 | In a table in id order, the rows with an id greater than the cursor are the rows after the one it names |
| Paging.PageAt | backend/src/detectors/validatedCompromise.ts:97-104 | A page is the next run of rows and a short page is the last |
| Corroboration.FlowContributionDated | backend/src/detectors/validatedCompromise.ts:191-194 | Re-parsing a kept identity compares by the time of the flow it came from |
| Corroboration.RecordReports | backend/src/detectors/validatedCompromise.ts:152-194 | Recording one more match, repeated or not, keeps the map a report: one entry per device, unions, extremes and the identity of a latest flow |
| CorroborationPass.CandidateFrom | backend/src/detectors/validatedCompromise.ts:57-81 | The evidence loop yields exactly the candidate the finding stands for |
| CorroborationPass.IndexByFlow | backend/src/detectors/validatedCompromise.ts:105-112 | The index lists for every flow id exactly the candidates naming it, and each id once |
| CorroborationPass.ChunkIsComplete | backend/src/detectors/validatedCompromise.ts:117-121 | Limiting a chunk's query to the page size never cuts off a flow |
| CorroborationPass.MatchFlow | backend/src/detectors/validatedCompromise.ts:122-140 | A flow is filed under its scope and source once per candidate it matches, and not otherwise |
| CorroborationPass.MatchFlows | backend/src/detectors/validatedCompromise.ts:114-142 | Over all chunks, exactly the matching pairs of candidate and flow are filed, and their scopes listed |
| CorroborationPass.JoinThreat | backend/src/detectors/validatedCompromise.ts:158-197 | A threat is joined with exactly the filed matches of its scope, source and connection |
| CorroborationPass.JoinRows | backend/src/detectors/validatedCompromise.ts:147-200 | The cursor loop joins every threat of the chunk, whatever the page size |
| CorroborationPass.ScopesSuffice | backend/src/detectors/validatedCompromise.ts:144-145 | No corroborating threat lies outside the scopes collected from the matches |
| CorroborationPass.JoinAll | backend/src/detectors/validatedCompromise.ts:96-204 | All loops together record exactly the triples of the relational join |
| CorroborationPass.Evaluate | backend/src/detectors/validatedCompromise.ts:91-204 | The result reports the relational join of findings, flows and threats: one correlation per device, with unions and extremes over its triples, first and last observed within the window |
| CorroborationPass.EvaluateTwice | backend/src/detectors/validatedCompromise.ts:91-204 | The page size is not observable, up to which of several latest flows lends its identity |
| CorroborationPass.NoMixing | backend/src/detectors/validatedCompromise.ts:126-160 | Triples reported under one key share connection and scope |
| CorroborationMeaning.CandidateIff | backend/src/detectors/validatedCompromise.ts:54-80 | A finding is a candidate exactly if it has a typed UniFi identity with connection, scope and source, an IP indicator, a flow and a feed naming the indicator; it carries these and nothing else |
| CorroborationMeaning.JoinedIff | backend/src/detectors/validatedCompromise.ts:114-160 | A finding, a flow and a threat form a triple exactly if the finding names the flow and its destination is the indicator, both events occurred within the window, connection, scope and normalised source address agree, the devices are the same, and the threat is of one of the two prevention kinds |
| CorroborationMeaning.KeySpelt | backend/src/detectors/validatedCompromise.ts:161 | A triple is reported under the flow's connection, scope and hardware address, or source address if it has none |
| CorroborationMeaning.CorrelationLists | backend/src/detectors/validatedCompromise.ts:161-187 | There is a correlation exactly for the devices with triples, listing the findings and threats of just these |
| CorroborationMeaning.CorrelationTells | backend/src/detectors/validatedCompromise.ts:188-189 | ... the categories their threats have and the addresses these came from |
| CorroborationMeaning.CorrelationCites | backend/src/detectors/validatedCompromise.ts:182-185 | ... and as evidence their flows, their threats and the feeds that listed the indicators |
| CorroborationMeaning.CorrelationSpans | backend/src/detectors/validatedCompromise.ts:175-196 | First and last observed are the extremes of their times, and the identity is that of a latest flow |
| Grouped.Update | backend/src/detectors/validatedCompromise.ts:160-185 | Replacing one key's entry by one that covers a new contribution keeps a table with one entry per key |
| IocMatch.MergeReports | backend/src/detectors/iocMatch.ts:49-119 | Merging one more piece keeps one finding per fingerprint with maximal severity, extreme times, newest identity, unions and distinct-event count |
| IocMatch.MergedKeepsNewest | backend/src/detectors/iocMatch.ts:82-92 | The kept identity is that of the greatest time, ties broken by event id |
| IocMatch.MergedAllReports | backend/src/detectors/iocMatch.ts:49-119 | Any run of matches, in any order and with any repetitions, is reported |
| IocMatch.OrderIrrelevant | backend/src/detectors/iocMatch.ts:49-119 | Two runs over the same matches give the same findings, up to the order evidence is listed in |
| IocMatchPass.GroupHits | backend/src/detectors/iocMatch.ts:52-59 | Hits are grouped by listed indicator, in order, skipping hits of the other kind |
| IocMatchPass.AppendEvidence | backend/src/detectors/iocMatch.ts:94-105 | Evidence items are appended unless seen, and the event counter rises exactly for a new event |
| IocMatchPass.MergePiece | backend/src/detectors/iocMatch.ts:61-118 | The statements for one indicator compute the merge |
| IocMatchPass.MergeFinding | backend/src/detectors/iocMatch.ts:49-119 | One match merges exactly its pieces |
| IocMatchPass.ScanRow | backend/src/detectors/iocMatch.ts:145-164 | A memoised lookup gives what a fresh lookup would |
| IocMatchPass.ScanTable | backend/src/detectors/iocMatch.ts:130-168 | The cursor loop merges every row's pieces, whatever the page size |
| IocMatchPass.PiecesConsistent | backend/src/detectors/iocMatch.ts:145-202 | One event tells one story: rows never disagree about an event's identity under one fingerprint |
| IocMatchPass.Evaluate | backend/src/detectors/iocMatch.ts:125-204 | The paged, memoised loops over flows and DNS queries report exactly what looking up every row separately would |
| IocMatchPass.PiecesTimed | backend/src/detectors/iocMatch.ts:145-202 | Every piece carries the instant of its event, which lies in the window |
| IocMatchPass.ReportedObserved | backend/src/detectors/iocMatch.ts:75-118 | On windows within four-digit years the reported first and last times are the least and greatest instants of the fingerprint's events |
| IocMeaning.SeverityIff | backend/src/detectors/iocMatch.ts:44-47 | A hit is critical exactly if its severity is CRITICAL, or its category malware-c2 or cryptominer, in any case |
| IocMeaning.CriticalIff | backend/src/detectors/iocMatch.ts:108-110 | A finding is critical exactly if some hit behind it is |
| IocMeaning.FindingLists | backend/src/detectors/iocMatch.ts:76-84 | Feeds and categories are those of the hits behind it, destinations those of the events |
| IocMeaning.FindingCites | backend/src/detectors/iocMatch.ts:93-105 | The evidence lists each event and each feed's entry once, and the events are counted |
| IocMeaning.FindingPlaces | backend/src/detectors/iocMatch.ts:85-106 | First and last observed are the least and greatest times in text order; identity and actor are those of a newest event, ties broken by event id |
| IocMeaning.ReportedIff | backend/src/detectors/iocMatch.ts:61-66 | There is a finding exactly for the fingerprints with matches |
| IocMeaning.PieceKey | backend/src/detectors/iocMatch.ts:62 | A fingerprint names detector, source scope, device and indicator with its kind |
| IocMeaning.MatchPieceIff | backend/src/detectors/iocMatch.ts:49-61 | A match contributes exactly once per indicator that its hits of the right kind stand for, with just these hits |
| IocMeaning.IndicatorSpelt | backend/src/detectors/iocMatch.ts:40-55 | An indicator is a canonical address, or a domain trimmed and in lower case without one final dot |
| IocMeaning.FlowPiecesIff | backend/src/detectors/iocMatch.ts:132-143 | The flows looked at are those of the window with a destination |
| IocMeaning.QueryPiecesIff | backend/src/detectors/iocMatch.ts:173-181 | The queries looked at are those of the window |
| IocMeaning.FlowRow | backend/src/detectors/iocMatch.ts:145-167 | What a flow contributes: identity, actor, destination, and the hits of its trimmed lower-case destination |
| IocMeaning.QueryRow | backend/src/detectors/iocMatch.ts:183-203 | What a DNS query contributes: identity, actor, domain, and the hits of the domain |
| ReleaseTags.JoinSplit | backend/src/services/systemUpdateService.ts:244-245 | Splitting a prerelease at its dots loses nothing |
| ReleaseTags.ComparePrerelease | backend/src/services/systemUpdateService.ts:243-267 | The loop compares identifier lists at their first textual difference |
| ReleaseTags.TagsAntisymmetric | backend/src/services/systemUpdateService.ts:222-241 | Swapping the operands flips the sign, for all tags |
| ReleaseTags.TagsTransitive | backend/src/services/systemUpdateService.ts:222-267 | Not-above is transitive on tags without leading-zero identifiers |
| ReleaseTags.UnparseableIsLeast | backend/src/services/systemUpdateService.ts:225-227 | An unparseable tag is below every parseable one |
| ReleaseTags.PassesThroughIffClean | backend/src/services/systemUpdateService.ts:257-261 | Between identifier lists without leading-zero numbers, a list can be compared through exactly when it has none either |
| ReleaseTags.LeadingZeroCounterexample | backend/src/services/systemUpdateService.ts:257-261 | Three tags in a row whose ends are in the wrong order |
| ReleaseTags.VersionsLower | backend/src/services/systemUpdateService.ts:222-267 | The comparison is section 11 precedence of SemVer 2.0.0, with text ordered by the locale |
| ReleaseTags.FollowsSemverIffAscii | backend/src/services/systemUpdateService.ts:264 | It is SemVer precedence on all valid tags exactly when the locale orders text identifiers by code unit |
| ReleaseTags.OneIdTag | backend/src/services/systemUpdateService.ts:269-281 | A tag built from 1.0.0 and a prerelease parses to exactly that version |
| TagGrammar.PrintedTagParses | backend/src/services/systemUpdateService.ts:270-280 | Every version, printed in decimal with or without "v", with its prerelease and any build metadata, parses back to itself |
| TagGrammar.PiecesParse | backend/src/services/systemUpdateService.ts:270-280 | Any text of that shape parses to the version its pieces say |
| TagGrammar.ParsedPieces | backend/src/services/systemUpdateService.ts:270-280 | Every text that parses has that shape |
| ReleaseTags.LetterCaseCounterexample | backend/src/services/systemUpdateService.ts:264 | With a locale that sorts "alpha" before "Beta", 1.0.0-alpha and 1.0.0-Beta compare against section 11 |
| UpdateStatus.SortSorts | backend/src/services/systemUpdateService.ts:109 | Sorting permutes the eligible releases into descending order |
| UpdateStatus.HeadIsGreatest | backend/src/services/systemUpdateService.ts:109-110 | The head is the first of the greatest in list order |
| UpdateStatus.EligibleStep | backend/src/services/systemUpdateService.ts:105-107 | Drafts are never eligible and prereleases on the beta channel only; the others keep their order |
| UpdateStatus.GetUpdateStatus | backend/src/services/systemUpdateService.ts:92-125 | An eligible release is offered if there is one, and an update announced exactly when it outranks a known current version; without leading-zero numbers it is the first greatest, and an update is announced exactly when some eligible release outranks the version; the current version, the channel and whether loading failed are told |
| UpdateStatus.BetaNeverBelowStable | backend/src/services/systemUpdateService.ts:105-110 | The beta channel's latest is never below stable's |
| Endpoints.ContainsOwnEndpoint | backend/src/services/vulnerabilityDispositionService.ts:20-24 | A resource contains the endpoint extracted from it |
| Endpoints.NamedAtEnd | backend/src/services/vulnerabilityDispositionService.ts:20-24 | A path followed by an endpoint in parentheses names that endpoint, whatever the path |
| Endpoints.NamedBeforeSpaces | backend/src/services/vulnerabilityDispositionService.ts:20-24 | ... and so does one followed by white space |
| Endpoints.NamedPieces | backend/src/services/vulnerabilityDispositionService.ts:20-24 | Every resource that names an endpoint ends with it in parentheses, white space aside |
| Endpoints.EndpointPieces | backend/src/services/vulnerabilityDispositionService.ts:20-24 | An endpoint is four numbers with dots between them, and a port or none |
| Endpoints.PiecesAreEndpoint | backend/src/services/vulnerabilityDispositionService.ts:20-24 | Any four numbers with dots between them, and a port or none, are one |
| VulnDedup.CreatedIsNew | backend/src/services/testProcessor.ts:228-273 | A record is created only when no live record in reach names the same endpoint |
| VulnDedup.SteadyRunsStayUnique | backend/src/services/testProcessor.ts:228-385 | Over runs whose batches all carry a configuration, or none does, at most one live record per configuration and endpoint exists, hence no two open ones of one source; a finding is one step |
| VulnDedup.MixedRunsStayUniqueIff | backend/src/services/testProcessor.ts:228-385 | Over all mixed runs on a pool of resources at most one open record per configuration, endpoint and source exists exactly when resources of the pool that name one endpoint mention the same endpoints of the pool; a finding is one step |
| VulnDedup.ConfusedBreaks | backend/src/services/testProcessor.ts:228-385 | If two resources name one endpoint and only one mentions a third resource's, three findings on just these leave two such records |
| VulnDedup.NetworkNamedLikeAnAddress | backend/src/services/topologyTestGenerator.ts:648-688 | Resources as the generator writes them do this when a network's name contains the address of another target |
| VulnDedup.ProcessKeeps | backend/src/services/testProcessor.ts:276-365 | Processing a finding in one step keeps an operator's note and never reopens a settled record |
| VulnDedup.NotesSurvive | backend/src/services/testProcessor.ts:276-365 | ... over any run of automation from any table |
| VulnDedup.ReopenableIffUnsettled | backend/src/services/testProcessor.ts:328-349 | Automation, one finding at a time and given any findings, can reopen an acknowledged record exactly when it is not settled |
| VulnMeaning.AutoAcknowledgeIff | backend/src/services/vulnerabilityDispositionService.ts:44-62 | A finding is acknowledged on arrival exactly if it is a policy opening, or titled as one, or of low severity with a description that expects the path blocked and says it is explicitly allowed |
| VulnMeaning.EndpointInIff | backend/src/services/vulnerabilityDispositionService.ts:16-24 | Only findings of the two network types with a resource have an endpoint, the one the resource names |
| VulnMeaning.InScopeIff | backend/src/services/testProcessor.ts:233-243 | The candidates are the open or acknowledged network records, of the configuration if there is one, whose resource mentions the endpoint |
| VulnMeaning.SameFindingIff | backend/src/services/testProcessor.ts:264-272 | Failing that, those of the finding's type and, if it has one, resource |
| VulnMeaning.RefreshedShows | backend/src/services/testProcessor.ts:326-361 | A refreshed record shows the finding's severity, title and description under the batch's configuration, keeps kind and resource, and has its status and note by case |
| VulnMeaning.CreatedShows | backend/src/services/testProcessor.ts:364-381 | A created record shows the finding, open without a note unless acknowledged on arrival |
| VulnMeaning.KeptIs | backend/src/services/testProcessor.ts:228-273 | Which record is kept: in scope of the endpoint one of the finding's source, else of unknown source, else any; otherwise one of its type and resource |
| VulnMeaning.OthersAfter | backend/src/services/testProcessor.ts:275-318 | Every other record stays, or is in scope with a source that agrees or is unknown and is acknowledged, with the duplicates' note unless it has its own |
| VulnMeaning.ProcessedShows | backend/src/services/testProcessor.ts:320-385 | So one finding leaves one record that shows it and changes nothing but status and note of others |
| VulnMeaning.RewrittenShows | backend/src/services/testProcessor.ts:326-361 | What is written to a record that may have changed since it was read |
| VulnMeaning.MarkedShows | backend/src/services/testProcessor.ts:305-317 | A duplicate is acknowledged with the note it had when it was read, or the duplicates' note if it had none |
| VulnRace.NoteStaysIff | backend/src/services/testProcessor.ts:324-365 | Under any interleaving of batches and operators, an operator's own note stays until the record is edited again exactly when no batch about to update the record has read the automatic note, or no note with a finding that is acknowledged automatically, and none about to acknowledge it as a duplicate has read another note |
| VulnRace.StaysSettledIff | backend/src/services/testProcessor.ts:324-365 | A settled record stays settled, and so acknowledged, exactly when no batch holds a reading that unsettles it: for an ordinary finding, one not acknowledged or with the automatic note; otherwise, where more than openings can match the record, one with the automatic note or, for an update, with none |
| VulnRace.EditInBetweenIsLost | backend/src/services/testProcessor.ts:324-361 | For every open record and finding that matches it through its endpoint: an acknowledgement with a note, set between the read and the write, is undone unless the finding is acknowledged automatically, and the note is lost exactly if the automatic note was read, or none and the finding is acknowledged automatically |
| VulnRace.RaceLeavesNoneOpen | backend/src/services/testProcessor.ts:276-385 | For every network finding with an endpoint and any two batches of one configuration: if both search before either writes, they end with two records, none of them open, and neither is opened again by automation |
| VulnRace.UniqueIffApart | backend/src/services/testProcessor.ts:223-390 | From an empty table, over all interleavings of given batches with any findings and with operators who bring no closed record back, at most one live record per configuration and endpoint, and at most one open one per source too, exists throughout exactly when all batches carry configurations, no two the same, or there is only one batch |
| VulnRace.ApartAllUnique | backend/src/services/testProcessor.ts:223-390 | The safe half of it from any table that is unique to begin with |
| VulnRace.UninterruptedStaysUnique | backend/src/services/testProcessor.ts:228-385 | Batches that all carry a configuration, even the same one, or all none, keep at most one live record if, between a batch's read and its write, nobody else makes appear a record its search would have found, or closes one it has read |
| VulnRace.UndisturbedIsAtomic | backend/src/services/testProcessor.ts:320-385 | If nobody else acts while a batch processes a finding, the run is one of the one-step machine, step for step |
| VulnRace.UndisturbedRunsStayUnique | backend/src/services/testProcessor.ts:320-385 | So such runs on a pool of resources that are alike leave no two open records of one configuration, endpoint and source |
| VulnStore.VulnerabilityStore.Look | backend/src/services/testProcessor.ts:228-262 | The query by endpoint reads a record of the exact source if there is one, else of unknown source, else any, whatever order the database lists them in |
| VulnStore.VulnerabilityStore.LookAgain | backend/src/services/testProcessor.ts:264-272 | Failing that, a live record of the same type and resource is read, or none exists |
| VulnStore.VulnerabilityStore.Write | backend/src/services/testProcessor.ts:326-382 | The record read is updated with a status and note computed from that reading, or a new one is created |
| VulnStore.VulnerabilityStore.Fetch | backend/src/services/testProcessor.ts:275-303 | The duplicates are the other live records of the endpoint whose source agrees or is unknown, as they are at that moment |
| VulnStore.VulnerabilityStore.Mark | backend/src/services/testProcessor.ts:305-317 | One of them is acknowledged, with a note computed from the fetched record |
| VulnStore.VulnerabilityStore.Resume | backend/src/services/testProcessor.ts:320-385 | Whatever call a batch has reached is one step of the interleaved machine, and brings it nearer to its next finding |
| VulnStore.VulnerabilityStore.Update | backend/src/api/routes/vulnerabilities.ts:179-206 | An operator's edit changes the given columns of an existing record and nothing else |
| VulnStore.VulnerabilityStore.ProcessFinding | backend/src/services/testProcessor.ts:320-385 | The calls for one finding, undisturbed, make one step of the one-step machine |
| VulnStore.VulnerabilityStore.CreateVulnerabilities | backend/src/services/testProcessor.ts:223-390 | A batch, undisturbed, is a trace of such steps |
| HoneypotPorts.RemovedPorts | esp32-firmware/src/honeypot_service.cpp:276-292 | Removing keeps the table well formed and drops exactly that port |
| HoneypotPorts.RemoveUndoesAdd | esp32-firmware/src/honeypot_service.cpp:243-292 | Removing a port just added restores the table |
| HoneypotPorts.GrantedAre | esp32-firmware/src/honeypot_service.cpp:314-340 | A configuration leaves as many ports as it names, up to eight, and only named ones |
| HoneypotPorts.ConfiguredPorts | esp32-firmware/src/honeypot_service.cpp:314-340 | Configuring grants the first request of each of the first eight different ports |
| HoneypotPorts.ServiceNames | esp32-firmware/src/honeypot_service.cpp:325-333 | Seven services go by their names; any other name is a generic one |
| HoneypotService.Honeypot.constructor | esp32-firmware/src/honeypot_service.cpp:18-37 | The service starts disabled, with no ports and no listeners |
| HoneypotService.Honeypot.AddPort | esp32-firmware/src/honeypot_service.cpp:243-274 | A new port is appended, listening exactly when the service is enabled; full or duplicate requests change nothing |
| HoneypotService.Honeypot.RemovePort | esp32-firmware/src/honeypot_service.cpp:276-292 | The port's listener is deleted, the rest shift down, and no listener is lost or deleted twice |
| HoneypotService.Honeypot.ClearPorts | esp32-firmware/src/honeypot_service.cpp:294-298 | No port and no listener remains |
| HoneypotService.Honeypot.SetEnabled | esp32-firmware/src/honeypot_service.cpp:300-312 | The table is unchanged and listeners exist exactly when enabled |
| HoneypotService.Honeypot.ConfigureFromJson | esp32-firmware/src/honeypot_service.cpp:314-340 | The table is what the configuration grants and listeners exist exactly when it enables them |
| HoneypotService.Honeypot.StartListeners | esp32-firmware/src/honeypot_service.cpp:342-351 | Every live slot gets its own new listener |
| HoneypotService.Honeypot.StopListeners | esp32-firmware/src/honeypot_service.cpp:353-362 | Every listener is ended and deleted once |
| HoneypotService.ServersWithout | esp32-firmware/src/honeypot_service.cpp:276-292 | Taking a slot out takes exactly its listener out |
| HoneypotLog.RingHoldsLast | esp32-firmware/src/honeypot_service.cpp:147-164 | The ring holds exactly the last min(n, 50) connections |
| HoneypotLog.Conservation | esp32-firmware/src/honeypot_service.cpp:147-241 | Every logged connection is exactly one of reported, overwritten unreported, and pending |
| HoneypotLog.LostStep | esp32-firmware/src/honeypot_service.cpp:147-164 | One more connection loses the oldest of a full ring if that is unreported, and nothing else |
| HoneypotLog.StoredKeeps | esp32-firmware/src/honeypot_service.cpp:147-164 | A stored connection is the connection, its data cut to 127 bytes |
| HoneypotLog.LogRing.AddLog | esp32-firmware/src/honeypot_service.cpp:147-164 | One more connection is held, unreported, in place of the oldest, which is lost exactly when the ring is full and its slot unreported; the count of such overwrites keeps step |
| HoneypotLog.LogRing.ReportLogs | esp32-firmware/src/honeypot_service.cpp:166-233 | A report publishes the first ten pending slots in array order, each pending before and reported after, and loses none; fewer than ten leaves nothing pending; the count of marks keeps step |
| HoneypotLog.LogRing.GetUnreportedLogs | esp32-firmware/src/honeypot_service.cpp:235-241 | The count is the number of pending connections, and over any run what was logged is what was marked, overwritten unreported, or is counted here |
| Subnet.AndHighBits | backend/src/services/vlanCoverageService.ts:98-106 | Masking with ones above bit k clears exactly the remainder by 2^k |
| Subnet.IpToIntIsAddress | backend/src/services/vlanCoverageService.ts:94-98 | The shifts and ors assemble the 32-bit address |
| Subnet.BothFormsAreBlocks | backend/src/services/topologyTestGenerator.ts:155-178 | For every prefix but /0, both forms hold exactly when the addresses have the same quotient by 2^(host bits) |
| Subnet.FormsAtZero | backend/src/services/vlanCoverageService.ts:100-106 | At /0 one form accepts everything and the other only the base |
| Subnet.FormsAgreeIff | backend/src/services/topologyTestGenerator.ts:155-178 | The forms agree exactly when the prefix is not /0 or the address is the base |
| Subnet.Refines | backend/src/services/vlanCoverageService.ts:86-107 | A longer prefix refines a shorter one |
| Subnet.MapDeviceToNetwork | backend/src/services/vlanCoverageService.ts:109-121 | The first network holding the address is returned, or none |
| Subnet.OrderFreeIffAtMostOne | backend/src/services/vlanCoverageService.ts:109-121 | The result is free of the list order exactly when no two networks hold the address |
| Subnet.ApartShareNothing | backend/src/services/vlanCoverageService.ts:86-107 | Networks whose bases lie outside each other share no address |
| Subnet.DisjointMeansOrderFree | backend/src/services/vlanCoverageService.ts:109-121 | With pairwise disjoint subnets the mapping does not depend on the list order |

## Left out

- Prisma, MQTT broker, HTTP, file system, child processes and clocks: tables are sequences or maps, deliveries and outcomes are events or parameters.
- Intent profiles: the category tables and `violatesIntent` are not modelled; an evaluator's intent is a parameter.
- Warnings, descriptions, titles, isolation-source names and rule descriptions: text shown to people.
- Topology beyond LAN pairs: WAN connections, explicit routes, device groups.
- Lone surrogates, `undefined`, NaN, -0 and `__proto__` keys: values are JSON; number printing is taken as injective.
- Config change columns connectionId, resourceType and detectedAt; `normalizeClientForTimeline` and its kin.
- Configuration resource ids are text or missing: any other value under `_id` counts as missing.
- Row ids compare by code unit; any other total order of the database's would do as well.
- ChunkTransport.MqttService.HandleChunkedTestResults: the buffer is a value in a map, so aliasing between the map's entry and the local variable is not captured; chunk indices are integers.
- ChunkTransport.MqttService.OnTimedOutCompleted: that the two database calls before it succeeded is the caller's to say.
- ArduinoJson document capacity: envelopes and reports are assumed to fit.
- HoneypotLog.LogRing.ReportLogs: the published document holds 2048 bytes, and entries that do not fit are marked reported all the same; the batch here is what is marked.
- ResultsJson.BuildStructuredResultsJson: transport patches have no `undefined` fields; writing the database row is left out.
- Updater HMAC check, request parsing and `isValidTargetRef`: a request arrives parsed, with the outcome of the check.
- Hashing and `JSON.stringify` of key tuples: keys are tuples, that is, both are injective.
- IPv6 canonicalisation and date conversion: an abstract platform with the laws stated in `Identity.Lawful` and `Identity.Chronological`.
- Non-ASCII case mapping: lower- and upper-casing change ASCII letters only.
- Titles, `affectedResource`, `iocFindingId` and counts derived from the correlation's sets.
- Feed ingestion and the feed cache: a lookup is a function that does not change during an evaluation.
- Very large version numbers: numbers are exact, so the rounding of numbers beyond 2^53 is not modelled.
- Release and version caches, and reading the changelog.
- The regular expressions that extract a source host: an arbitrary function of title and description, with an empty host counting as none; configuration ids are not empty.
- ResultsJson.ResultsFollowDeliveries: a delivery is one step; `ResultsRace` says what holds between awaits. There, whether a handler writes at all (the timeout does only if the run is still marked running) is left open, and columns other than the record are left out.
- VulnDedup.SteadyRunsStayUnique: a finding is one step; `VulnRace.UniqueIffApart` says what holds between awaits.
- VulnDedup.MixedRunsStayUniqueIff: a finding is one step; `VulnRace.UndisturbedRunsStayUnique` says when that is so.
- VulnDedup.ProcessKeeps: a finding is one step; `VulnRace.NoteStaysIff` and `VulnRace.StaysSettledIff` say what holds between awaits.
- VulnDedup.NotesSurvive: likewise.
- VulnDedup.ReopenableIffUnsettled: likewise, and which findings the producers can give is not modelled.
- VulnRace.NoteStaysIff: records are not deleted, a batch may come with any findings, and each database call is one step.
- UpdateStatus.GetUpdateStatus: with leading-zero numbers the comparator is no order, and which eligible release is offered depends on the engine's sort; the model inserts from the left.
- The built-in sort: any stable sort; the order of equal elements is theirs in the list.
- Columns lastSeen, firstSeen, testRunId, impact, remediation and cveId: candidates come in any order, so results hold for the source's order too.
- Honeypot connections, banners, whitelist, probe header and the ESP32-to-ESP32 test listener; hex and printable renderings of log data.
- Parsing of dotted quads and CIDR text: addresses are four octets and a prefix length.
