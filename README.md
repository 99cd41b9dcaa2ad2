# Enterprise sequencer core, modelled in Dafny

This project models the deterministic core of an enterprise-architecture
workbench. The workbench is a Next.js application with two Python batch
scripts. It ingests system inventories, Lucid diagrams, capability maps and
Datadog service exports. It harmonises a current and a future state of the
estate, then sequences the transition into stages and waves. It detects
collisions between overlapping stages, scores wave pressure and judges the
feasibility of a scenario. Around this sit small stores: agent memory, an
agent session log, a fixed-window rate limiter, two-party pairing approval
and an integration-flow store.

Each core source file has one Dafny module:

- `AleIngest` builds the reasoning corpus in `scripts/ale_ingest.py`.
- `DatadogSeed` normalises Datadog rows into flows in `scripts/ingest_datadog_seed.py`.
- `Collisions` covers stage timelines, collision detection and fiscal bands.
- `Mutations` covers intent-driven sequence mutation.
- `Sequencer` covers the current/future CSV diff and the topological layering.
- `MapIntelligence` and `MapTree` cover quoted-CSV parsing, JSON capability parsing and the L1/L2/L3 tree build.
- `Inventory` and `Lucid` cover the inventory and Lucid CSV ingestion.
- `IntentParse` covers the `/intent` command parser.
- `AgentMemory` and `SessionStore` cover the agent's memory and session log.
- `Security` covers the rate limiter and bearer-token check.
- `Manifest` covers pairing approval.
- `Harmonization` and `HarmonizedGraph` cover key normalisation, fuzzy resolution, presence-to-state rules, the record merge and the edge dedup.
- `Validate` covers schema warnings.
- `Cognition` covers capability-tree statistics.
- `IntegrationFlows` covers the flow store's POST and DELETE.
- `DraftBuilder` covers sequence drafts.
- `SceneHelpers`, `Feasibility` and `WavePressure` cover the pure helpers of the sequencer scene: feasibility, deadline what-if and wave pressure.
- `EnterpriseNormalization` covers label normalisation and classification.
- `VisionPanel` covers the capability-tree upsert.
- `IntentClassifier` covers focus areas and intent classification.

Shared modules hold the building blocks:

- `Common`: Option and Result, JSON values, JavaScript and Python truthiness, filtering and dedup.
- `Text`: ASCII trim, case mapping, split and join, key normalisation.
- `StableSort`: a stable descending sort by an integer key.
- `Grouping`: grouping entries under keys in first-seen key order.
- `Pairs`: the nested i < j pair loop.

Code that changes state step by step is modelled as methods with loops and
invariants. Each such method is proved against a specification function.
Objects updated in place are modelled as classes:

- `AgentMemory.Memory`
- `SessionStore.Session`
- `Security.RateLimiter`
- `Manifest.PairingStore`
- `IntegrationFlows.FlowStore`

Pure code is modelled as functions, with lemmas stating what the source
promises.

Things the model cannot compute are parameters:

- a SHA-1 hex digest;
- clock readings;
- fresh ids (uuid, random ids);
- date parsing;
- JavaScript's number-to-string and string-to-number conversions;
- the scene's demo-topic detector;
- the integration burden per stage.

## Model

| member | source | states |
|---|---|---|
| AleIngest.LoadEvents | scripts/ale_ingest.py:15-21 | a missing log file or text that does not decode as JSON gives the empty list; otherwise the parsed JSON value is returned as it is, whatever its shape |
| AleIngest.AddEventTags | scripts/ale_ingest.py:33-39 | the tag loop of one event leaves the dict equal to the dict of all sightings so far followed by this event's kept tags, each with the event's risk |
| AleIngest.SummariseEvents | scripts/ale_ingest.py:25-39 | the event loop builds exactly the dict summarising every kept tag sighting of every event, in order |
| AleIngest.SummariseMeaning | scripts/ale_ingest.py:37-39 | the dict has one bucket per distinct trimmed tag, keyed in first-sighting order, and each bucket counts that tag's sightings and holds their risks in order |
| AleIngest.SummaryKeys | scripts/ale_ingest.py:37-41 | the dict's keys are the distinct tags in first-sighting order, one per corpus entry |
| AleIngest.EntriesOf | scripts/ale_ingest.py:40-53 | one corpus entry per bucket in the dict's key order, each with the mean risk, the strength min(1.0, mean + occurrences/100) and the templated recommendation |
| AleIngest.BuildCorpus | scripts/ale_ingest.py:24-55 | the whole of `build_corpus`: the result is the stable descending sort by occurrences of the unsorted entries |
| AleIngest.OccurrencesMatchRisks | scripts/ale_ingest.py:37-39 | every kept sighting adds 1 to its bucket's occurrences and exactly one risk, so occurrences equals the number of risks |
| AleIngest.SightedTagCounted | scripts/ale_ingest.py:37-38 | a tag that was sighted has at least one occurrence |
| AleIngest.KeptTagRule | scripts/ale_ingest.py:33-36 | a tag is kept exactly when it is a non-empty string (before trimming), and it is bucketed under its trimmed text |
| AleIngest.CorpusShape | scripts/ale_ingest.py:41-54 | the corpus has one entry per distinct trimmed tag; each entry has occurrences ≥ 1 equal to its number of risks and strength ≤ 1.0; the entries are non-increasing by occurrences |
| AleIngest.CorpusStable | scripts/ale_ingest.py:54 | entries with equal occurrences keep their first-sighting order (the sort is stable) |
| AleIngest.UntaggedEventIgnored | scripts/ale_ingest.py:27-29 | an event whose `context_tags` is absent or not a list contributes no sighting |
| AleIngest.RiskOf | scripts/ale_ingest.py:30-32 | a numeric `risk_score` is used as is; an absent or non-numeric one counts as 0.5 |
| DatadogSeed.Lookup | scripts/ingest_datadog_seed.py:26 | a header is found by its trimmed, lower-cased text; no matching header gives no value, and otherwise the value is that of the LAST matching column, as the dict comprehension keeps the last duplicate key |
| DatadogSeed.LastWithIsLast | scripts/ingest_datadog_seed.py:26 | the lookup over the first n columns finds nothing when no key matches, and otherwise takes the value of the last matching column |
| DatadogSeed.HeaderCaseInsensitive | scripts/ingest_datadog_seed.py:26 | a column whose header equals the key after trimming and lower-casing is found, whatever its case or surrounding spaces |
| DatadogSeed.Defaults | scripts/ingest_datadog_seed.py:27-32 | when every cell is missing or empty, the name is `unknown_service`, the owner `unassigned`, the env `prod`, the status `healthy`, and the only target is `_none_` |
| DatadogSeed.NoValueLookup | scripts/ingest_datadog_seed.py:26-31 | a row whose cells are all missing or empty gives a falsy value for every key, so every `or` falls through to its default |
| DatadogSeed.Deps | scripts/ingest_datadog_seed.py:31-32 | every dependency is non-empty, trimmed and contains no ',' |
| DatadogSeed.TrimmedPiecesHaveNoSeparator | scripts/ingest_datadog_seed.py:32 | trimming and dropping empty pieces of a split keeps the separator out of every piece |
| DatadogSeed.TargetCount | scripts/ingest_datadog_seed.py:35 | a row has max(1, #deps) targets, and with no dependency the only target is `_none_` |
| DatadogSeed.FlowFor | scripts/ingest_datadog_seed.py:38-50 | a flow is produced exactly when the latency and error-rate columns are absent or parse as numbers (`float()` raises otherwise) |
| DatadogSeed.FlowShape | scripts/ingest_datadog_seed.py:36-49 | every flow has source `datadog`, starts at the service name, carries the lower-cased status, has confidence 0.9 exactly when that status is `healthy` and 0.6 otherwise, goes to `external` exactly for the `_none_` target (or a dependency literally named `external`), and has id `{name}_to_{dep}_` plus 8 digest characters |
| DatadogSeed.FlowIdsDistinct | scripts/ingest_datadog_seed.py:36-39 | two different dependencies of one service get different flow ids |
| DatadogSeed.TargetsToFlows | scripts/ingest_datadog_seed.py:34-51 | the target loop returns one flow per target in order, or fails when one flow cannot be built |
| DatadogSeed.NormalizeRow | scripts/ingest_datadog_seed.py:25-51 | `normalize_row` succeeds exactly when the row's flows can all be built, and then returns them |
| DatadogSeed.RowFlowsCount | scripts/ingest_datadog_seed.py:35-50 | a row that converts yields max(1, #deps) flows, the k-th for the k-th target |
| DatadogSeed.Dispatch | scripts/ingest_datadog_seed.py:121-127 | exactly one argument `--rollback` selects rollback, exactly one other argument selects ingestion of that path, any other argument count selects the usage exit |
| DatadogSeed.IngestData | scripts/ingest_datadog_seed.py:59-101 | a missing file exits with `❌ File not found: <path>` and writes nothing; otherwise the written flows are the concatenation of every row's flows in row order, whatever the POST then reports |
| Collisions.FirstFy | src/lib/sequencer/collisions.ts:184 | the position found is the first at or after the start where `FY` (any case) and two digits match; none is found only when no position matches |
| Collisions.ParseFiscalYear | src/lib/sequencer/collisions.ts:182-188 | a label with a `FYnn` match (any case) reads as a year in 2000..2099; a missing label or one without a match reads as null |
| Collisions.LastTwo | src/lib/sequencer/collisions.ts:247 | `slice(-2)` keeps the last min(2, length) characters |
| Collisions.FiscalMonthOf | src/lib/sequencer/collisions.ts:245-246 | for a non-negative index the month is in 1..12 and year*12 + month − 1 gives the index back; for a negative index JavaScript's truncating `%` gives a month in −10..1 |
| Collisions.LastTwoDigits | src/lib/sequencer/collisions.ts:247 | the last two characters of a number of at least two digits are its tens and units digits |
| Collisions.FormatFiscalMonthRoundTrip | src/lib/sequencer/collisions.ts:182-188 | a month label of a fiscal year 2000..2099 reads back through `parseFiscalYear` as that year, and its month is in 1..12 |
| Collisions.FormatHead | src/lib/sequencer/collisions.ts:247 | a month label starts with `FY` and the two last digits of its year |
| Collisions.ParseLeadingFy | src/lib/sequencer/collisions.ts:184-187 | a label starting with `FY` and two digits reads as 2000 plus those digits |
| Collisions.FallbackStartIndex | src/lib/sequencer/collisions.ts:176-180 | the fallback start lies in the label's fiscal year (2026 without one), in month (position mod 4)*3 + 1 |
| Collisions.ResolveMonthIndex | src/lib/sequencer/collisions.ts:170-174 | the index lies in the label's year, else the fallback's year, at the given month when it is in 1..12, else the fallback's month; with neither, it is the fallback itself |
| Collisions.WithTimeline | src/lib/sequencer/collisions.ts:144-168 | the placed stage has startIndex ≤ endIndex, the scenario's id and the given wave label; without a definition it has the scenario's title, no touched systems and spans fallback..fallback+2; with one it takes the definition's lists, each defaulting to empty |
| Collisions.OverlapMeansCommonMonth | src/lib/sequencer/collisions.ts:211-213 | stage overlap is symmetric and, for ordered ranges, holds exactly when some month lies in both stages (inclusive ends) |
| Collisions.IntersectStrings | src/lib/sequencer/collisions.ts:215-219 | the result is a subsequence of `a` holding exactly the elements of `a` that occur in `b`; it is empty when either input is empty |
| Collisions.ResolveSeverity | src/lib/sequencer/collisions.ts:221-233 | high exactly when an integration is shared or a critical system is shared; medium exactly when neither holds and a system is shared; low otherwise |
| Collisions.Rules | src/lib/sequencer/collisions.ts:104-115 | each rule is present exactly under its condition, and the critical-system and plain shared-system rules are never both present |
| Collisions.OverlapBounds | src/lib/sequencer/collisions.ts:235-242 | for overlapping ordered stages the overlap range is ordered and lies inside both stages, and it covers every month the two share |
| Collisions.CollisionFor | src/lib/sequencer/collisions.ts:96-127 | a pair yields a collision exactly when it overlaps and shares a system, an integration or a domain; the collision names the two stages in order |
| Collisions.SeverityMatchesRules | src/lib/sequencer/collisions.ts:103-116 | a collision's severity is high exactly with the integration or critical-system rule, medium exactly with the plain shared-system rule and no integration rule, low exactly when the domain rule is the only rule |
| Collisions.CollisionsFromPairs | src/lib/sequencer/collisions.ts:94-102 | a collision is reported exactly when some pair i < j yields it through the pair rule |
| Collisions.ListedUnderBoth | src/lib/sequencer/collisions.ts:129-130 | every collision is listed under both of its stage ids |
| Collisions.EntriesLength | src/lib/sequencer/collisions.ts:129-130 | each collision files exactly two entries |
| Collisions.DetectPairs | src/lib/sequencer/collisions.ts:94-132 | the double loop collects the pair rule's collisions of every pair i < j in loop order and files each under both stage ids |
| Collisions.DetectRow | src/lib/sequencer/collisions.ts:95-131 | one pass of the inner loop extends the collisions from the pairs before row i to the pairs up to row i, keeping the record in step |
| Collisions.FileFound | src/lib/sequencer/collisions.ts:128-130 | a found collision is appended and filed under both ids; nothing changes when none was found |
| Collisions.Tally | src/lib/sequencer/collisions.ts:133-134 | one count per distinct stage id that has a collision |
| Collisions.TallyConflicts | src/lib/sequencer/collisions.ts:133-134 | the tally loop gives one entry per key of the record, in key order, counting that key's collisions |
| Collisions.TopConflictsCount | src/lib/sequencer/collisions.ts:133-135 | every top-conflict entry names a stage of some collision and counts the collisions listed under it (at least one); the list is sorted by count, most first |
| Collisions.DetectCollisions | src/lib/sequencer/collisions.ts:91-137 | the report lists every qualifying pair's collision, its record holds exactly the stage ids of the collisions with each one's collisions, and the top conflicts are the counts sorted most first |
| Collisions.HighestSeverity | src/lib/sequencer/collisions.ts:250-254 | null exactly for no collisions; otherwise a severity some collision has and that no collision exceeds |
| Collisions.Years | src/lib/sequencer/collisions.ts:194-197 | the year list holds `count` consecutive years from the first |
| Collisions.FallbackBands | src/lib/sequencer/collisions.ts:193 | without fiscal years there is one wave label per stage |
| Collisions.CycleBands | src/lib/sequencer/collisions.ts:198-207 | cycling through a non-empty year list gives exactly n bands |
| Collisions.FiscalBands | src/lib/sequencer/collisions.ts:190-209 | the intended bands: exactly one label per stage for any pair of labels |
| Collisions.BandLabelYear | src/lib/sequencer/collisions.ts:182-204 | a band label reads back through `parseFiscalYear` as its year |
| Collisions.FiscalBandsCycle | src/lib/sequencer/collisions.ts:194-207 | with both ends parsed and in order, band k is wave k + 1 and names the (k mod #years)-th year of the range |
| Collisions.CycleAt | src/lib/sequencer/collisions.ts:200-206 | band r*#years + y names year y of the range |
| Collisions.RoundsCover | src/lib/sequencer/collisions.ts:199-200 | ceil(n / #years) rounds of the years give at least n bands |
| Collisions.FillRound | src/lib/sequencer/collisions.ts:201-206 | one round of the years pushes the next bands while fewer than n exist |
| Collisions.ListYears | src/lib/sequencer/collisions.ts:194-197 | the years loop lists every year from the start year to the end year |
| Collisions.BuildFiscalBands | src/lib/sequencer/collisions.ts:190-209 | the loops of `buildFiscalBands` (with the reversed-range guard) produce the intended bands |
| Collisions.CeilDiv | src/lib/sequencer/collisions.ts:199 | with a non-zero year count the number of rounds is finite and rounds*#years ≥ n |
| Collisions.EmptyRoundsNeverEnd | src/lib/sequencer/collisions.ts:199-207 | with no years and at least one band wanted, no number of rounds ends the loop and no band is pushed |
| Collisions.ReversedRangeHangs | src/lib/sequencer/collisions.ts:190-209 | for start `FY27`, end `FY26` and three stages the loop as written never terminates, for any fuel |
| Collisions.FindDefinition | src/lib/sequencer/collisions.ts:61 | the first catalogue stage with that id, or none exactly when no stage has it |
| Collisions.ContextStages | src/lib/sequencer/collisions.ts:60-66 | one placed stage per scenario, in order, with the scenario's id, ordered start and end, and its band as wave label |
| Collisions.StageMap | src/lib/sequencer/collisions.ts:67-70 | the stage map holds exactly the placed stages' ids |
| Collisions.StageMapLast | src/lib/sequencer/collisions.ts:68-70 | a later stage with the same id overwrites an earlier one: the map holds the last stage of each id |
| Collisions.BuildCollisionContext | src/lib/sequencer/collisions.ts:54-89 | null exactly without scenarios; otherwise the placed stages, their map by id, and a report exactly when the catalogue has detailed data, listing every collision of the stages |
| Collisions.ContextWaveLabels | src/lib/sequencer/collisions.ts:59-63 | each scenario's stage carries its own band as wave label |
| Mutations.Ids | src/lib/sequencer/mutations.ts:63 | the mutation's system list is the systems' ids, position by position |
| Mutations.UniqueById | src/lib/sequencer/mutations.ts:37-43 | the deduplicated systems are drawn from the entries, cover every entry's id, and have pairwise distinct ids |
| Mutations.UniqueSystems | src/lib/sequencer/mutations.ts:37-43 | the `forEach` over the entries keeps the first entry of each id, in order |
| Mutations.FirstInRegion | src/lib/sequencer/mutations.ts:31 | the first step whose region equals the wanted one case-insensitively, or none when no step matches |
| Mutations.Target | src/lib/sequencer/mutations.ts:31 | the target is the first step matching the region case-insensitively, else the first step; there is none only for an empty sequence |
| Mutations.WithoutMentions | src/lib/sequencer/mutations.ts:53 | the kept dependencies are, in order, exactly those whose lower-cased text does not contain the target key |
| Mutations.NextSequence | src/lib/sequencer/mutations.ts:45-55 | the next sequence has the input's length and ids |
| Mutations.ApplyIntentToSequence | src/lib/sequencer/mutations.ts:26-72 | the method computes the outcome of `applyIntentToSequence` |
| Mutations.SameShape | src/lib/sequencer/mutations.ts:45-58 | the output sequence keeps the input's length and ids, and the mutation type is always `updatePhase` |
| Mutations.FailsOnlyWithoutTarget | src/lib/sequencer/mutations.ts:31-32 | the call throws (reading `target.phase` of undefined) exactly when no phase is given and the sequence is empty |
| Mutations.StepAfter | src/lib/sequencer/mutations.ts:45-55 | each output step is the input step retargeted if it is the target, then decoupled when the intent decouples |
| Mutations.OnlyTargetMoves | src/lib/sequencer/mutations.ts:31-47 | steps other than the target keep phase, region and impact; the target takes the region and impact min(0.95, impact + 0.05) ≤ 0.95 |
| Mutations.DecoupleRemovesTarget | src/lib/sequencer/mutations.ts:49-55 | after a decouple, no remaining dependency contains the target case-insensitively |
| Mutations.NoDecoupleKeepsDependencies | src/lib/sequencer/mutations.ts:49-55 | without a decouple every step keeps its dependencies |
| Mutations.SystemsDistinct | src/lib/sequencer/mutations.ts:34-63 | the mutation's systems have no duplicate ids and are exactly the ids of the channels' system entries |
| Sequencer.Preds | src/domain/services/sequencer.ts:123-126 | a node's incoming set holds exactly the sources of the edges into it |
| Sequencer.IncomingOf | src/domain/services/sequencer.ts:121-126 | the incoming map has an entry for exactly the nodes and edge targets, each holding that node's predecessors |
| Sequencer.Roots | src/domain/services/sequencer.ts:129-132 | the first ready batch is exactly the nodes with no incoming edge |
| Sequencer.Release | src/domain/services/sequencer.ts:143-151 | removing a placed node from its successors' incoming sets queues each successor whose set becomes empty |
| Sequencer.PlaceBatch | src/domain/services/sequencer.ts:137-152 | placing one batch gives every batch node the current stage and releases their successors |
| Sequencer.FillUnplaced | src/domain/services/sequencer.ts:156-161 | every node ends with a stage; placed nodes keep theirs and the rest (cycles) get the final stage |
| Sequencer.TopoSort | src/domain/services/sequencer.ts:120-164 | every node gets a stage between 1 and the final stage; nodes without incoming edges get stage 1; an edge into a node below the final stage comes from a strictly lower stage; a released node with predecessors sits exactly one stage after one of them; a node at the final stage waits on a predecessor that was never released; the final stage is 1 or one above some node's stage; the map holds only nodes and edge targets, and only nodes sit at the final stage; every node or edge target whose predecessors were all released is released itself |
| Sequencer.UnlinkFacts | src/domain/services/sequencer.ts:143-150 | unlinking a placed system keeps the pending map's keys, only shrinks pending sets, removes the system from every target of its edges, only appends to the queue, appends only its targets, and queues every target left with nothing pending |
| Sequencer.PlaceReleases | src/domain/services/sequencer.ts:136-154 | after a batch, each pending set holds only original predecessors not yet placed, the queue only grows, every system whose predecessors just became all placed is queued, and only targets of the batch are queued |
| Sequencer.Batches | src/domain/services/sequencer.ts:134-154 | when the queue runs dry, every root sits at stage 1, every placed system with predecessors sits one stage after one of them, and every system whose predecessors were all placed was placed itself, and the stage counter is 1 or one above some placed system's stage |
| Sequencer.Step | src/domain/services/sequencer.ts:135-153 | one batch keeps the layering invariant and places at least one more system |
| Sequencer.PathStages | src/domain/services/sequencer.ts:134-154 | along a path of edges ending below the final stage, the stage grows by at least one per edge |
| Sequencer.CycleAtLast | src/domain/services/sequencer.ts:156-161 | every node on a cycle gets the final stage |
| Sequencer.BatchAgree | src/domain/services/sequencer.ts:134-154 | two stage maps meeting `TopoSort`'s promises for the same nodes and edges give every released system the same stage, and it is released in both |
| Sequencer.LayeringUnique | src/domain/services/sequencer.ts:120-164 | `TopoSort`'s promises pin the result: two stage maps and final stages that meet them for the same nodes and edges are equal |
| Sequencer.MutualPair | src/domain/services/sequencer.ts:156-161 | for two systems depending on each other, the only layering puts both at stage 1, which is also the final stage |
| Sequencer.DropCr | src/domain/services/sequencer.ts:46 | the `\r?\n` split removes at most one trailing carriage return |
| Sequencer.LinesOf | src/domain/services/sequencer.ts:46 | the text splits into one more line than it has line feeds, none containing a line feed |
| Sequencer.TrimEach | src/domain/services/sequencer.ts:48 | every header cell is trimmed, position by position |
| Sequencer.LastHeader | src/domain/services/sequencer.ts:52 | a repeated header name takes the cell of its last column (the later assignment wins) |
| Sequencer.FirstFilled | src/domain/services/sequencer.ts:54-60 | the first alias whose cell is non-empty, every earlier alias being empty |
| Sequencer.PickIff | src/domain/services/sequencer.ts:54-60 | the chain of alias fallbacks ending in "" is empty exactly when every alias's cell is empty, and the first alias wins when it is filled |
| Sequencer.ParseCsv | src/domain/services/sequencer.ts:45-64 | fewer than 2 non-blank lines give no row; otherwise one row per non-blank line after the header |
| Sequencer.SystemColumn | src/domain/services/sequencer.ts:54 | the system is empty exactly when the System, system, Name and name cells are all empty, and System wins when filled |
| Sequencer.Keyed | src/domain/services/sequencer.ts:90-98 | the map's keys are distinct, non-empty, listed in insertion order, and each maps to a row with that key |
| Sequencer.KeyedHas | src/domain/services/sequencer.ts:92-95 | a key is in the map exactly when it is non-empty and some row has it (empty keys are skipped) |
| Sequencer.KeyedRow | src/domain/services/sequencer.ts:95 | the row kept under a key is the last row with that key (later rows overwrite earlier ones) |
| Sequencer.BuildMap | src/domain/services/sequencer.ts:90-98 | the `forEach` builds exactly the keyed map of the rows, with its insertion order |
| Sequencer.DetermineState | src/domain/services/sequencer.ts:100-110 | current only gives Retire, future only gives Add, both give Retain when domain and disposition match and Modify otherwise; neither gives Retain |
| Sequencer.StateReversed | src/domain/services/sequencer.ts:100-110 | swapping current and future swaps Add and Retire and leaves Retain and Modify alone |
| Sequencer.ParseDeps | src/domain/services/sequencer.ts:112-118 | every dependency is non-empty, trimmed and free of ',' and ';' |
| Sequencer.TrimmedPiece | src/domain/services/sequencer.ts:114-117 | every kept dependency is the trimmed text of some piece of the split |
| Sequencer.ParseDepsRoundTrip | src/domain/services/sequencer.ts:112-118 | dependencies joined with ',' parse back to themselves |
| Sequencer.Clamp01 | src/domain/services/sequencer.ts:193 | `Math.max(0, Math.min(1, c))` lies in [0,1] for a number, keeps a value already in [0,1], and is NaN exactly for NaN |
| Sequencer.NodesOf | src/domain/services/sequencer.ts:172-197 | one node per key of either map |
| Sequencer.NameIndex | src/domain/services/sequencer.ts:200 | every normalised name maps to the system name of some node |
| Sequencer.DepEdges | src/domain/services/sequencer.ts:202-209 | a node's dependency edges all end at that node and start at a known system name |
| Sequencer.EdgesOf | src/domain/services/sequencer.ts:201-210 | every edge starts at a known system name and ends at some node |
| Sequencer.EdgesOfWithin | src/domain/services/sequencer.ts:201-210 | every edge built from the nodes' dependencies joins two named nodes |
| Sequencer.CountState | src/domain/services/sequencer.ts:223-226 | each state count is at most the number of nodes |
| Sequencer.SummaryAddsUp | src/domain/services/sequencer.ts:221-227 | add + retire + modify + retain equals total |
| Sequencer.MaxStage | src/domain/services/sequencer.ts:213-218 | `maxStage` is at least 1, bounds every node's stage, and is 1 or some node's stage |
| Sequencer.BuildNodes | src/domain/services/sequencer.ts:177-197 | the key loop builds exactly the nodes of the two maps |
| Sequencer.LinkDeps | src/domain/services/sequencer.ts:202-209 | the dependency loop pushes exactly the edges of the node's known dependencies |
| Sequencer.LinkEdges | src/domain/services/sequencer.ts:201-210 | the node loop pushes exactly every node's dependency edges, in order |
| Sequencer.AssignStages | src/domain/services/sequencer.ts:213-218 | each node takes its stage from the map (1 when absent) and `maxStage` is the largest stage |
| Sequencer.RootsAtOne | src/domain/services/sequencer.ts:130-140 | a node without incoming edges ends at stage 1 |
| Sequencer.EdgesClimb | src/domain/services/sequencer.ts:134-161 | for an edge into a node below the top stage, the source's stage is strictly lower |
| Sequencer.Layout | src/domain/services/sequencer.ts:212-218 | every node keeps its fields and gets a stage; `maxStage` is the largest stage; the staged nodes carry the stages of a stage map and final stage that meet every promise of `TopoSort` for their systems and the edges, and `LaidOutUnique` shows that this fixes every node's stage |
| Sequencer.Generate | src/domain/services/sequencer.ts:166-228 | the nodes are those of the two keyed maps, the edges those of their dependencies, and the stages are the one layering `Layout` promises (unique by `LaidOutUnique`); `stages` is the largest stage; the summary counts the nodes' states |
| Sequencer.LaidOutUnique | src/domain/services/sequencer.ts:212-218 | two node lists with the same systems, laid out for the same edges, carry the same stage at every position |
| MapIntelligence.ToLevel | src/controllers/useMapIntelligence.ts:35-40 | a level is returned exactly when the trimmed, lower-cased value is l1, l2 or l3, and it is that level; anything else, or no value, gives undefined |
| MapIntelligence.ToLevelOf | src/controllers/useMapIntelligence.ts:35-40 | any text that trims and lower-cases to a level's name reads as that level |
| MapIntelligence.ToLevelName | src/controllers/useMapIntelligence.ts:35-40 | `l1`, `L1` and a padded `l1` (likewise L2, L3) are all accepted |
| MapIntelligence.Fields | src/controllers/useMapIntelligence.ts:72-94 | the character scan always yields at least one field |
| MapIntelligence.SplitCsvLine | src/controllers/useMapIntelligence.ts:72-94 | the character loop with `cur` and `inQ` computes exactly the fields of the line |
| MapIntelligence.UnquotedFields | src/controllers/useMapIntelligence.ts:85-92 | without quotes the scan splits at every comma |
| MapIntelligence.UnquotedCount | src/controllers/useMapIntelligence.ts:84-93 | a line without quotes splits at its commas, giving one more field than it has commas |
| MapIntelligence.QuoteAll | src/controllers/useMapIntelligence.ts:78-86 | quoting a list of fields quotes each one |
| MapIntelligence.EscapedField | src/controllers/useMapIntelligence.ts:78-86 | inside quotes a doubled quote yields one quote and a comma does not split; the closing quote ends the quoted part |
| MapIntelligence.QuotedRoundTrip | src/controllers/useMapIntelligence.ts:72-94 | any fields, each quoted with inner quotes doubled and joined with commas, split back to exactly those fields |
| Common.Defined | src/controllers/useMapIntelligence.ts:61 | the falsy-to-undefined fallback (also used at src/domain/services/lucidIngestion.ts:77-78) keeps a non-empty text and drops the empty one |
| MapIntelligence.FirstCell | src/controllers/useMapIntelligence.ts:62-65 | an alias chain is non-empty exactly when some alias's cell is, and then it is the first alias's cell or the chain of the rest |
| MapIntelligence.HeaderOf | src/controllers/useMapIntelligence.ts:51 | the header cells are the fields of the first line, trimmed and lower-cased |
| MapIntelligence.ParseCsv | src/controllers/useMapIntelligence.ts:46-70 | no rows without lines; otherwise the rows are exactly the named rows among the data lines' rows under the header, in line order: each named one is kept, none is added, and every row has a non-empty trimmed name |
| MapIntelligence.NamedCsvRows | src/controllers/useMapIntelligence.ts:56-69 | dropping the unnamed CSV rows keeps every named row, and every kept name is non-empty and trimmed |
| MapIntelligence.CsvRowsTrimmed | src/controllers/useMapIntelligence.ts:58 | every CSV row's name is trimmed |
| MapIntelligence.NameTrimmed | src/controllers/useMapIntelligence.ts:58-62 | the name picked from trimmed cells is trimmed |
| MapIntelligence.ReadString | src/controllers/useMapIntelligence.ts:97-98 | a value is read exactly when it is a string that is not blank, and it is kept untrimmed |
| MapIntelligence.RowOfNamed | src/controllers/useMapIntelligence.ts:125-132 | a row with a name got it from a non-blank `name` string |
| MapIntelligence.ArrayRows | src/controllers/useMapIntelligence.ts:121-134 | the rows are exactly the named rows among the items' rows, in item order: each item with a non-blank name gives its row, none is added, and there is at most one per item |
| MapIntelligence.ItemRows | src/controllers/useMapIntelligence.ts:123-132 | one row per array item, in order, read from its `name` and `parent` strings |
| MapIntelligence.Kids | src/controllers/useMapIntelligence.ts:149 | a node's children are its `children` array (none otherwise), each smaller than the node |
| MapIntelligence.Walk | src/controllers/useMapIntelligence.ts:139-152 | a null node throws; an unnamed node gives no rows; a named node gives its own row first, followed by exactly its children's rows, and succeeds exactly when its children's walk does; every row is named and each parent is listed before its children |
| MapIntelligence.WalkAll | src/controllers/useMapIntelligence.ts:150 | walking a list of children keeps every row named and each parent listed before its children |
| MapIntelligence.WalkAllSucceeds | src/controllers/useMapIntelligence.ts:150 | walking a list of children succeeds exactly when every child's walk succeeds |
| MapIntelligence.WalkAllKeeps | src/controllers/useMapIntelligence.ts:150 | after a successful walk of the children, every row of each child's walk is listed |
| MapIntelligence.WalkAllOnly | src/controllers/useMapIntelligence.ts:150 | after a successful walk of the children, every listed row comes from some child's walk |
| MapIntelligence.WalkAllSource | src/controllers/useMapIntelligence.ts:150 | for each row of a successful walk of the children, a child whose walk succeeds and lists that row |
| MapIntelligence.StripBom | src/controllers/useMapIntelligence.ts:106 | one leading byte-order mark is removed, and nothing else |
| MapIntelligence.ParseJson | src/controllers/useMapIntelligence.ts:104-158 | blank input throws `No JSON provided…`, undecodable input throws `Invalid JSON: <message>`; an array gives exactly `ArrayRows` of its items, an object gives its tree walk with no parent, any other value throws the unsupported-shape error; every returned row has a non-blank name |
| MapIntelligence.TreeRowsInPreorder | src/controllers/useMapIntelligence.ts:137-155 | a tree object flattens parent-first, the root row having no parent |
| MapTree.EnsureDomain | src/controllers/useMapIntelligence.ts:189 | the domain is never empty: the trimmed value when it is not blank, otherwise `Unassigned` |
| MapTree.RowsAt | src/controllers/useMapIntelligence.ts:191-193 | the rows of one level, in order, are exactly the input rows whose level (missing or unknown counting as L1) is that level |
| MapTree.CapsShape | src/controllers/useMapIntelligence.ts:193-202 | one capability per row of the level, in order, with the row's name and id (a fresh id when missing), no children, and for L1 the ensured domain |
| MapTree.BucketHas | src/controllers/useMapIntelligence.ts:203-222 | every L2 or L3 row is filed in the bucket of its parent name (`""` when it has none) |
| MapTree.Keys | src/controllers/useMapIntelligence.ts:204-225 | the bucket keys are distinct, in first-insertion order |
| MapTree.KeysMember | src/controllers/useMapIntelligence.ts:204-221 | a parent name is a bucket key exactly when some row of that level names it |
| MapTree.NameIndex | src/controllers/useMapIntelligence.ts:202 | `l1ByName` holds exactly the L1 names, each pointing at an L1 of that name |
| MapTree.IndexStep | src/controllers/useMapIntelligence.ts:202 | a later L1 with the same name replaces the earlier one in `l1ByName` |
| MapTree.Classify | src/controllers/useMapIntelligence.ts:191-223 | the row loop produces the L1 list, its name index, and the L2 and L3 buckets with their key orders |
| MapTree.MessageInjective | src/controllers/useMapIntelligence.ts:228-248 | two different issues never have the same message |
| MapTree.Orphans | src/controllers/useMapIntelligence.ts:225-250 | one issue per bucket key that names no parent, and only for such keys |
| MapTree.WithL2 | src/controllers/useMapIntelligence.ts:225-236 | attaching the L2 buckets keeps the number of roots |
| MapTree.PushL2s | src/controllers/useMapIntelligence.ts:231-235 | the L2 push loop appends the bucket's L2s, each with its own domain or else the parent's |
| MapTree.AttachL2 | src/controllers/useMapIntelligence.ts:225-236 | every L2 bucket is attached to the L1 of its parent name, and each bucket without one gives one orphan issue, in bucket order |
| MapTree.LastSlot | src/controllers/useMapIntelligence.ts:238-243 | the slot found for an L2 name holds an L2 of that name; none exactly when no L2 has the name |
| MapTree.IndexL2 | src/controllers/useMapIntelligence.ts:238-243 | `l2ByName` maps each L2 name to its last L2 in tree order |
| MapTree.WithL3 | src/controllers/useMapIntelligence.ts:245-255 | attaching the L3 buckets keeps the number of roots |
| MapTree.PushL3s | src/controllers/useMapIntelligence.ts:252-254 | the L3 push loop appends the bucket's L3s, each with its own domain or else the parent's |
| MapTree.AttachL3 | src/controllers/useMapIntelligence.ts:245-255 | every L3 bucket is attached to the L2 of its parent name, and each bucket without one gives one orphan issue |
| MapTree.BuildTree | src/controllers/useMapIntelligence.ts:182-258 | `buildTree` returns the specified roots and issues |
| MapTree.WithL2Keeps | src/controllers/useMapIntelligence.ts:225-236 | attaching L2s changes only the roots' children |
| MapTree.WithL3Keeps | src/controllers/useMapIntelligence.ts:245-255 | attaching L3s changes only the L2s' children |
| MapTree.RootsAreL1Rows | src/controllers/useMapIntelligence.ts:191-202 | the roots are exactly the L1 rows in order, with their names, ids and ensured domains |
| MapTree.LevelDefault | src/controllers/useMapIntelligence.ts:192 | a row is L1 exactly when its level does not read as L2 or L3 (missing or unknown levels are L1) |
| MapTree.OrphanL2Iff | src/controllers/useMapIntelligence.ts:225-230 | an orphan-L2 issue for a parent name appears exactly when some L2 row names it and no root has that name |
| MapTree.OrphanL3Iff | src/controllers/useMapIntelligence.ts:245-250 | an orphan-L3 issue for a parent name appears exactly when some L3 row names it and no L2 in the tree has that name |
| MapTree.L2Attached | src/controllers/useMapIntelligence.ts:231-235 | an L2 row whose parent is an L1 name ends up as a child of an L1 of that name, with a domain |
| MapTree.L3Attached | src/controllers/useMapIntelligence.ts:251-254 | an L3 row whose parent is an L2 name ends up as a child of that L2 |
| MapTree.TreeLevels | src/controllers/useMapIntelligence.ts:193-255 | roots are L1 with a domain, their children are L2 with a domain, and those children's children are L3 without children |
| Inventory.Cell | src/domain/services/inventoryIngestion.ts:19-25 | a cell is no longer than its trimmed text and holds only characters of the input |
| Inventory.QuotedCell | src/domain/services/inventoryIngestion.ts:20-23 | a quoted value with surrounding spaces reads as the value, with one pair of quotes stripped |
| Inventory.PlainCell | src/domain/services/inventoryIngestion.ts:20-23 | a trimmed value that is not wrapped in quotes is kept as is |
| Inventory.CsvLine | src/domain/services/inventoryIngestion.ts:18-19 | a line gives one cell more than it has commas, none containing a comma |
| Inventory.NameColumnFirst | src/domain/services/inventoryIngestion.ts:39-55 | the name column is the first header equal to the highest-priority candidate present; -1 exactly when no candidate is a header |
| Inventory.FindNameColumn | src/domain/services/inventoryIngestion.ts:48-55 | the candidate loop with its early `break` finds that column |
| Inventory.RecordOf | src/domain/services/inventoryIngestion.ts:67-70 | the record has exactly the header keys, each holding the trimmed cell of its last column (or "") |
| Inventory.FillRecord | src/domain/services/inventoryIngestion.ts:68-70 | the header `forEach` builds exactly that record |
| Inventory.FilledIndex | src/domain/services/inventoryIngestion.ts:80 | the first cell that is not blank, or none exactly when every cell is blank |
| Inventory.FirstFilled | src/domain/services/inventoryIngestion.ts:80-83 | the fallback name is non-empty exactly when some cell is not blank |
| Inventory.SystemNameChoice | src/domain/services/inventoryIngestion.ts:72-84 | the name cell is used when it is not blank, else the first non-blank cell; the name is empty exactly for an all-blank row |
| Inventory.RowItems | src/domain/services/inventoryIngestion.ts:60-94 | a line whose cells are all blank gives no item; any other line gives exactly one item, named by the chosen name cell (non-empty) and holding the record of its cells under the headers |
| Inventory.ItemsOf | src/domain/services/inventoryIngestion.ts:60-94 | there are at most as many items as data lines |
| Inventory.LowerEach | src/domain/services/inventoryIngestion.ts:36 | the lower-cased headers, position by position |
| Inventory.SystemNames | src/domain/services/inventoryIngestion.ts:86-88 | the set of system names is no larger than the number of rows |
| Inventory.SystemNamesMembers | src/domain/services/inventoryIngestion.ts:86-88 | the set holds exactly the non-empty system names of the rows |
| Inventory.CollectItems | src/domain/services/inventoryIngestion.ts:57-94 | the line loop pushes exactly the items of the data lines and adds exactly their names to the set |
| Inventory.ParseInventoryCsv | src/domain/services/inventoryIngestion.ts:28-100 | the rows are the items of the text and `uniqueSystems` is the number of distinct non-empty system names |
| Inventory.EmptyInventory | src/domain/services/inventoryIngestion.ts:29-33 | text with only blank lines gives no rows and 0 unique systems |
| Inventory.ItemsNamed | src/domain/services/inventoryIngestion.ts:65-84 | every item kept has a non-empty system name, because all-blank rows are skipped |
| Inventory.UniqueSystems | src/domain/services/inventoryIngestion.ts:86-99 | `uniqueSystems` counts the distinct system names of the rows and is at most the number of rows |
| Lucid.ColumnsOf | src/domain/services/lucidIngestion.ts:32-38 | the Id column is missing (-1) exactly when no header cell is `Id` |
| Lucid.Cells | src/domain/services/lucidIngestion.ts:10-13 | splitting a line on ',' always gives at least one cell |
| Common.DedupFirstSeen | src/components/experience/scenes/SequencerScene.tsx:3484 | `Array.from(new Set(xs))` keeps each value's first occurrence, in the order of those occurrences |
| Lucid.EdgeLabel | src/domain/services/lucidIngestion.ts:72-76 | an integration label is never empty: the row's label, else `src → dst` when both ends are given, else the one end given, else `integration-<id>` |
| Lucid.RowItem | src/domain/services/lucidIngestion.ts:46-102 | each input row yields at most one item |
| Lucid.ItemsOf | src/domain/services/lucidIngestion.ts:46-102 | there are at most as many items as data lines |
| Lucid.ParseLucidCsv | src/domain/services/lucidIngestion.ts:15-105 | the row loop with its `continue`s computes the specified parse |
| Lucid.ReadRows | src/domain/services/lucidIngestion.ts:46-102 | the loop over the data lines collects, in order, the item each line yields |
| Lucid.ReadRow | src/domain/services/lucidIngestion.ts:47-101 | one pass of the loop body, each `continue` a return with nothing found, yields exactly the line's item or none |
| Lucid.LucidFailures | src/domain/services/lucidIngestion.ts:26-42 | the parse throws the empty-CSV error exactly when there are fewer than 2 non-blank lines, and the missing-Id error exactly when there are enough lines but no `Id` header |
| Lucid.RowItemCases | src/domain/services/lucidIngestion.ts:50-101 | a row yields nothing exactly when its Id is empty, or it has no line ends and its label is blank or `document`/`page`; it yields an integration exactly when the Id is set and a line end is; the item id is `edge:` or `node:` plus the Id |
| Lucid.RowWellFormed | src/domain/services/lucidIngestion.ts:67-101 | every item carries the project id and a non-empty label; integrations have an `edge:` id and an end, systems a `node:` id, no ends and a label other than document/page |
| Lucid.ItemsWellFormed | src/domain/services/lucidIngestion.ts:46-102 | every item of the loop is well formed |
| Lucid.LucidItems | src/domain/services/lucidIngestion.ts:15-105 | a successful parse gives well-formed items, fewer than the non-blank lines |
| IntentParse.FirstTokenLabel | src/app/api/intent/parse/route.ts:71-118 | the first table entry, in table order, whose token occurs in the text; none only when no token occurs |
| IntentParse.DetectRegion | src/app/api/intent/parse/route.ts:70-75 | the label of the first region token found in table order (canada, na, emea, apac, global), else `Global` |
| IntentParse.FirstPhase | src/app/api/intent/parse/route.ts:78 | the first position where `phase`, optional spaces and a digit match; none only when nowhere matches |
| IntentParse.FirstFy | src/app/api/intent/parse/route.ts:84 | the first position where `fy` and two digits match; none only when nowhere matches |
| IntentParse.DetectPhase | src/app/api/intent/parse/route.ts:77-91 | the FIRST `phase N` match gives `Phase N` / `phase N`; with none, the first `fyNN` gives `fyNN` / `FYNN`; with neither, `phase 1` for both |
| IntentParse.LowerWord | src/app/api/intent/parse/route.ts:81-87 | lower-casing a word followed by digits lower-cases only the word |
| IntentParse.Mentioned | src/app/api/intent/parse/route.ts:94-97 | the channels found are exactly those with some token occurring in the text |
| IntentParse.RunEnd | src/app/api/intent/parse/route.ts:100 | the `[a-z0-9+\s]+` run from `j` ends at the first character outside the class: every character before the end is in the class and the end is the text's end or a character outside it |
| IntentParse.FirstWith | src/app/api/intent/parse/route.ts:100 | a `with` match found lies in the text |
| IntentParse.FirstWithIsFirst | src/app/api/intent/parse/route.ts:100 | the match found is the leftmost one |
| IntentParse.WithChannels | src/app/api/intent/parse/route.ts:106-108 | the fallback adds only parts that are exactly `b2b` or `b2c` |
| IntentParse.Channels | src/app/api/intent/parse/route.ts:93-113 | the channel list is never empty |
| IntentParse.DetectChannels | src/app/api/intent/parse/route.ts:93-113 | the method fills the set as specified and never returns an empty list (`["b2b"]` by default) |
| IntentParse.WithPartOccurs | src/app/api/intent/parse/route.ts:100-105 | every part of the `with` fallback occurs in the text |
| IntentParse.WithFallbackAddsNothing | src/app/api/intent/parse/route.ts:99-112 | when no channel token occurs, the `with` fallback adds nothing and the result is `["b2b"]` |
| IntentParse.Words | src/app/api/intent/parse/route.ts:120 | the words after the token are all non-empty |
| IntentParse.WordsFacts | src/app/api/intent/parse/route.ts:120 | the split has no word exactly when the text is all separators; otherwise its first word is the first maximal run of non-separators |
| IntentParse.TargetAfter | src/app/api/intent/parse/route.ts:119-121 | after the first occurrence of the token, no target exactly when only separators follow; otherwise the target is the upper-cased first word of that remainder |
| IntentParse.DetectAction | src/app/api/intent/parse/route.ts:115-124 | with no action token, action and target are undefined; otherwise the first token in table order gives the action and the upper-cased first word after its first occurrence |
| IntentParse.ParseCommand | src/app/api/intent/parse/route.ts:32-68 | an event always carries a region, a phase and at least one channel |
| IntentParse.BadCommands | src/app/api/intent/parse/route.ts:35-42 | a missing, non-string or empty command, or one that is empty after stripping `/intent` and trimming, gets 400, and only those |
| AgentMemory.RecentIntentsFacts | src/hooks/useAgentMemory.tsx:118 | the recorded intent comes first and nowhere else; after it come the other intents, most recent first and in their old order, as many as fit in 5; so at most 5 are kept, all from before or the new one, none is dropped while fewer than 5 existed, and distinct intents stay distinct |
| AgentMemory.Others | src/hooks/useAgentMemory.tsx:118 | the other intents are exactly the old intents that differ from the new one, in their old order, and stay distinct when the old ones were |
| AgentMemory.QueuedFacts | src/hooks/useAgentMemory.tsx:132-164 | a suggestion whose id or target view is already queued changes nothing; otherwise the enriched suggestion comes first, followed by the first entries of the old list, at most 3 in all, none sharing its view |
| AgentMemory.QueuedUniqueViews | src/hooks/useAgentMemory.tsx:135-144 | queueing keeps the target views of the queue distinct |
| AgentMemory.WithoutFacts | src/hooks/useAgentMemory.tsx:174-201 | removing an id keeps exactly the other entries, in order, and drops as many entries as had that id |
| AgentMemory.Find | src/hooks/useAgentMemory.tsx:173-199 | the first suggestion with that id, or none exactly when no suggestion has it |
| AgentMemory.LoadSnapshot | src/hooks/useAgentMemory.tsx:57-79 | a loaded state always belongs to the requested project |
| AgentMemory.LoadSnapshotFacts | src/hooks/useAgentMemory.tsx:57-79 | no stored text, empty text or text that does not parse loads as the empty state; a parsed snapshot keeps its suggestions one for one, with `createdAt` kept exactly when it is a number |
| AgentMemory.Memory.constructor | src/hooks/useAgentMemory.tsx:88-92 | a new provider has no intents, no suggestions, no last view and nothing accepted |
| AgentMemory.Memory.TopbarCue | src/hooks/useAgentMemory.tsx:110-113 | the cue is the first suggestion's icon, and there is none without suggestions |
| AgentMemory.Memory.Load | src/hooks/useAgentMemory.tsx:96-100 | loading replaces the state with the loaded snapshot |
| AgentMemory.Memory.RecordIntent | src/hooks/useAgentMemory.tsx:115-123 | only the intent list changes, to the most-recent-first list with the new intent |
| AgentMemory.Memory.RecordView | src/hooks/useAgentMemory.tsx:125-130 | only the last view changes |
| AgentMemory.Memory.QueueSuggestion | src/hooks/useAgentMemory.tsx:132-167 | only the suggestion list changes, to the queued list |
| AgentMemory.Memory.DismissSuggestion | src/hooks/useAgentMemory.tsx:169-176 | returns the first suggestion with that id and removes exactly the entries with that id, leaving the rest of the state unchanged |
| AgentMemory.Memory.AcceptSuggestion | src/hooks/useAgentMemory.tsx:195-203 | returns the first suggestion with that id, removes the entries with that id and sets `lastAccepted` to the id, whether or not it was found |
| AgentMemory.Memory.ClearAllSuggestions | src/hooks/useAgentMemory.tsx:224-226 | only the suggestion list changes, and it becomes empty |
| SessionStore.LastNFacts | src/lib/agent/sessionStore.ts:57-74 | `slice(-n)` keeps the last min(length, n) items, the last item staying last |
| SessionStore.FreshSession | src/lib/agent/sessionStore.ts:34-48 | a fresh session belongs to the project, holds exactly one assistant message and has empty focus areas and no last intent |
| SessionStore.LoadSession | src/lib/agent/sessionStore.ts:14-50 | a loaded session always belongs to the requested project |
| SessionStore.LoadSessionFacts | src/lib/agent/sessionStore.ts:14-50 | the session is new exactly when the file is missing or does not parse, and then it is the fresh session; a stored session keeps its messages (none when not a list) and its `updatedAt` when present |
| SessionStore.Saved | src/lib/agent/sessionStore.ts:55-59 | the saved session differs only in its messages, at most 50 of them |
| SessionStore.SavedFacts | src/lib/agent/sessionStore.ts:55-59 | save keeps exactly the last min(#messages, 50) messages |
| SessionStore.Entry | src/lib/agent/sessionStore.ts:64-73 | a supplied id and ts are kept and a missing one is filled in; role and content are copied |
| SessionStore.AppendedFacts | src/lib/agent/sessionStore.ts:74 | the new message is last, at most 50 are kept, the rest is the tail of the old log, and nothing is dropped below 50 |
| SessionStore.Session.constructor | src/lib/agent/sessionStore.ts:20-31 | a session object holds the given data |
| SessionStore.Session.AppendMessage | src/lib/agent/sessionStore.ts:63-76 | the log becomes the old log with the entry appended and trimmed to 50, `updatedAt` becomes now, and the project and memory are unchanged |
| Security.AuthDisabled | src/lib/api/security.ts:8-13 | auth is disabled exactly when the setting is unset, is "1", or is "true" in any letter case |
| Security.ReplacePrefix | src/lib/api/security.ts:34 | on a header starting with the prefix, replacing its first occurrence removes exactly the leading prefix |
| Security.RequireAuthCases | src/lib/api/security.ts:15-43 | a request passes exactly when auth is disabled or a non-empty token equals the trimmed rest of a "Bearer " header; 500 exactly when auth is on and no token is configured; every other rejection is 401 |
| Security.BearerAccepted | src/lib/api/security.ts:26-42 | a header "Bearer " followed by the configured token passes |
| Security.CeilSeconds | src/lib/api/security.ts:80 | `Retry-After` is the least whole number of seconds covering the remaining milliseconds |
| Security.StepIsolated | src/lib/api/security.ts:67-90 | one request changes only its own client's entry, and its decision depends on that entry alone |
| Security.NewWindow | src/lib/api/security.ts:88-89 | a client with no entry or an expired one is allowed and starts a window of count 1 ending `windowMs` later |
| Security.InWindow | src/lib/api/security.ts:71-86 | inside the window a request is allowed exactly when the count is below `max`; allowing adds one, the window end is kept, and a refusal reports the remaining time and at least one second |
| Security.WindowLimit | src/lib/api/security.ts:71-86 | requests inside one window raise the count by the number allowed, never past `max` (or the starting count) |
| Security.AtMostMaxPerWindow | src/lib/api/security.ts:67-90 | from the request that opens a window, at most max(max, 1) requests are allowed before it expires |
| Security.RateLimiter.constructor | src/lib/api/security.ts:63-65 | a limiter starts with the given window and maximum and an empty store |
| Security.RateLimiter.Check | src/lib/api/security.ts:56-90 | the store and decision are one limiter step for the client key built from the forwarded address and the authorization prefix |
| Manifest.StatusCases | src/lib/identity/manifest.ts:103-111 | a pairing is active exactly when both approvers approved, declined exactly when either declined and not both approved, and pending otherwise |
| Manifest.FindOpen | src/lib/identity/manifest.ts:79-84 | finds the first record for the same human and agent manifests that is not declined, or none |
| Manifest.WithApproval | src/lib/identity/manifest.ts:97-101 | the approver's slot gets the new approval and the other approver's slot is untouched |
| Manifest.CreateOrUpdate | src/lib/identity/manifest.ts:71-115 | the returned index points into the updated records |
| Manifest.CreateOrUpdateFacts | src/lib/identity/manifest.ts:71-115 | an open pairing for the pair is updated in place, otherwise a new pending record with the new id is appended; no other record changes; the approver's decision is recorded, the other approval kept, and the status recomputed from both |
| Manifest.CreateOrUpdateKeepsOneOpen | src/lib/identity/manifest.ts:71-115 | if every manifest pair has at most one open pairing before, the same holds after |
| Manifest.ActivePairing | src/lib/identity/manifest.ts:117-120 | none exactly when no record is active; otherwise the FIRST active record in store order |
| Manifest.PairingStore.constructor | src/lib/identity/manifest.ts:62-65 | a store with no pairings file holds no records |
| Manifest.PairingStore.CreateOrUpdatePairing | src/lib/identity/manifest.ts:71-115 | the stored records become the updated records and the returned record is the one created or updated |
| Harmonization.ResolveField | src/domain/services/harmonization.ts:97-104 | the result is trimmed, and empty exactly when none of the keys holds a non-blank value |
| Harmonization.ResolveFieldFirst | src/domain/services/harmonization.ts:97-104 | the value comes from the first key, in the given order, that holds a non-blank value |
| Harmonization.OrNull | src/domain/services/harmonization.ts:141-144 | the falsy-to-null fallback turns the empty string, and only it, into null |
| Harmonization.SplitList | src/domain/services/harmonization.ts:146-151 | dependency pieces are non-empty, trimmed and contain neither ',' nor ';' |
| Harmonization.NormalizeRecord | src/domain/services/harmonization.ts:138-154 | the name (system name, else label) is empty exactly when neither key list holds a value; a domain, when present, is non-empty and trimmed |
| Harmonization.KeysOf | src/domain/services/harmonization.ts:229-230 | dependency names become normalised keys with empty keys dropped |
| Harmonization.RecordOf | src/domain/services/harmonization.ts:220-232 | one row yields at most one record |
| Harmonization.RecordsOf | src/domain/services/harmonization.ts:218-233 | a dataset yields no more records than rows |
| Harmonization.WellKeyedAppend | src/domain/services/harmonization.ts:218-233 | concatenating well-keyed record lists keeps them well keyed |
| Harmonization.RecordWellKeyed | src/domain/services/harmonization.ts:220-232 | a kept record has a non-empty name, its key is the name's normalised key, non-empty and not a junk label, its dependency keys are non-empty keys, and it carries the dataset's source |
| Harmonization.RecordsWellKeyed | src/domain/services/harmonization.ts:218-233 | every record of a dataset is well keyed and carries the dataset's source |
| Harmonization.AllRecordsWellKeyed | src/domain/services/harmonization.ts:202-235 | every record built from all datasets is well keyed |
| Harmonization.CsvRow | src/domain/services/harmonization.ts:124-129 | a row has exactly the header's fields; each holds the column of the last header with that name, or "" past the end of the line |
| Harmonization.DataRows | src/domain/services/harmonization.ts:123-130 | one row per data line |
| Harmonization.DataRowsSnoc | src/domain/services/harmonization.ts:123-130 | adding a line adds its row at the end |
| Harmonization.CsvRows | src/domain/services/harmonization.ts:116-136 | a file with k non-blank lines gives k-1 rows, none when it is missing or empty |
| Harmonization.ParseCsvFile | src/domain/services/harmonization.ts:116-136 | the loop builds exactly the rows of the specification |
| Harmonization.BuildRawRecords | src/domain/services/harmonization.ts:156-200 | current data is present exactly when the mode includes it and Lucid, inventory or the current CSV has rows; future data likewise from the future JSON or CSV |
| Harmonization.Tokens | src/domain/services/harmonization.ts:250-251 | splitting on " " always yields at least one token |
| Harmonization.SubsetEqualCard | src/domain/services/harmonization.ts:247-255 | a subset of equal size is the whole set (used for the Jaccard bounds) |
| Harmonization.Jaccard | src/domain/services/harmonization.ts:247-255 | the similarity lies in [0, 1] |
| Harmonization.UnitRatio | src/domain/services/harmonization.ts:252-254 | an intersection count over a larger union count lies in [0, 1] |
| Harmonization.JaccardSymmetric | src/domain/services/harmonization.ts:247-255 | similarity is symmetric and 0 when either side is empty |
| Harmonization.JaccardOne | src/domain/services/harmonization.ts:247-255 | for non-empty keys the similarity is 1 exactly when the token sets agree, and equal keys score 1 |
| Harmonization.JaccardZero | src/domain/services/harmonization.ts:247-255 | for non-empty keys the similarity is 0 exactly when no token is shared |
| Harmonization.Scores | src/domain/services/harmonization.ts:262-263 | one similarity per known key, in key order |
| Harmonization.BestIndex | src/domain/services/harmonization.ts:261-267 | the best score is a maximum and is taken from its first occurrence (a later key needs a strictly higher score) |
| Harmonization.ResolveCases | src/domain/services/harmonization.ts:257-272 | an exact normalised key resolves to itself; otherwise a key is found exactly when some known key scores at least 0.5; the result is always a known key |
| Harmonization.ResolveBest | src/domain/services/harmonization.ts:257-272 | a fuzzy match scores at least 0.5, no key scores higher, and no earlier key scores as high |
| Harmonization.Resolver | src/domain/services/harmonization.ts:257-272 | the loop returns exactly the specified resolution |
| Harmonization.BestMatch | src/domain/services/harmonization.ts:262-267 | the scan over the keys ends at the first highest score, which `BestIndex` shows to be a maximum taken at its first occurrence, and keeps that score |
| Harmonization.StateCases | src/domain/services/harmonization.ts:275-290 | without future data every system is unchanged; otherwise added exactly when only in the future, removed exactly when only current, modified when in both and changed, else unchanged |
| HarmonizedGraph.Requests | src/domain/services/harmonization.ts:334-335 | one edge request per upstream and downstream name, each carrying the record's source and touching the record's key |
| HarmonizedGraph.MergeRecords | src/domain/services/harmonization.ts:317-336 | the merge loop produces exactly the specified key order, merged entries and edge requests |
| HarmonizedGraph.SeenSnoc | src/domain/services/harmonization.ts:317-320 | a key has been seen after one more record exactly when it was seen before or is that record's key |
| HarmonizedGraph.UnseenNone | src/domain/services/harmonization.ts:317-320 | a key never seen has no records |
| HarmonizedGraph.MergeOrder | src/domain/services/harmonization.ts:317-336 | merged keys are distinct, listed in first-seen order, exactly the keys of the records, each entry stored under its own key |
| HarmonizedGraph.MergeEntries | src/domain/services/harmonization.ts:317-333 | each merged entry is the fold of exactly the records with its key |
| HarmonizedGraph.FirstDomainFacts | src/domain/services/harmonization.ts:328-331 | the first domain is the domain of the first record that has one, and none exactly when no record has one |
| HarmonizedGraph.EntryFacts | src/domain/services/harmonization.ts:319-329 | an entry keeps the first record's key and name; its sources are distinct, start with the first record's source and are exactly the sources among the records |
| HarmonizedGraph.EntryDomain | src/domain/services/harmonization.ts:328-331 | with non-empty domains the entry's domain is the first domain seen |
| HarmonizedGraph.EntryChanged | src/domain/services/harmonization.ts:328-331 | an entry is changed exactly when some record brings a domain different from the one held at that point |
| HarmonizedGraph.Clamp01 | src/domain/services/harmonization.ts:357 | the result lies in [0, 1] and a value already there is kept |
| HarmonizedGraph.ConfidenceRange | src/domain/services/harmonization.ts:344-357 | confidence lies in [0.45, 0.95], so clamping keeps it; 0.95 exactly for a system in all three sources and unchanged, 0.45 exactly for one in none and changed; each source strictly raises it |
| HarmonizedGraph.NodesOf | src/domain/services/harmonization.ts:339-359 | one node per merged key |
| HarmonizedGraph.BuildNodes | src/domain/services/harmonization.ts:339-359 | the node loop produces exactly the specified nodes |
| HarmonizedGraph.DashIndex | src/domain/services/harmonization.ts:369 | in an edge id "from->to" built from a key, the first '-' sits right after the key |
| HarmonizedGraph.EdgeIdInjective | src/domain/services/harmonization.ts:369-371 | different key pairs give different edge ids, so deduplicating by id deduplicates by endpoints |
| HarmonizedGraph.BuildEdges | src/domain/services/harmonization.ts:365-380 | the edge loop produces exactly the specified edges |
| HarmonizedGraph.EdgesFacts | src/domain/services/harmonization.ts:365-380 | edges join resolved keys, ids are distinct, and every request whose ends both resolve has its edge |
| HarmonizedGraph.EdgePairsUnique | src/domain/services/harmonization.ts:369-371 | no two edges share both endpoints |
| HarmonizedGraph.ViewEdges | src/domain/services/harmonization.ts:402-422 | a view keeps nodes and edges in order and only edges between kept nodes |
| HarmonizedGraph.SameId | src/domain/services/harmonization.ts:339-359 | with unique ids a node is determined by its id |
| HarmonizedGraph.KeepByIds | src/domain/services/harmonization.ts:403-418 | keeping nodes by the ids of the filtered nodes keeps exactly the nodes the filter selects |
| HarmonizedGraph.ViewNodes | src/domain/services/harmonization.ts:402-422 | the current view keeps exactly the removed systems, the future view the added ones, and the full view the changed ones, or everything when nothing changed |
| HarmonizedGraph.KeepAll | src/domain/services/harmonization.ts:418-421 | a filter every element passes keeps the list as it is |
| HarmonizedGraph.FilterUnique | src/domain/services/harmonization.ts:402-422 | filtering keeps node ids unique |
| HarmonizedGraph.FilterDistinctEdges | src/domain/services/harmonization.ts:402-422 | filtering keeps edges distinct |
| HarmonizedGraph.MergedKeys | src/domain/services/harmonization.ts:317-336 | merging well-keyed records gives distinct, normalised keys, each with an entry |
| HarmonizedGraph.AllRecordsWellKeyedInput | src/domain/services/harmonization.ts:156-236 | every record built from the inputs is well keyed |
| HarmonizedGraph.HarmonizeSystems | src/domain/services/harmonization.ts:292-422 | the pipeline's nodes and edges are exactly the specified graph for the mode |
| HarmonizedGraph.NodeOfFacts | src/domain/services/harmonization.ts:339-359 | a node's id is its entry's key and its confidence lies in [0.45, 0.95] |
| HarmonizedGraph.NodesFacts | src/domain/services/harmonization.ts:339-359 | node ids are unique and every confidence lies in [0.45, 0.95] |
| HarmonizedGraph.GraphEdgesFacts | src/domain/services/harmonization.ts:362-380 | edges are distinct and join existing nodes |
| HarmonizedGraph.ViewFacts | src/domain/services/harmonization.ts:402-422 | every view keeps unique node ids, distinct edges, edges only between kept nodes and the confidence bounds |
| HarmonizedGraph.GraphFacts | src/domain/services/harmonization.ts:317-422 | the graph for any well-keyed records has unique node ids, distinct edges between its own nodes and confidences in [0.45, 0.95] |
| HarmonizedGraph.HarmonizedFacts | src/domain/services/harmonization.ts:292-422 | the same holds for the graph built from any inputs |
| Validate.SeenIds | src/lib/schema/validate.ts:52-62 | the seen set holds exactly the non-empty ids of the items |
| Validate.DuplicateWarnings | src/lib/schema/validate.ts:51-64 | the loop produces exactly the specified duplicate warnings |
| Validate.RepeatPrefix | src/lib/schema/validate.ts:54-62 | whether an item repeats an earlier id depends only on the items up to it |
| Validate.RepeatLast | src/lib/schema/validate.ts:55-61 | the last item is a repeat exactly when its id is non-empty and already seen |
| Validate.DuplicatesSound | src/lib/schema/validate.ts:51-64 | every warning names an item, with its index and id, whose non-empty id occurs at an earlier index |
| Validate.DuplicatesComplete | src/lib/schema/validate.ts:51-64 | every repeated non-empty id gets a warning at its index |
| Validate.DuplicatesOrdered | src/lib/schema/validate.ts:54-62 | warnings come in strictly increasing index order |
| Validate.DuplicatesCount | src/lib/schema/validate.ts:51-64 | warnings plus distinct ids equal the number of items with an id |
| Validate.FreshnessWarnings | src/lib/schema/validate.ts:66-76 | the loop produces exactly the specified freshness warnings |
| Validate.FreshnessCount | src/lib/schema/validate.ts:66-76 | one warning per item missing `lastUpdated` plus one per item missing `source` |
| Validate.FreshnessSound | src/lib/schema/validate.ts:71-74 | every warning names an item that really lacks the field it names |
| Validate.FreshnessComplete | src/lib/schema/validate.ts:71-74 | every missing `lastUpdated` and every missing `source` is reported at its index |
| Validate.LastTime | src/lib/schema/validate.ts:80-91 | the last valid timestamp seen is that of the latest item holding one, none when no item does |
| Validate.TimestampQualityWarnings | src/lib/schema/validate.ts:78-94 | the loop produces exactly the specified timestamp warnings |
| Validate.QualityPrefix | src/lib/schema/validate.ts:81-92 | whether an item is invalid or regresses depends only on the items up to it |
| Validate.TimestampQualitySound | src/lib/schema/validate.ts:78-94 | an invalid-format warning names an item whose timestamp does not parse; a regression warning names a valid timestamp earlier than the previous valid one |
| Validate.TimestampQualityComplete | src/lib/schema/validate.ts:78-94 | every unparsable timestamp and every regression is reported at its index |
| Validate.TimestampQualityOrdered | src/lib/schema/validate.ts:81-92 | warnings come in strictly increasing index order |
| Validate.NoRegressionWhenOrdered | src/lib/schema/validate.ts:88-90 | when the valid timestamps are non-decreasing no regression is reported |
| Validate.Latest | src/lib/schema/validate.ts:39-46 | the latest update is the maximum of the valid timestamps, none when there are none |
| Cognition.TreeFacts | src/domain/services/cognition.ts:45-72 | a capability tree has at least one leaf and height one, and neither exceeds its size |
| Cognition.ForestFacts | src/domain/services/cognition.ts:41-72 | a forest is empty exactly when its size, and its height, is 0; a non-empty one has a leaf; leaves, height and the number of roots are bounded by the size |
| Cognition.Entries | src/domain/services/cognition.ts:41-70 | pushing children puts one stack entry per child, in order, at the given depth |
| Cognition.PushVisit | src/domain/services/cognition.ts:45-72 | the nodes still to be visited after pushing a forest are that forest's visit followed by the rest of the stack |
| Cognition.PopVisit | src/domain/services/cognition.ts:46-71 | popping the top entry visits it, then its children at the next depth, then the rest |
| Cognition.StepVisit | src/domain/services/cognition.ts:45-72 | one iteration moves the popped entry to the visited list without changing the whole visit order, and the work left strictly shrinks |
| Cognition.LeafCount | src/domain/services/cognition.ts:65-67 | there are no more leaves than visited nodes |
| Cognition.LeafCountAppend | src/domain/services/cognition.ts:65-67 | leaf counts add up over concatenated visits |
| Cognition.MaxDepthAppend | src/domain/services/cognition.ts:62 | the running maximum depth of concatenated visits is the larger maximum |
| Cognition.TreeVisitStats | src/domain/services/cognition.ts:45-72 | visiting a tree from depth d counts its size and leaves and reaches depth d-1+height |
| Cognition.ForestVisitStats | src/domain/services/cognition.ts:41-72 | the same for a forest, with depth 0 for an empty one |
| Cognition.InsightsCases | src/domain/services/cognition.ts:81-133 | `empty_tree` exactly when there are no nodes; `very_small_tree` exactly for 1 to 4 nodes; `duplicate_names` exactly when some name repeats; `flat_structure` exactly for a non-empty tree of depth at most 1; `mostly_leaves` exactly when over 85% are leaves and depth exceeds 1 |
| Cognition.InsightsHas | src/domain/services/cognition.ts:81-133 | an insight is present exactly when one of the four checks pushed it |
| Cognition.RatioAbove | src/domain/services/cognition.ts:122-123 | `leafCount / totalNodes > 0.85` is the integer test 100*leaves > 85*total |
| Cognition.DupesNonEmpty | src/domain/services/cognition.ts:99-100 | the duplicate list is non-empty exactly when some lower-cased trimmed name occurs more than once |
| Cognition.ValuesInOrder | src/domain/services/cognition.ts:99 | the map's values are listed in first-insertion order |
| Cognition.RepeatedOk | src/domain/services/cognition.ts:99 | filtering the counts for more than one gives a correct duplicate list |
| Cognition.RepeatedDistinct | src/domain/services/cognition.ts:99 | no two duplicates share a case-insensitive name |
| Cognition.RepeatedListed | src/domain/services/cognition.ts:99 | every name occurring more than once is listed |
| Cognition.CountName | src/domain/services/cognition.ts:49-55 | counting a node keeps each key's count equal to its occurrences so far, with the first spelling kept as the name |
| Cognition.CountLevel | src/domain/services/cognition.ts:57-60 | the per-level counts stay equal to the number of visited nodes with that level |
| Cognition.CountNode | src/domain/services/cognition.ts:46-71 | counting a node keeps the tally equal to the statistics of the nodes visited so far |
| Cognition.PushChildren | src/domain/services/cognition.ts:68-70 | the children are pushed in order at the next depth |
| Cognition.VisitTop | src/domain/services/cognition.ts:45-72 | one loop iteration keeps the tally correct, keeps the overall visit order and shrinks the remaining work |
| Cognition.Walk | src/domain/services/cognition.ts:39-72 | the walk's tally is the statistics of the depth-first visit of the roots |
| Cognition.AnalyzeCapabilitiesStructure | src/domain/services/cognition.ts:30-135 | the snapshot's node count, leaf count and depth are the forest's size, leaves and height, its level counts are correct, and the insights are those of the snapshot with the correct duplicate list |
| Cognition.SnapshotFacts | src/domain/services/cognition.ts:74-79 | the snapshot is empty exactly when there are no roots; otherwise depth and leaves are at least one; both are bounded by the node count |
| Cognition.TaggedCount | src/domain/services/cognition.ts:57-60 | nodes with one of the given levels are no more than all nodes |
| Cognition.TaggedSplit | src/domain/services/cognition.ts:57-60 | nodes tagged with a set of levels split into those of one level and the rest |
| Cognition.SumLevels | src/domain/services/cognition.ts:57-60 | summing the per-level counts gives the number of nodes carrying one of those levels |
| Cognition.EmptyTags | src/domain/services/cognition.ts:57-60 | no node carries a level from the empty set |
| Cognition.LevelsBounded | src/domain/services/cognition.ts:57-79 | the per-level counts sum to at most the total node count |
| IntegrationFlows.JsString | src/app/api/ale/integration-flows/route.ts:45-48 | `String(v)` of a string is the string itself |
| IntegrationFlows.OptionalText | src/app/api/ale/integration-flows/route.ts:49-54 | an optional text field is present exactly when the input value is truthy |
| IntegrationFlows.NumberOr | src/app/api/ale/integration-flows/route.ts:52-55 | a number is kept as it is; a missing or null value gives the default |
| IntegrationFlows.SanitizeFlow | src/app/api/ale/integration-flows/route.ts:39-57 | a flow is produced exactly for an object with truthy `flow_id`, `source`, `system_from` and `system_to`; string ids are kept; `last_seen` defaults to now; optional texts are present exactly when truthy; confidence defaults to 0.8 and latency and error rate to 0 |
| IntegrationFlows.InputArray | src/app/api/ale/integration-flows/route.ts:74-75 | an array body is used as it is, another truthy body becomes a one-element list, and a missing or falsy body gives none |
| IntegrationFlows.SanitizeAll | src/app/api/ale/integration-flows/route.ts:76-78 | one flow per valid input item |
| IntegrationFlows.SanitizeAllFrom | src/app/api/ale/integration-flows/route.ts:76-78 | every stored flow is the sanitised form of some input item |
| IntegrationFlows.LastWithId | src/app/api/ale/integration-flows/route.ts:85-86 | the flow a map keyed by id ends up holding is the last flow with that id, none when no flow has it |
| IntegrationFlows.Values | src/app/api/ale/integration-flows/route.ts:87 | the map's values are listed in insertion order of their keys |
| IntegrationFlows.PutOk | src/app/api/ale/integration-flows/route.ts:86 | setting a key keeps the insertion-ordered map consistent |
| IntegrationFlows.PutAllFacts | src/app/api/ale/integration-flows/route.ts:85-86 | after setting a list of flows a key is present exactly when it was before or some flow has it, and it holds the last such flow, else the old value |
| IntegrationFlows.MergedMap | src/app/api/ale/integration-flows/route.ts:84-87 | the merged list is the map built from the stored flows then the incoming ones; each id holds the last incoming flow with it, else the last stored one |
| IntegrationFlows.MergedDistinct | src/app/api/ale/integration-flows/route.ts:84-87 | merged flows have distinct ids |
| IntegrationFlows.MergedWinner | src/app/api/ale/integration-flows/route.ts:84-87 | each merged flow is the last incoming flow with its id or, if none came in, the last stored one |
| IntegrationFlows.MergedIds | src/app/api/ale/integration-flows/route.ts:84-87 | the merged ids are exactly the stored and incoming ids |
| IntegrationFlows.IncomingStored | src/app/api/ale/integration-flows/route.ts:86 | an incoming flow not overridden later in the same request is stored |
| IntegrationFlows.LastWithIdSuffix | src/app/api/ale/integration-flows/route.ts:85-86 | a flow with no later flow of the same id is the last one with its id |
| IntegrationFlows.UntouchedKept | src/app/api/ale/integration-flows/route.ts:84-87 | a stored flow whose id does not come in again (and is last with its id) stays |
| IntegrationFlows.Kept | src/app/api/ale/integration-flows/route.ts:102 | deleting by source keeps exactly the flows of other sources, in order; deleting with no source keeps nothing |
| IntegrationFlows.RemovedCount | src/app/api/ale/integration-flows/route.ts:102-104 | the number removed is the number of flows of the given source |
| IntegrationFlows.FlowStore.constructor | src/app/api/ale/integration-flows/route.ts:24-32 | a missing store file reads as no flows |
| IntegrationFlows.FlowStore.List | src/app/api/ale/integration-flows/route.ts:59-70 | GET returns exactly the flows of the requested source, in order, or all flows when no source is given |
| IntegrationFlows.FlowStore.Post | src/app/api/ale/integration-flows/route.ts:72-95 | with no valid flow the request is refused and nothing changes; otherwise the store becomes the merge and the response reports the number received and the new total |
| IntegrationFlows.FlowStore.Delete | src/app/api/ale/integration-flows/route.ts:97-110 | the store keeps the flows of other sources (none without a source) and the response reports removed and remaining counts |
| IntegrationFlows.MergeFlows | src/app/api/ale/integration-flows/route.ts:84-87 | the loop produces exactly the specified merge |
| DraftBuilder.FallbackAwareness | src/lib/sequencer/draftBuilder.ts:70-79 | the fallback awareness has overall confidence 0.3, no field confidences, no risk flags, zero blast radius and footprint, and every coupling and constraint off |
| DraftBuilder.Lookup | src/lib/sequencer/draftBuilder.ts:40-42 | an optional per-stage map gives a value exactly when it is present and holds the stage id |
| DraftBuilder.BuildStage | src/lib/sequencer/draftBuilder.ts:26-53 | a draft stage keeps its id, lasts at least one month (end-start+1 for an ordered range) and covers the stage's end, uses the supplied awareness or the fallback, has no region scope when none is given, and one import provenance entry |
| DraftBuilder.StageValues | src/lib/sequencer/draftBuilder.ts:26 | the stage map's values are listed in insertion order |
| DraftBuilder.BuildSequenceDraft | src/lib/sequencer/draftBuilder.ts:22-68 | the draft has one stage per map entry, in order, each built from its stage; its stage count is that number; created and updated times are now; the version defaults to "static-seed" |
| DraftBuilder.DistinctCard | src/lib/sequencer/draftBuilder.ts:26-64 | a map with distinct insertion-ordered keys has as many keys as entries |
| DraftBuilder.DraftFacts | src/lib/sequencer/draftBuilder.ts:22-68 | the stage count equals the number of stages in the map, every stage lasts at least a month, and stage ids follow the map's order |
| DraftBuilder.StartLabelYear | src/lib/sequencer/draftBuilder.ts:34 | a stage's start label reads back as the fiscal year of its start index |
| SceneHelpers.RangesOverlapFacts | src/components/experience/scenes/SequencerScene.tsx:4236-4238 | range overlap is symmetric, and for ordered ranges it holds exactly when the later start lies in both ranges |
| SceneHelpers.Clamp01 | src/components/experience/scenes/SequencerScene.tsx:2129-2134 | the result lies in [0, 1], a value already there is kept, and a non-finite value gives 0 |
| SceneHelpers.Clamp01Facts | src/components/experience/scenes/SequencerScene.tsx:2129-2134 | clamping is idempotent and monotone |
| SceneHelpers.DropLeadingHyphens | src/components/experience/scenes/SequencerScene.tsx:2116 | removing leading hyphens leaves a suffix that does not start with '-' |
| SceneHelpers.DropTrailingHyphens | src/components/experience/scenes/SequencerScene.tsx:2116 | removing trailing hyphens leaves a prefix that does not end with '-' and keeps the first character |
| SceneHelpers.SliceShape | src/components/experience/scenes/SequencerScene.tsx:2113-2116 | a slice of a dashed string (lower-case letters and digits with single hyphens) is dashed |
| SceneHelpers.Dashify | src/components/experience/scenes/SequencerScene.tsx:2113-2115 | the lower-cased text's alphanumeric runs joined by single '-', with one '-' in front when the text starts with other characters and one behind when it ends with them; the result has only lower-case letters, digits and single hyphens |
| SceneHelpers.TrimHyphens | src/components/experience/scenes/SequencerScene.tsx:2116 | trimming hyphens from a dashed string gives "" or a slug |
| SceneHelpers.Slugify | src/components/experience/scenes/SequencerScene.tsx:2112-2117 | the lower-cased value's alphanumeric runs joined by '-', or "lane" when there are none; the result is always a slug with no hyphen at either end |
| SceneHelpers.SlugWords | src/components/experience/scenes/SequencerScene.tsx:2113-2116 | stripping the hyphens at both ends of the dashed text leaves exactly the alphanumeric runs joined by '-' |
| SceneHelpers.SlugFixed | src/components/experience/scenes/SequencerScene.tsx:2112-2117 | a slug is its own slug |
| SceneHelpers.SlugifyIdempotent | src/components/experience/scenes/SequencerScene.tsx:2112-2117 | slugifying twice is slugifying once |
| SceneHelpers.WaveKey | src/components/experience/scenes/SequencerScene.tsx:2123-2127 | a wave key is the slug of the wave id when given, else of the label when given, else "wave"; it is always a slug |
| SceneHelpers.SlugHasNoUnderscore | src/components/experience/scenes/SequencerScene.tsx:2112-2117 | a slug never contains '_' |
| SceneHelpers.InferWorkloadSize | src/components/experience/scenes/SequencerScene.tsx:1973-1980 | with 5 systems and 12 integrations by default: XL exactly when systems ≥ 16 or integrations ≥ 40, at least L exactly at 11 or 28, at least M exactly at 7 or 18, otherwise S |
| SceneHelpers.WorkloadSizeMonotone | src/components/experience/scenes/SequencerScene.tsx:1973-1980 | more systems and integrations never give a smaller size, and the defaults give S |
| SceneHelpers.SceneFiscalYear | src/components/experience/scenes/SequencerScene.tsx:1944-1948 | the scene's fiscal year is the two digits after "FY", below 100 (0 when absent) |
| SceneHelpers.SceneFiscalYearTwoDigits | src/components/experience/scenes/SequencerScene.tsx:1944-1948 | the scene's year is the collision module's four-digit fiscal year minus 2000 |
| SceneHelpers.ResolveLabelToIndexAsWritten | src/components/experience/scenes/SequencerScene.tsx:4225-4234 | as written, an FY label resolves to yy*12 (+11 at the end of the year), using the two-digit year; any other label resolves to the month index of its parsed date, or to none when it does not parse |
| SceneHelpers.FiscalDeadlineBeforeItsYear | src/components/experience/scenes/SequencerScene.tsx:4225-4229 | as written, every month of the named fiscal year lies more than 18 months after the resolved deadline |
| SceneHelpers.ResolveLabelToIndex | src/components/experience/scenes/SequencerScene.tsx:4176-4234 | corrected: an FY label resolves to the first or last month of that fiscal year (2000 + yy); any other label resolves to the month index of its parsed date, or to none when it does not parse |
| SceneHelpers.DateIndex | src/components/experience/scenes/SequencerScene.tsx:4230-4233 | an unparsable date gives none, a parsed one a month index |
| SceneHelpers.DateIndexReadsBack | src/components/experience/scenes/SequencerScene.tsx:4232-4233 | the month index `year * 12 + month` of a date reads back as its year and its month (0..11) |
| SceneHelpers.NonFiscalAsWritten | src/components/experience/scenes/SequencerScene.tsx:4230-4233 | the correction changes only FY labels: every other label resolves as written |
| SceneHelpers.FiscalDeadlineCoversItsYear | src/components/experience/scenes/SequencerScene.tsx:4225-4229 | corrected: every month of the named fiscal year lies between its start and end resolutions |
| SceneHelpers.SumConflictsAppend | src/components/experience/scenes/SequencerScene.tsx:3487 | conflict totals add over concatenation |
| SceneHelpers.AllLinked | src/components/experience/scenes/SequencerScene.tsx:3473 | the flattened stage ids are exactly those linked by some item |
| SceneHelpers.RegionLabels | src/components/experience/scenes/SequencerScene.tsx:3474-3479 | the region labels are exactly the given labels of the items |
| SceneHelpers.Aggregated | src/components/experience/scenes/SequencerScene.tsx:3480-3489 | the aggregate has id "scenario-supporting", title "Supporting maneuvers", the hypothesis text "Grouped <n> supporting tracks to keep hypotheses concise." for n items, track label "Supporting" and the summed conflict count; its linked stages are the distinct ids linked by the items, in first-seen order; its region label is absent exactly when no item has one, and otherwise is the distinct given labels, in first-seen order, joined by " · " |
| SceneHelpers.LimitScenarioHypotheses | src/components/experience/scenes/SequencerScene.tsx:3469-3491 | at most 5 hypotheses: a list of up to 5 is kept as it is; a longer one keeps its first 4 and aggregates the rest into the fifth |
| SceneHelpers.LimitKeepsTotals | src/components/experience/scenes/SequencerScene.tsx:3469-3491 | limiting keeps the total conflict count and the set of linked stages |
| SceneHelpers.TakeFacts | src/components/experience/scenes/SequencerScene.tsx:3899-3911 | the chunk holds the first min(count, matches) components whose lower-cased domain equals the normalised domain, in pool order; chunk and rest together have the pool's length, the rest is a subsequence of the pool, and a short chunk leaves no match in the rest |
| SceneHelpers.TakeOrder | src/components/experience/scenes/SequencerScene.tsx:3899-3911 | the chunk is a prefix of the pool's components of the domain, in pool order |
| SceneHelpers.TakeComponentsFromPool | src/components/experience/scenes/SequencerScene.tsx:3899-3911 | the splicing loop returns exactly the specified chunk and leaves exactly the specified rest in the pool |
| SceneHelpers.TakeStep | src/components/experience/scenes/SequencerScene.tsx:3902-3909 | one iteration (take or skip a component) keeps the chunk and pool on course for the specified split and shrinks the work left |
| Feasibility.StatusOf | src/components/experience/scenes/SequencerScene.tsx:4108-4113 | not feasible exactly when some blocker has severity 3, at risk exactly when some has severity 2 or more and none 3, feasible exactly when every blocker has severity 1 |
| Feasibility.StatusOfSubset | src/components/experience/scenes/SequencerScene.tsx:4108-4113 | fewer blockers never give a worse status |
| Feasibility.ResolveDeadlineIndex | src/components/experience/scenes/SequencerScene.tsx:4208-4215 | no deadline or an empty value gives none; an FY deadline resolves to the end of its fiscal year; any other deadline resolves its label to the start of the year (`preferEndOfYear` false) |
| Feasibility.MinStart | src/components/experience/scenes/SequencerScene.tsx:3993 | the earliest stage start |
| Feasibility.MaxEnd | src/components/experience/scenes/SequencerScene.tsx:3994 | the latest stage end |
| Feasibility.FirstEndingAt | src/components/experience/scenes/SequencerScene.tsx:4006 | none exactly when no stage ends at the month; otherwise the id of the FIRST stage that does |
| Feasibility.ScheduleSeverity | src/components/experience/scenes/SequencerScene.tsx:4000 | severity 3 exactly for an overrun above 18 months, 1 exactly for at most 6 |
| Feasibility.ScheduleBlocker | src/components/experience/scenes/SequencerScene.tsx:3998-4011 | a schedule blocker exactly when a deadline resolves and the last stage ends after it, with the overrun's severity |
| Feasibility.BudgetBlocker | src/components/experience/scenes/SequencerScene.tsx:4023-4036 | a budget blocker exactly when a non-zero cap is given and the estimate exceeds it (in millions), with severity 3 exactly when the estimate exceeds the cap by more than 40 % of it, and 2 otherwise |
| Feasibility.HighCount | src/components/experience/scenes/SequencerScene.tsx:4039 | high collisions are no more than all collisions |
| Feasibility.PairIds | src/components/experience/scenes/SequencerScene.tsx:4045 | two stage ids per collision |
| Feasibility.CollisionBlocker | src/components/experience/scenes/SequencerScene.tsx:4037-4052 | a collision blocker exactly when there are collisions; severity 3 exactly with more than one high, 1 exactly with no high and at most 3 collisions |
| Feasibility.HitsOf | src/components/experience/scenes/SequencerScene.tsx:4147-4151 | one window's hits are exactly the stages overlapping its months |
| Feasibility.DetectBlackoutConflicts | src/components/experience/scenes/SequencerScene.tsx:4137-4154 | every hit names one of the stages (windows resolved with the corrected FY resolution) |
| Feasibility.BlackoutConflictsIff | src/components/experience/scenes/SequencerScene.tsx:4137-4154 | a stage is reported exactly when it overlaps some window whose both ends resolve |
| Feasibility.BlackoutBlocker | src/components/experience/scenes/SequencerScene.tsx:4053-4067 | a blackout blocker exactly when some stage hits a window; severity 3 exactly for more than two hits, else 2 |
| Feasibility.DualRunViolations | src/components/experience/scenes/SequencerScene.tsx:4069-4072 | the violating stages are exactly those whose dual-run months exceed the limit |
| Feasibility.HitStageIds | src/components/experience/scenes/SequencerScene.tsx:4060 | one stage id per hit |
| Feasibility.StageIds | src/components/experience/scenes/SequencerScene.tsx:4078 | one id per stage |
| Feasibility.DualRunBlocker | src/components/experience/scenes/SequencerScene.tsx:4068-4082 | a capacity blocker exactly when a limit is set and some stage exceeds it; severity 3 exactly for more than one |
| Feasibility.CatalogMembers | src/components/experience/scenes/SequencerScene.tsx:4156-4160 | the catalogue holds exactly the lower-cased systems touched by some stage |
| Feasibility.MissingSystems | src/components/experience/scenes/SequencerScene.tsx:4156-4162 | the missing systems are exactly the required ones whose lower-cased name no stage touches |
| Feasibility.DependencyBlocker | src/components/experience/scenes/SequencerScene.tsx:4083-4093 | a severity-2 dependency gate exactly when some required system is missing |
| Feasibility.BigBangBlocker | src/components/experience/scenes/SequencerScene.tsx:4094-4107 | with "no big bang" set, a severity-3 capacity blocker exactly when some stage touches 10 or more systems, naming one stage |
| Feasibility.FirstBig | src/components/experience/scenes/SequencerScene.tsx:4095-4097 | none exactly when no stage touches 10 or more systems; otherwise the FIRST stage that does |
| Feasibility.WithoutSchedule | src/components/experience/scenes/SequencerScene.tsx:4195 | drops exactly the schedule blockers |
| Feasibility.ComputeDeadlineWhatIf | src/components/experience/scenes/SequencerScene.tsx:4183-4210 | a what-if exactly when a deadline resolves and there is a schedule blocker, with entries for 6, 12 and 24 months |
| Feasibility.WhatIfMonotone | src/components/experience/scenes/SequencerScene.tsx:4183-4210 | a longer extension never gives a worse status, and none is worse than the current status |
| Feasibility.StageCostsNonNegative | src/components/experience/scenes/SequencerScene.tsx:4014-4022 | per-stage integration costs add up to a non-negative amount |
| Feasibility.BudgetFloorAtLeastLabour | src/components/experience/scenes/SequencerScene.tsx:4013-4022 | the budget floor is at least 1.5M per stage |
| Feasibility.EstimateBudget | src/components/experience/scenes/SequencerScene.tsx:4013-4022 | the loop computes exactly the specified budget floor |
| Feasibility.Pushed | src/components/experience/scenes/SequencerScene.tsx:4001-4041 | a check pushes its blocker when it has one, and nothing otherwise |
| Feasibility.HasCodeAppend | src/components/experience/scenes/SequencerScene.tsx:3977-4107 | a code occurs in concatenated blockers exactly when it occurs in either part |
| Feasibility.Checks | src/components/experience/scenes/SequencerScene.tsx:3998-4107 | the seven checks run in source order, each producing only its own code |
| Feasibility.OwnCheck | src/components/experience/scenes/SequencerScene.tsx:3998-4093 | the schedule, collision and dependency codes appear exactly when their own check fires |
| Feasibility.PushAll | src/components/experience/scenes/SequencerScene.tsx:3977-4107 | no more blockers than checks |
| Feasibility.PushAllHasCode | src/components/experience/scenes/SequencerScene.tsx:3977-4107 | a code appears exactly when some check produced it |
| Feasibility.AllBlockers | src/components/experience/scenes/SequencerScene.tsx:3977-4107 | at most seven blockers |
| Feasibility.AllBlockersCodes | src/components/experience/scenes/SequencerScene.tsx:3977-4107 | a schedule blocker exactly when the last stage ends after the deadline, a collision blocker exactly when there are collisions, a dependency gate exactly when a required system is missing |
| Feasibility.Evaluate | src/components/experience/scenes/SequencerScene.tsx:3993-4125 | the result lists exactly the checks' blockers |
| Feasibility.EvaluateStatus | src/components/experience/scenes/SequencerScene.tsx:4108-4114 | not feasible exactly with a severity-3 blocker, feasible exactly when all are severity 1, confidence in [0, 0.9], and no blockers means feasible at 0.9 |
| Feasibility.EvaluateCodes | src/components/experience/scenes/SequencerScene.tsx:3993-4125 | as for the blockers, and a what-if exactly when the schedule is too short |
| Feasibility.EvaluateDuration | src/components/experience/scenes/SequencerScene.tsx:3993-3995 | the minimum duration covers every stage and is max(0, latest end - earliest start + 1) |
| Feasibility.EvaluateFeasibility | src/components/experience/scenes/SequencerScene.tsx:3969-4125 | no stages gives the fixed at-risk result; otherwise the specified evaluation with the computed budget floor (using the corrected FY resolution) |
| WavePressure.MentionsAny | src/components/experience/scenes/SequencerScene.tsx:2139-2140 | true exactly when the text contains one of the keywords |
| WavePressure.DetectStageSignals | src/components/experience/scenes/SequencerScene.tsx:2136-2142 | a missing stage has no signals |
| WavePressure.TitleSignalsHeavyChange | src/components/experience/scenes/SequencerScene.tsx:97 | a title containing a change keyword (decouple, retire, sunset, replace, decommission, cutover) signals heavy change |
| WavePressure.TitleSignalsDualRun | src/components/experience/scenes/SequencerScene.tsx:98 | a title containing a dual-run keyword signals dual run |
| WavePressure.ScoreWaveCollision | src/components/experience/scenes/SequencerScene.tsx:2144-2156 | the score lies in [0, 100] and is 0 exactly for a low collision with nothing shared and no signals |
| WavePressure.ScoreSymmetric | src/components/experience/scenes/SequencerScene.tsx:2144-2156 | swapping the two stages does not change the score |
| WavePressure.ScoreGrowsWithSystems | src/components/experience/scenes/SequencerScene.tsx:2146-2155 | each extra shared system adds 30 before the cap at 100 |
| WavePressure.Capitalize | src/components/experience/scenes/SequencerScene.tsx:2311 | capitalising changes only the first character |
| WavePressure.CapitalizeAll | src/components/experience/scenes/SequencerScene.tsx:2311 | every segment is capitalised, in order |
| WavePressure.KeepsTruthy | src/components/experience/scenes/SequencerScene.tsx:2309 | `filter(Boolean)` keeps the non-empty segments, in order and with their multiplicity: a subsequence of the segments holding each non-empty one and as many as there are |
| WavePressure.FormatLaneLabel | src/components/experience/scenes/SequencerScene.tsx:2305-2316 | a label from a wave id is the id's segments between '-' and '_', empty ones dropped, each capitalised, joined by single spaces; otherwise it is the fallback label, or "Wave" |
| WavePressure.LaneWords | src/components/experience/scenes/SequencerScene.tsx:2308-2309 | splitting at '-' and '_' and dropping the empty segments gives exactly the runs of other characters |
| WavePressure.WordsAvoid | src/components/experience/scenes/SequencerScene.tsx:2309-2311 | capitalising segments free of '-' and '_' keeps them free of both |
| WavePressure.Values | src/components/experience/scenes/SequencerScene.tsx:2161 | the stage map's values in insertion order |
| WavePressure.KeysOf | src/components/experience/scenes/SequencerScene.tsx:2162 | one wave key per stage, in order |
| WavePressure.LaneLabelsOf | src/components/experience/scenes/SequencerScene.tsx:2164 | one lane label per stage, in order |
| WavePressure.WaveLabels | src/components/experience/scenes/SequencerScene.tsx:2160-2166 | every wave key gets the label of the first stage with that key |
| WavePressure.FirstLabelsGrow | src/components/experience/scenes/SequencerScene.tsx:2163 | a key's first label stays its first label as more stages are read |
| WavePressure.FirstLabelNew | src/components/experience/scenes/SequencerScene.tsx:2163-2165 | a key met for the first time gets that stage's label |
| WavePressure.AddAll | src/components/experience/scenes/SequencerScene.tsx:2204-2206 | adding to a set keeps it duplicate-free and gives the union, the old members first |
| WavePressure.NewBucket | src/components/experience/scenes/SequencerScene.tsx:2188-2199 | a new pair bucket starts with duplicate-free empty sets |
| WavePressure.Absorb | src/components/experience/scenes/SequencerScene.tsx:2203-2210 | the new score is the old score plus the increment, capped at 100; each shared set becomes the union of the old set and the collision's; the severity becomes the more severe of the old one and the collision's, a tie keeping the old one |
| WavePressure.Weigh | src/components/experience/scenes/SequencerScene.tsx:2177-2186 | a counted collision joins two different waves with an increment in [1, 100] |
| WavePressure.WeighCounts | src/components/experience/scenes/SequencerScene.tsx:2177-2186 | a collision counts exactly when both stages are known, in different waves, and it scores above 0 |
| WavePressure.EdgesOf | src/components/experience/scenes/SequencerScene.tsx:2177-2211 | one weighed edge per collision, in order |
| WavePressure.CollectPairs | src/components/experience/scenes/SequencerScene.tsx:2177-2211 | after the loop every bucket comes from counted collisions of its wave pair, every counted collision is absorbed in its pair's bucket, and each bucket's score is its pair's increments added one by one with a cap of 100 |
| WavePressure.CappedTotalIsCappedSum | src/components/experience/scenes/SequencerScene.tsx:2203-2210 | adding increments one by one with a cap of 100 at every step equals the cap applied once to their sum |
| WavePressure.CollectStep | src/components/experience/scenes/SequencerScene.tsx:2177-2211 | one collision keeps the buckets sound, complete and scored up to it |
| WavePressure.EnsureEntry | src/components/experience/scenes/SequencerScene.tsx:2213-2224 | the key gets an entry and existing entries are untouched |
| WavePressure.Attach | src/components/experience/scenes/SequencerScene.tsx:2250-2253 | adding a partner changes only that wave's entry |
| WavePressure.FindsIff | src/components/experience/scenes/SequencerScene.tsx:2250-2251 | a partner with the given wave and score is found exactly when it is listed |
| WavePressure.HasPartnerPersists | src/components/experience/scenes/SequencerScene.tsx:2226-2255 | later pairs never remove a partner |
| WavePressure.AttachedOk | src/components/experience/scenes/SequencerScene.tsx:2250-2253 | an entry's score stays the maximum of its partners' scores, partners being other waves with scores in [1, 100] |
| WavePressure.AttachedPartners | src/components/experience/scenes/SequencerScene.tsx:2250-2251 | after adding, a partner is an old one or the new one |
| WavePressure.LinkOk | src/components/experience/scenes/SequencerScene.tsx:2226-2255 | linking a pair keeps every entry well formed and only extends the matrix |
| WavePressure.LinkPartners | src/components/experience/scenes/SequencerScene.tsx:2226-2255 | after linking, each partner is old or one of the pair's two new partners |
| WavePressure.LinkPair | src/components/experience/scenes/SequencerScene.tsx:2226-2255 | after linking, each wave of the pair lists the other with the pair's score |
| WavePressure.LinkSymmetric | src/components/experience/scenes/SequencerScene.tsx:2226-2255 | linking keeps the matrix symmetric |
| WavePressure.LinkSound | src/components/experience/scenes/SequencerScene.tsx:2226-2255 | every partner still comes from a bucket, with the bucket's data and the other wave's label |
| WavePressure.LinkKeepsComplete | src/components/experience/scenes/SequencerScene.tsx:2226-2255 | after linking the j-th pair, the first j+1 pairs are in the matrix |
| WavePressure.LinkPreserves | src/components/experience/scenes/SequencerScene.tsx:2226-2255 | one pair keeps every matrix invariant and completes one more pair |
| WavePressure.BuildEntries | src/components/experience/scenes/SequencerScene.tsx:2226-2255 | the loop builds a well-formed, symmetric, labelled matrix holding every pair bucket |
| WavePressure.LinkStep | src/components/experience/scenes/SequencerScene.tsx:2226-2255 | one iteration performs exactly the specified link and keeps the insertion order of the entries |
| WavePressure.LinkUnfolds | src/components/experience/scenes/SequencerScene.tsx:2232-2253 | the link is: ensure both entries, then attach each partner |
| WavePressure.EdgesOfOk | src/components/experience/scenes/SequencerScene.tsx:2177-2186 | every counted edge joins two different waves with an increment in [1, 100] |
| WavePressure.MatrixSoundFrom | src/components/experience/scenes/SequencerScene.tsx:2158-2258 | every partner in the matrix comes from a counted collision between the two waves, and its score is the sum of that pair's increments capped at 100 |
| WavePressure.CoversFrom | src/components/experience/scenes/SequencerScene.tsx:2203-2253 | a bucket's partner covers each of its collisions: score at least the increment, and the collision's shared systems |
| WavePressure.MatrixCompleteFrom | src/components/experience/scenes/SequencerScene.tsx:2158-2258 | every counted collision is covered from both sides of the matrix |
| WavePressure.LabelsFromWave | src/components/experience/scenes/SequencerScene.tsx:2160-2218 | entry and partner labels are the first stage label of their wave |
| WavePressure.ComputeWavePressureMatrix | src/components/experience/scenes/SequencerScene.tsx:2158-2258 | no report gives an empty matrix; otherwise the matrix is symmetric, each wave's score is its highest partner score, every partner's score is the capped sum of the increments of the collisions between the two waves, every counted collision appears from both sides, and labels come from the first stage of each wave |
| EnterpriseNormalization.NormalizeLabel | src/domain/services/digitalEnterpriseNormalization.ts:11-27 | the quote-stripping loops produce exactly the specified normalised label |
| EnterpriseNormalization.StripLeadingShape | src/domain/services/digitalEnterpriseNormalization.ts:16-18 | stripping leading quotes keeps the text trimmed and leaves no leading quote unless one character is left |
| EnterpriseNormalization.StripTrailingShape | src/domain/services/digitalEnterpriseNormalization.ts:19-21 | stripping trailing quotes keeps the text trimmed, leaves no trailing quote unless one character is left, and keeps the first character |
| EnterpriseNormalization.ReplaceRunsLast | src/domain/services/digitalEnterpriseNormalization.ts:24 | collapsing whitespace keeps a final non-space character last |
| EnterpriseNormalization.CollapseEnds | src/domain/services/digitalEnterpriseNormalization.ts:24 | collapsing the whitespace of trimmed text keeps its first and last characters and leaves it trimmed |
| EnterpriseNormalization.CollapseShape | src/domain/services/digitalEnterpriseNormalization.ts:24 | after collapsing, the label is normalised: trimmed, single spaces, no surrounding quote |
| EnterpriseNormalization.NormalizedShape | src/domain/services/digitalEnterpriseNormalization.ts:11-27 | null gives ""; every result is trimmed, has no whitespace run or non-space whitespace, and has no surrounding quote unless it is one character |
| EnterpriseNormalization.ShapedFixed | src/domain/services/digitalEnterpriseNormalization.ts:11-27 | a label already in that shape is left as it is |
| EnterpriseNormalization.NormalizeIdempotent | src/domain/services/digitalEnterpriseNormalization.ts:11-27 | normalising twice is normalising once |
| EnterpriseNormalization.QuotesStripped | src/domain/services/digitalEnterpriseNormalization.ts:15-21 | a quoted label loses its surrounding quotes |
| EnterpriseNormalization.ClassifyLabel | src/domain/services/digitalEnterpriseNormalization.ts:33-110 | the first test that fires decides: empty is other; a region keyword (by substring) gives region; then a shape keyword shape; then "lane" ui; then a process keyword process; all digits or the junk pattern other; anything else is a system, each case both ways |
| EnterpriseNormalization.ClassifyNormalized | src/domain/services/digitalEnterpriseNormalization.ts:33-35 | classification depends only on the normalised label |
| EnterpriseNormalization.DigitsAvoidAll | src/domain/services/digitalEnterpriseNormalization.ts:96-98 | a string of digits mentions no keyword made of letters |
| EnterpriseNormalization.NumericIsOther | src/domain/services/digitalEnterpriseNormalization.ts:95-98 | a purely numeric label is always other |
| EnterpriseNormalization.KeywordsLettered | src/domain/services/digitalEnterpriseNormalization.ts:40-90 | every region, shape and process keyword starts with a letter |
| EnterpriseNormalization.DigitsMentionNothing | src/domain/services/digitalEnterpriseNormalization.ts:55-93 | a digit string triggers no region, shape, lane or process test |
| EnterpriseNormalization.BlankIsOther | src/domain/services/digitalEnterpriseNormalization.ts:12-37 | a blank label is other |
| VisionPanel.OrElse | src/ui/components/VisionPanel.tsx:228-259 | the logical-or fallback on optional text gives the value when it is non-empty, else the fallback |
| VisionPanel.NodeAtChild | src/ui/components/VisionPanel.tsx:237-244 | the path to a node followed by a child index reaches that child |
| VisionPanel.AddChildAt | src/ui/components/VisionPanel.tsx:242 | adding a child somewhere in the tree keeps the roots' count, names, levels and domains |
| VisionPanel.AddChildAtNode | src/ui/components/VisionPanel.tsx:242 | the node at the path gets the new child appended and nothing else about it changes |
| VisionPanel.GrownNodeRefl | src/ui/components/VisionPanel.tsx:195-281 | every tree has grown from itself |
| VisionPanel.GrownForestRefl | src/ui/components/VisionPanel.tsx:195-281 | every forest has grown from itself |
| VisionPanel.GrownNodeTrans | src/ui/components/VisionPanel.tsx:195-281 | growth of a tree composes |
| VisionPanel.GrownForestTrans | src/ui/components/VisionPanel.tsx:195-281 | growth of a forest composes |
| VisionPanel.GrownAppend | src/ui/components/VisionPanel.tsx:229 | appending a root is growth |
| VisionPanel.AddChildGrows | src/ui/components/VisionPanel.tsx:242 | adding a child is growth: nothing existing is removed, renamed or moved |
| VisionPanel.FillGrows | src/ui/components/VisionPanel.tsx:231-232 | filling a missing domain is growth |
| VisionPanel.GrownKeepsNode | src/ui/components/VisionPanel.tsx:195-281 | every node of the old forest is still at its path in a grown forest, itself grown |
| VisionPanel.NewDistinctRefl | src/ui/components/VisionPanel.tsx:195-281 | with nothing added, no duplicates were added |
| VisionPanel.NewDistinctAppend | src/ui/components/VisionPanel.tsx:224-230 | a new root whose key no root has adds no duplicate |
| VisionPanel.NewDistinctAdd | src/ui/components/VisionPanel.tsx:237-243 | a new child whose key no sibling has adds no duplicate |
| VisionPanel.NewDistinctFill | src/ui/components/VisionPanel.tsx:231-232 | filling a domain adds no duplicate |
| VisionPanel.BuildIndex | src/ui/components/VisionPanel.tsx:200-203 | the root index maps each root's trimmed lower-cased name to the last root with it |
| VisionPanel.AppendRootSound | src/ui/components/VisionPanel.tsx:227-230 | appending and indexing a new L1 root with a domain keeps the working state sound |
| VisionPanel.FillSound | src/ui/components/VisionPanel.tsx:231-232 | filling a root's missing domain keeps the working state sound |
| VisionPanel.UpsertL1 | src/ui/components/VisionPanel.tsx:224-235 | an indexed root is reused (its domain filled when missing and one is given); otherwise a new L1 root with the domain or "Unassigned" is appended and indexed; the forest only grows |
| VisionPanel.FirstKeyFromIsFirst | src/ui/components/VisionPanel.tsx:239 | the search stops at the first child with the key |
| VisionPanel.FirstNamed | src/ui/components/VisionPanel.tsx:239 | the first child whose trimmed lower-cased name matches, or the end |
| VisionPanel.AddChildSound | src/ui/components/VisionPanel.tsx:241-242 | adding a child whose key no sibling has keeps the working state sound |
| VisionPanel.ChildKeyAt | src/ui/components/VisionPanel.tsx:239-240 | an existing child is reachable and its key is among the parent's child keys |
| VisionPanel.UpsertChild | src/ui/components/VisionPanel.tsx:237-244 | an existing child with the same key is returned unchanged; otherwise a new childless child of the level is appended; afterwards the parent has a child with that key |
| VisionPanel.Visits | src/ui/components/VisionPanel.tsx:214-218 | pushing a forest puts one stack entry per node, in order, with its path |
| VisionPanel.PushVisit | src/ui/components/VisionPanel.tsx:212-221 | the nodes to be visited after pushing a forest are that forest's visit followed by the rest of the stack |
| VisionPanel.PopVisit | src/ui/components/VisionPanel.tsx:216-218 | popping visits the top entry, then its children, then the rest |
| VisionPanel.VisitCovers | src/ui/components/VisionPanel.tsx:212-221 | the visit reaches every node of the forest |
| VisionPanel.NodeAtPrefix | src/ui/components/VisionPanel.tsx:212-221 | a node under one of the first m roots is found in the first m roots |
| VisionPanel.FirstMatchIsFirst | src/ui/components/VisionPanel.tsx:215-220 | the match is the first visited node with the key, and none means no visited node has it |
| VisionPanel.NoMatchNoNode | src/ui/components/VisionPanel.tsx:212-221 | when the search finds nothing, no node in the forest has the key |
| VisionPanel.WalkStep | src/ui/components/VisionPanel.tsx:215-219 | one iteration returns the popped node when it matches, else continues on its children and the rest, and the work left shrinks |
| VisionPanel.StartVisit | src/ui/components/VisionPanel.tsx:214 | the initial stack visits the whole forest |
| VisionPanel.FindAnyByName | src/ui/components/VisionPanel.tsx:212-221 | the search returns the first node in the stack order whose trimmed lower-cased name matches, with its path, or none |
| VisionPanel.PickL1ByDomain | src/ui/components/VisionPanel.tsx:283-291 | returns the first L1 root whose trimmed lower-cased domain matches, none exactly when there is none |
| VisionPanel.HasChildKeyGrown | src/ui/components/VisionPanel.tsx:195-281 | a child key stays present as the tree grows |
| VisionPanel.RootsStep | src/ui/components/VisionPanel.tsx:253 | one more placed L1 row keeps every earlier L1 row placed |
| VisionPanel.RootsGrown | src/ui/components/VisionPanel.tsx:253-278 | placed L1 rows stay placed as the forest grows |
| VisionPanel.L2HostsGrown | src/ui/components/VisionPanel.tsx:256-278 | placed L2 rows stay placed as the forest grows |
| VisionPanel.L2HostsStep | src/ui/components/VisionPanel.tsx:256-263 | one more placed L2 row keeps earlier ones placed |
| VisionPanel.L3HostsGrown | src/ui/components/VisionPanel.tsx:266-278 | placed L3 rows stay placed as the forest grows |
| VisionPanel.L3HostsStep | src/ui/components/VisionPanel.tsx:266-278 | one more placed L3 row keeps earlier ones placed |
| VisionPanel.PlaceL2 | src/ui/components/VisionPanel.tsx:256-263 | an L2 row ends up as a child of an L1 host: the named parent when it is an L1, else the L1 heading its domain, else an upserted root for the parent name or "Unassigned" |
| VisionPanel.PlaceL3 | src/ui/components/VisionPanel.tsx:266-278 | an L3 row ends up under its named parent when one exists, else under an L2 (the parent name or "Misc") of the domain head or "Unassigned" |
| VisionPanel.ApplyL1s | src/ui/components/VisionPanel.tsx:253 | every L1 row is placed and the forest only grows |
| VisionPanel.ApplyL2s | src/ui/components/VisionPanel.tsx:255-263 | every L2 row is placed and the forest only grows |
| VisionPanel.ApplyL3s | src/ui/components/VisionPanel.tsx:265-278 | every L3 row is placed and the forest only grows |
| VisionPanel.RootsPlaced | src/ui/components/VisionPanel.tsx:248-253 | every L1 row of the input is placed |
| VisionPanel.L2RowsPlaced | src/ui/components/VisionPanel.tsx:249-263 | every L2 row of the input is placed |
| VisionPanel.L3RowsPlaced | src/ui/components/VisionPanel.tsx:250-278 | every L3 row of the input is placed |
| VisionPanel.IntegrateRows | src/ui/components/VisionPanel.tsx:195-281 | the result only grows the current tree, adds no duplicate names among siblings or roots, adds only L1 roots, and places every L1, L2 and L3 row |
| IntentClassifier.PlatformKeywordsDistinct | src/lib/agent/intentClassifier.ts:64 | the platform keywords are distinct, so the hit set keeps one entry per keyword |
| IntentClassifier.ExtractFocusAreas | src/lib/agent/intentClassifier.ts:66-73 | the focus areas are exactly the platform keywords contained in the lower-cased input, each once, in keyword order |
| IntentClassifier.Best | src/lib/agent/intentClassifier.ts:80-88 | the winner, when any, is one of the candidates scanned |
| IntentClassifier.BestIsBest | src/lib/agent/intentClassifier.ts:80-88 | the winner matches at least one keyword and has a positive score, no matching candidate scores higher, earlier matching ones score strictly lower (first wins ties), and there is no winner exactly when no candidate matches with a positive score |
| IntentClassifier.ClassifyIntent | src/lib/agent/intentClassifier.ts:75-121 | the loop returns exactly the specified intent |
| IntentClassifier.CandidateBases | src/lib/agent/intentClassifier.ts:13-62 | every candidate's base confidence lies in [0.6, 0.78] and none is the fallback |
| IntentClassifier.NoMatchFallsBack | src/lib/agent/intentClassifier.ts:90-99 | with no keyword match the result is the contextual-support fallback at confidence 0.42 |
| IntentClassifier.WinnerIntentBounds | src/lib/agent/intentClassifier.ts:101-120 | the intent takes the winner's id, confidence min(0.98, score) raised to at least 0.85 when it repeats the last intent; the demo walkthrough carries the detected topic (default "harmonization"), every other winner its own action and hint |
| IntentClassifier.FallbackExactlyWithoutMatch | src/lib/agent/intentClassifier.ts:75-121 | the fallback is returned exactly when no candidate keyword occurs in the input |
| IntentClassifier.ConfidenceBounds | src/lib/agent/intentClassifier.ts:75-121 | confidence always lies in [0.42, 0.98], and a repeated winning intent has at least 0.85 |
| IntentClassifier.WinnerIsBest | src/lib/agent/intentClassifier.ts:80-107 | a non-fallback intent is the highest-scoring matching candidate, the earliest among equals |
| StableSort.SortDesc | scripts/ale_ingest.py:54 | the descending sort by occurrences returns a permutation of its input, ordered by non-increasing key |
| StableSort.SortDescStable | scripts/ale_ingest.py:54 | the sort is stable: for every key value, the entries carrying that key keep their input order |
| StableSort.InsertSorted | scripts/ale_ingest.py:54 | inserting one entry into a descending-ordered list keeps it descending |
| Grouping.GroupGroups | src/lib/sequencer/collisions.ts:129-130 | appending each collision to its stage's list builds, for every stage id, exactly the collisions naming it, in order |
| Grouping.GroupAt | src/lib/sequencer/collisions.ts:129-130 | every key of the grouping maps to the list of all values filed under that key, in filing order |
| Grouping.GroupOrder | src/lib/sequencer/collisions.ts:133 | the keys of the grouping are enumerated in first-insertion order, each once |
| Grouping.GroupStep | src/lib/sequencer/collisions.ts:129-130 | filing one more entry equals grouping the extended entry list |
| Grouping.ListedNonEmpty | src/lib/sequencer/collisions.ts:129-130 | every key that was filed has at least one value listed |
| Pairs.AllMembers | src/lib/sequencer/collisions.ts:94-102 | the nested i<j loop yields exactly the results produced by some pair of positions i<j |
| Pairs.UptoMembers | src/lib/sequencer/collisions.ts:94-102 | after the first i outer rounds, the results are exactly those of pairs whose first index is below i |
| Text.NormalizeKey | src/domain/services/harmonization.ts:80-86 | the normalised key is lower-case alphanumeric words separated by single spaces, with no leading or trailing space |
| Text.NormalizeKeyWords | src/domain/services/harmonization.ts:80-86 | the normalised key is exactly the lower-cased name's alphanumeric runs joined by single spaces |
| Text.KeyWords | src/domain/services/harmonization.ts:80-86 | replacing non-alphanumeric runs by a space and trimming gives the alphanumeric runs joined by single spaces |
| Text.Runs | src/domain/services/harmonization.ts:83 | the words of a text: non-empty runs with no separator inside, the first starting at the text's first character when that is not a separator, and none exactly when every character is a separator |
| Text.ReplaceRunsWords | src/domain/services/harmonization.ts:83 | replacing every run of separators by one character gives the words joined by that character, with one more in front when the text starts with a separator and one behind when it ends with one after a word |
| Text.SplitWords | src/components/experience/scenes/SequencerScene.tsx:2306-2307 | splitting at a set of separators and dropping the empty pieces gives exactly the words |
| Text.NormalizeKeyIdempotent | src/domain/services/harmonization.ts:80-86 | normalising an already normalised key changes nothing |
| Text.KeyFixed | src/domain/services/harmonization.ts:80-86 | a string already in key form is its own normalisation |
| Text.TrimIdempotent | src/domain/services/harmonization.ts:85 | trimming twice is the same as trimming once |

## Left out

- Network and file I/O are not modelled:
  - reading the event file;
  - the Datadog POST and DELETE calls and the rollback request;
  - JSON file writes;
  - the Next.js request and response plumbing;
  - the in-memory store's persistence.

  Reads become input values. Writes become returned values.
- Telemetry posting and logging are not modelled (harmonization and the API routes). They have no effect on the results.
- The SHA-1 digest in flow ids is the parameter `digest`. Clock readings are `now` and `nowIso`, fresh ids are `newId`, and `Date.parse` is `parseDate`. These are foreign or non-deterministic calls.
- `csv.Sniffer` delimiter detection in `scripts/ingest_datadog_seed.py` is not modelled. The delimiter is an input, because the detection is a foreign library heuristic.
- React wiring, rendering and hooks plumbing around `useAgentMemory`, `VisionPanel` and the sequencer scene are not modelled. They are UI only.
- Floats: JavaScript and Python numbers are modelled as exact `real` values throughout. NaN, Infinity, rounding error, `toFixed` and Python `round` are not represented. `Common.Num` keeps NaN and the infinities where a parsed number can produce them.
- Text.Trim, Text.Lower and Text.IsSpace are ASCII only. JavaScript `trim`, `toLowerCase` and `\s`, and Python `strip` and `lower`, also act on Unicode whitespace and letters. Every parser built on `Text` inherits this.
- Text.Upper: maps ASCII letters only and keeps the length of its input. JavaScript `toUpperCase` also maps other letters, and it maps 'ß' to "SS", so the result can be longer. `WavePressure.Capitalize` and `WavePressure.FormatLaneLabel` inherit this.
- Text.IsSpace: Python `str.strip` also strips the ASCII separators U+001C to U+001F, which `IsSpace` leaves in place. `DatadogSeed` and `AleIngest` inherit this.
- AleIngest.BuildCorpus takes a list of event objects. `load_events` returns whatever `json.loads` produced (scripts/ale_ingest.py:19). A top-level number, string, null or object, or a list element that is not an object, makes `build_corpus` raise `TypeError` or `AttributeError` (scripts/ale_ingest.py:26-27). The model does not represent that crash.
- AleIngest.MakeEntry: `average_risk` and `recommendation_strength` are not rounded to two decimals (scripts/ale_ingest.py:49-50), because floats are exact reals here.
- DatadogSeed.FlowFor: every flow of a run carries the same `now`. The source reads `datetime.utcnow()` once per flow (scripts/ingest_datadog_seed.py:45).
- Feasibility.BudgetFloor: the floor is the exact sum. The source rounds it with `toFixed(2)` (src/components/experience/scenes/SequencerScene.tsx:4122).
- Feasibility.BigBangBlocker: every stage carries its `systemsTouched` list, so the fallback to the scenario's `systemCount` (src/components/experience/scenes/SequencerScene.tsx:4096) is not reached.
- The integration burden of a stage comes from `resolveIntegrationBurden`, which is not part of this model. It is the `burdenCost` map parameter of `Feasibility`.
- The wording of the feasibility blocker summaries, suggestions and evidence is not modelled; codes, severities and the data they are computed from are.
- Collisions.TopConflicts: stage ids are listed in first-insertion order before the stable sort. `Object.entries` lists integer-like keys first, in ascending order (src/lib/sequencer/collisions.ts:133), so the tie order differs for numeric stage ids.
- Harmonization: the header mapping and the sparse-coverage warning (src/domain/services/harmonization.ts:207-217, 296-302) are not modelled, because they only annotate the result. Confidence values are exact multiples of 0.05, so the `toFixed(2)` on them is not modelled either.
- `src/domain/services/harmonization.ts` has a stray `}` at line 273, so the file does not compile as written. The model follows the evident structure of the functions around it.
- `scripts/ale_ingest.py` skips a tag only when it is empty before trimming, so a whitespace-only tag creates a bucket keyed by "". The model follows the code here, not the documented intent of skipping blank tags.
- `classifyLabel` matches region keywords as substrings. Short keywords such as "na" therefore also match inside longer words. The model keeps this behaviour.
- The `with` fallback of `detectChannels` (src/app/api/intent/parse/route.ts:99-112) never adds a channel. `IntentParse.WithFallbackAddsNothing` proves this, and the model keeps the branch.
- The wave-pressure pair key `[a, b].sort().join("__")` is modelled as the set {a, b}. This is sound because lane slugs contain no `_` (`SceneHelpers.SlugHasNoUnderscore`).

## Findings

The models of `evaluateFeasibility`, `detectBlackoutConflicts` and `buildFiscalBands` use the corrected behaviour of the rows below:

- `Feasibility.EvaluateFeasibility` and `Feasibility.DetectBlackoutConflicts` use `SceneHelpers.ResolveLabelToIndex`.
- `Collisions.BuildFiscalBands` has the reversed-range guard.

The as-written members exhibit the defects.

| source | as written | input that shows it | evidently intended | confidence | as-written member | corrected member |
|---|---|---|---|---|---|---|
| src/lib/sequencer/collisions.ts:190-209 | with an end year before the start year, `years` is empty, `Math.ceil(n / 0)` is Infinity and the rounds loop never ends | start "FY27", end "FY26", 3 stages | a reversed range yields one label per stage, like the range without fiscal years | high (not executed) | Collisions.FiscalBandsAsWritten (lemmas ReversedRangeHangs, EmptyRoundsNeverEnd) | Collisions.FiscalBands / Collisions.BuildFiscalBands (lemma FiscalBandsCycle) |
| src/components/experience/scenes/SequencerScene.tsx:4225-4229 | an `FY` deadline resolves to yy*12+11, because the scene's `parseFiscalYear` (:1944-1948) returns the two-digit year; every FY deadline then reads as a severe overrun | deadline "FY26" and a stage ending at month index 2026*12+5 | the deadline is month index (2000+yy)*12+11, as `fiscal < 100 ? 2000 + fiscal` at :4176 shows | high (not executed) | SceneHelpers.ResolveLabelToIndexAsWritten (lemma FiscalDeadlineBeforeItsYear) | SceneHelpers.ResolveLabelToIndex (lemma FiscalDeadlineCoversItsYear) |
