# ERDAI schema-to-ERD pipeline, modelled in Dafny

ERDAI connects to a MySQL, MSSQL or Oracle database and reads its schema: tables, columns, primary keys, foreign keys and comments. It classifies every table into a domain and infers the relations the schema does not declare. It then lays the tables out as an entity-relationship diagram, keeps the result in a JSON store per project, and exports it as DBML or Mermaid. The work is split between a Node server, a Python worker and a React front end, and several steps exist in both a TypeScript and a Python version.

This project models the logic of that pipeline in Dafny and proves what the code promises about it:

- **Relation inference.** The server's `inferRelations` (`relation_inferrer.dfy`) and the worker's `infer_relations` (`worker_inference.dfy`).
  - Declared foreign keys become FK relations.
  - Suffix rules (`_id`, `_cd`/`_code`, `_no`) resolve a target table by name.
  - The worker adds plural candidates, scores and a PK-name pass.
  - A final pass removes duplicates.
- **Domains.** Three independent classifiers: `inferDomain` on the server (`db_metadata.dfy`), `_infer_domain` in the worker (`metadata_service.dfy`), and the front end's `refineEtcDomain` (`erd_studio.dfy`).
- **Layout.** `computeDomainPositions` (`erd_studio.dfy`) groups the tables by domain, sorts the groups, and places each cluster as a grid. Clusters wrap into rows. The proofs show that no two tables overlap.
- **Graph build and sync.**
  - `toBuildResult`, `toWorkerRelation` and the stage, abort and save sequence of `handleSyncErd` (`erd_controller.dfy`).
  - `buildErdGraph` and its relation ids (`erd_builder.dfy`).
  - The worker's `build_erd_endpoint` and `extract_metadata_endpoint` (`worker_router.dfy`).
- **Metadata reshaping.** Raw rows become tables with counts on the server (`db_metadata.dfy`) and in the worker (`metadata_service.dfy`).
- **Exports.** The DBML and Mermaid serialisers of the server (`db_exporter.dfy`) and of the worker (`export_service.dfy`), with lemmas comparing the two.
- **Store.** The in-memory collections of `JsonStore`, as a class whose methods update its users and projects (`json_store.dfy`).
- **Validation and session.**
  - The session-cookie parser (`session.dfy`).
  - The connection schemas of the server, the front end and the worker (`connections_dto.dfy`, `connection_schema.dfy`, `worker_connection.dfy`).
  - The login and change-password forms (`login.dfy`, `change_password.dfy`).
- **Sync stream.** The front end's `useErdGraph` hook (`use_erd_graph.dfy`) frames the server-sent event stream into segments and handles the events.

Shared modules:
- `wrappers.dfy`: `Option`, `Result` and truthiness.
- `text.dfy`: ASCII case mapping, trimming, splitting, joining, UTF-16 length, and a total order on strings with a sort.
- `schema.dfy`: the metadata, relation and graph records the server and the worker exchange.

Loops in the source are methods. Each one is proved equal to a recursive reference function, and the lemmas state their properties on that function. Where the code and the design description of the system disagree, the model follows the code:
- The TypeScript inferrer's `?? col.name` fallbacks can never be taken, because `pkMap` holds every table. Every suffix rule therefore targets the target table's first PK column, or `id` when it has none (server/src/lib/relationInferrer.ts:20).
- The reason of a declared FK relation is `FK constraint: <name>`, not the bare constraint name.
- The sync's save is three separate store calls (reset, snapshot, graph), not one atomic step.

## Model

| member | source | states |
|---|---|---|
| RelationInferrer.BuildIndex | server/src/lib/relationInferrer.ts:14-17 | the lower-case name map has distinct keys |
| RelationInferrer.IndexSetGet | server/src/lib/relationInferrer.ts:16 | `Map.set` keeps keys distinct, binds the key to the new value and leaves every other key alone |
| RelationInferrer.BuildIndexLookup | server/src/lib/relationInferrer.ts:14-17 | a lower-case name maps to the original name of the last table with that lower-case name, and is absent exactly when no table has it |
| RelationInferrer.BuildIndexEntries | server/src/lib/relationInferrer.ts:14-17 | every entry of the name map comes from a table |
| RelationInferrer.BuildIndexOrder | server/src/lib/relationInferrer.ts:14-17 | map iteration order is the order in which each lower-case name first appears |
| RelationInferrer.PkMapKeys | server/src/lib/relationInferrer.ts:18-21 | the PK map's keys are exactly the table names |
| RelationInferrer.PkMapLast | server/src/lib/relationInferrer.ts:18-21 | each table name is bound to the first PK column (or `id`) of the last table with that name |
| RelationInferrer.FindTableIn | server/src/lib/relationInferrer.ts:46-56 | the loop of `findTable` returns what the reference `FindTable` returns |
| RelationInferrer.FindTableExact | server/src/lib/relationInferrer.ts:47-49 | an exact case-insensitive table-name match wins, giving the last table with that lower-case name |
| RelationInferrer.FindTableSegment | server/src/lib/relationInferrer.ts:51-55 | without an exact match the result is the segment scan over the map |
| RelationInferrer.SegmentMatchFirst | server/src/lib/relationInferrer.ts:51-55 | the segment scan returns the first entry, in map order, ending with `_prefix` or starting with `prefix_`, and nothing when there is none |
| RelationInferrer.FindTableInPkMap | server/src/lib/relationInferrer.ts:46-56 | whatever `findTable` returns is a table name and a key of the PK map |
| RelationInferrer.TargetPk | server/src/lib/relationInferrer.ts:72-118 | the `?? 'id'` and `?? col.name` fallbacks never fire: the target's PK column is that of the last table with the target's name |
| RelationInferrer.PatternFor | server/src/lib/relationInferrer.ts:59-133 | pass 2 for one column, with `findTable`'s loop, yields the reference `PatternRelation` |
| RelationInferrer.IdSuffixRule | server/src/lib/relationInferrer.ts:68-88 | an `_id` column gets a relation iff `findTable` resolves its prefix: HIGH, N:1, to the target's first PK, score 0.9 when the comment names the target else 0.8 |
| RelationInferrer.CodeSuffixRule | server/src/lib/relationInferrer.ts:91-111 | a `_cd`/`_code` column gets a relation iff its prefix resolves: MEDIUM, N:1, score 0.65, to the target's first PK |
| RelationInferrer.NoSuffixRule | server/src/lib/relationInferrer.ts:114-132 | a `_no` column gets a relation iff its prefix resolves: LOW, N:1, score 0.5 |
| RelationInferrer.NoSuffixNoRelation | server/src/lib/relationInferrer.ts:65-133 | a column with none of the four suffixes gets no pattern relation |
| RelationInferrer.PatternNotFk | server/src/lib/relationInferrer.ts:79-125 | a proposed relation is never an FK one and is always N:1 |
| RelationInferrer.BuildMaps | server/src/lib/relationInferrer.ts:13-21 | the two loops build exactly the reference name map and PK map |
| RelationInferrer.FkPass | server/src/lib/relationInferrer.ts:24-38 | the nested loops push exactly the reference FK relations |
| RelationInferrer.FkPassExact | server/src/lib/relationInferrer.ts:24-38 | one relation per declared foreign key, in table then key order: FK, 1:N, score 1.0, reason `FK constraint: <constraint_name>` |
| RelationInferrer.FkRelsAreFk | server/src/lib/relationInferrer.ts:24-38 | every relation of pass 1 is the FK relation of some declared foreign key |
| RelationInferrer.ColumnsPass | server/src/lib/relationInferrer.ts:60-133 | pass 2 over one table's columns appends the reference fold's relations and registered keys |
| RelationInferrer.PatternPass | server/src/lib/relationInferrer.ts:59-134 | the pass-2 table loop leaves the pass-1 relations in front and appends exactly the relations of the reference fold over all tables, starting from the keys pass 1 registered |
| RelationInferrer.ColumnIn | server/src/lib/relationInferrer.ts:61-130 | one column: a registered key or a PK column adds nothing; otherwise the proposed relation, if any, is appended and its key registered, exactly as the reference step `ColumnStep` does |
| RelationInferrer.DedupPass | server/src/lib/relationInferrer.ts:136-143 | the filter with its `seen` set gives the reference `Dedup` |
| RelationInferrer.DedupFacts | server/src/lib/relationInferrer.ts:136-143 | the filter's output is drawn from its input, has pairwise distinct endpoint keys and loses no endpoint key |
| RelationInferrer.DedupPrefix | server/src/lib/relationInferrer.ts:136-143 | filtering a longer list extends the filtered shorter one, and what it adds comes from the extra relations |
| RelationInferrer.DedupKeepsFirst | server/src/lib/relationInferrer.ts:136-143 | the first relation with given endpoints survives |
| RelationInferrer.DedupIdentity | server/src/lib/relationInferrer.ts:136-143 | a list without repeated endpoints passes unchanged |
| RelationInferrer.InferRelations | server/src/lib/relationInferrer.ts:12-144 | `inferRelations` returns the reference `Infer` of the tables, and nothing for no tables |
| RelationInferrer.InferDistinct | server/src/lib/relationInferrer.ts:136-143 | no two returned relations share all four endpoints |
| RelationInferrer.InferSources | server/src/lib/relationInferrer.ts:40-63 | every returned FK relation comes from a declared foreign key; every other one is a suffix rule's proposal for a non-PK column that is not an FK source |
| RelationInferrer.InferOnePatternPerColumn | server/src/lib/relationInferrer.ts:61-130 | a `table.column` is the source of at most one returned pattern relation |
| RelationInferrer.InferFkCovered | server/src/lib/relationInferrer.ts:24-143 | each declared foreign key is represented in the result by an FK relation, 1:N, score 1.0, with its four endpoints |
| RelationInferrer.InferOrder | server/src/lib/relationInferrer.ts:23-58 | FK relations come first: after the first non-FK relation there is no FK one |
| RelationInferrer.OrderItemExample | server/src/lib/relationInferrer.ts:68-88 | `order_item.order_id` next to a table `order` with PK `order_id` yields exactly the HIGH relation `order_item.order_id -> order.order_id`, score 0.8 |
| WorkerInference.CandidateTables | worker/app/services/inference_service.py:13-19 | the candidates are exactly the spellings `base`, `base + "s"`, `base.rstrip('s')` that name a table |
| WorkerInference.CandidateTablesLoop | worker/app/services/inference_service.py:13-19 | the loop over the three spellings returns `CandidateTables` |
| WorkerInference.CandidateExamples | worker/app/services/inference_service.py:13-19 | `user` among `{user, users}` gives `[user, users, user]` (a duplicate); `users` among `{user}` gives `[user]` |
| WorkerInference.ConfidenceFromScore | worker/app/services/inference_service.py:22-29 | FK iff score >= 0.9, HIGH iff 0.75 <= score < 0.9, MEDIUM iff 0.55 <= score < 0.75, LOW below 0.55 (scores in hundredths) |
| WorkerInference.ConfidenceMonotone | worker/app/services/inference_service.py:22-29 | a higher score never gives a lower confidence |
| WorkerInference.AddAllAppend | worker/app/services/inference_service.py:39-50 | feeding two lists through `add` is feeding their concatenation |
| WorkerInference.AddAllFacts | worker/app/services/inference_service.py:39-50 | `add` keeps `seen` equal to the keys of the kept relations, only appends, and only keeps relations it was given |
| WorkerInference.AddAllGrows | worker/app/services/inference_service.py:39-50 | later passes never remove an earlier relation |
| WorkerInference.AddAllKeepsFirst | worker/app/services/inference_service.py:47-50 | a relation whose key was not seen before is kept |
| WorkerInference.AddAllAddsNew | worker/app/services/inference_service.py:47-50 | a relation with a new key appended last is kept |
| WorkerInference.AddFkPass | worker/app/services/inference_service.py:53-67 | pass 1's nested loops add exactly the FK relations of the declared keys, in order |
| WorkerInference.RuleRelFor | worker/app/services/inference_service.py:78-102 | the relation built for one candidate target, with its comment bonus, is the reference `RuleRel` |
| WorkerInference.AddRuleTargets | worker/app/services/inference_service.py:78-102 | the loop over candidate targets adds one rule relation per target, in order |
| WorkerInference.AddColumn | worker/app/services/inference_service.py:72-158 | one column's three `if` blocks add the reference `ColumnRels` |
| WorkerInference.AddColumns | worker/app/services/inference_service.py:71-158 | the loop over one table's columns adds each column's relations in order |
| WorkerInference.AddPatternPass | worker/app/services/inference_service.py:70-158 | pass 2 adds the rule relations of every column of every table |
| WorkerInference.AddPkMatches | worker/app/services/inference_service.py:167-182 | for one PK name and one other table, a MEDIUM relation per column whose lower-case name equals the PK's |
| WorkerInference.AddPkSources | worker/app/services/inference_service.py:164-182 | the loop over tables skips those named like the target |
| WorkerInference.AddPkList | worker/app/services/inference_service.py:162-182 | the loop over a table's PK columns adds each one's matches |
| WorkerInference.AddPkPass | worker/app/services/inference_service.py:161-182 | pass 3 adds the PK-name relations of every table |
| WorkerInference.InferRelationsPy | worker/app/services/inference_service.py:32-184 | `infer_relations` returns the reference `InferPy` (all proposals of the three passes through `add`); no tables give no relations |
| WorkerInference.InferPyDistinct | worker/app/services/inference_service.py:40-50 | no two returned relations share the 5-part key (endpoints and confidence) |
| WorkerInference.InferPyKeepsFirst | worker/app/services/inference_service.py:40-50 | every returned relation is a proposal, every proposal's key is returned, and the first proposal with each key is the one kept |
| WorkerInference.InferPyKeepsFks | worker/app/services/inference_service.py:53-67 | every declared foreign key is returned as an FK relation, N:1, score 1.0 |
| WorkerInference.FkPassShape | worker/app/services/inference_service.py:55-66 | every relation of pass 1 is an FK relation with score 1.0 and reason `FK constraint` |
| WorkerInference.InferPyCoversColumns | worker/app/services/inference_service.py:70-158 | the key of every rule relation of every column is in the result |
| WorkerInference.InferPyCoversPkNames | worker/app/services/inference_service.py:161-182 | a column of another table whose name matches a PK column case-insensitively gives a returned MEDIUM relation to that PK |
| WorkerInference.RuleRelShape | worker/app/services/inference_service.py:78-158 | a rule relation is N:1 to the rule's fixed column (`id`, `code`, `no`); score 0.8/0.6/0.45 plus 0.1 on a comment hit; `_id` is FK with the hit and HIGH without, `_cd` is MEDIUM either way, `_no` is MEDIUM with the hit and LOW without; the reason is the rule label, joined with the comment label on a hit |
| WorkerInference.RuleRelsTargets | worker/app/services/inference_service.py:78-135 | one relation per candidate table, in candidate order |
| WorkerInference.ColumnRelsByRule | worker/app/services/inference_service.py:76-158 | the `_id`, `_cd`/`_code` and `_no` tests exclude one another, so a column gets the relations of at most one rule, to the candidates of that rule's stem |
| WorkerInference.RemoveAllAbsent | worker/app/services/inference_service.py:106 | `str.replace` of an absent pattern leaves the text unchanged |
| WorkerInference.CodeBaseExample | worker/app/services/inference_service.py:106 | the stem of `dept_cd` is `dept` |
| ErdStudio.CeilSqrt | frontend/src/pages/ErdStudioPage.tsx:53 | `Math.ceil(Math.sqrt(x))` on whole numbers: the least `k` with `k * k >= x` |
| ErdStudio.DomainCols | frontend/src/pages/ErdStudioPage.tsx:51-54 | one column for at most one table; otherwise the ceiling of the square root of four times the count, clamped to 2..50; always in 1..50 |
| ErdStudio.DomainColsExample | frontend/src/pages/ErdStudioPage.tsx:51-54 | twelve tables give seven columns |
| ErdStudio.DomainColsWide | frontend/src/pages/ErdStudioPage.tsx:48-53 | below the cap of 50 the cluster is wide: `cols * cols >= 4 * count` |
| ErdStudio.CanvasRatioTenths | frontend/src/pages/ErdStudioPage.tsx:64-69 | the target ratio is one of 2.0, 2.5, 3.0, 4.0, and is 2.0 exactly for at most five domains |
| ErdStudio.CanvasRatioMonotone | frontend/src/pages/ErdStudioPage.tsx:57-69 | more domains never give a narrower target |
| ErdStudio.Prefix | frontend/src/pages/ErdStudioPage.tsx:82-92 | a name has a prefix iff its first `_` is past position 0; the prefix is the upper-cased text before it |
| ErdStudio.PrefixExamples | frontend/src/pages/ErdStudioPage.tsx:74 | `log_access` and `log_error` both have prefix `LOG` |
| ErdStudio.EtcTables | frontend/src/pages/ErdStudioPage.tsx:77 | the filter keeps only `ETC` tables of the input |
| ErdStudio.CountMapCounts | frontend/src/pages/ErdStudioPage.tsx:80-86 | the prefix map counts, for each prefix, the `ETC` tables that have it |
| ErdStudio.RefineEtcDomain | frontend/src/pages/ErdStudioPage.tsx:76-97 | the counting loop and the `map` give the reference `Refined` |
| ErdStudio.NoEtcUnchanged | frontend/src/pages/ErdStudioPage.tsx:78 | without `ETC` tables the input is returned as it is |
| ErdStudio.RefineSpec | frontend/src/pages/ErdStudioPage.tsx:76-97 | only the domain of a table can change, and only for an `ETC` table with a prefix that at least two `ETC` tables share, which becomes that prefix |
| ErdStudio.RefineExample | frontend/src/pages/ErdStudioPage.tsx:72-75 | `log_access` and `log_error` in `ETC` both move to domain `LOG` |
| ErdStudio.Mapped | frontend/src/pages/ErdStudioPage.tsx:88-96 | the `map` keeps the length and promotes each table on its own |
| ErdStudio.RefineIdempotent | frontend/src/pages/ErdStudioPage.tsx:76-97 | refining twice is refining once |
| ErdStudio.TablesOf | frontend/src/pages/ErdStudioPage.tsx:103-107 | a domain's group holds only input tables of that domain |
| ErdStudio.DomainsFacts | frontend/src/pages/ErdStudioPage.tsx:103-107 | the group keys are distinct, cover every table's domain, and each has a non-empty group |
| ErdStudio.GroupsAreTablesOf | frontend/src/pages/ErdStudioPage.tsx:103-107 | the group map has exactly the domains as keys, each bound to its tables in input order |
| ErdStudio.GroupByDomain | frontend/src/pages/ErdStudioPage.tsx:103-107 | the grouping loop gives the domains in first-seen order and each domain's tables in input order |
| ErdStudio.Dims | frontend/src/pages/ErdStudioPage.tsx:113-123 | one cluster per domain |
| ErdStudio.DimsShaped | frontend/src/pages/ErdStudioPage.tsx:113-123 | every cluster has at least one column and is wide and tall enough for its grid of nodes under its label |
| ErdStudio.PlaceClusters | frontend/src/pages/ErdStudioPage.tsx:134-161 | the placement loop gives the reference position map and one label per cluster at the cursor |
| ErdStudio.ComputeDomainPositions | frontend/src/pages/ErdStudioPage.tsx:99-162 | `computeDomainPositions` returns the reference `Layout`, with the row estimate clamped to `[1, n]` |
| ErdStudio.NodeInCluster | frontend/src/pages/ErdStudioPage.tsx:141-147 | each node lies inside its cluster's box, below the label |
| ErdStudio.NodesApart | frontend/src/pages/ErdStudioPage.tsx:141-147 | two nodes of one cluster do not overlap |
| ErdStudio.ClustersApart | frontend/src/pages/ErdStudioPage.tsx:150-159 | the boxes of two clusters do not overlap |
| ErdStudio.SlotsApart | frontend/src/pages/ErdStudioPage.tsx:138-160 | any two node slots of the layout do not overlap |
| ErdStudio.LayoutEmpty | frontend/src/pages/ErdStudioPage.tsx:110 | no tables give an empty map and no labels |
| ErdStudio.LayoutLabelDomains | frontend/src/pages/ErdStudioPage.tsx:108-139 | the labels follow the domains in sorted order |
| ErdStudio.LayoutLabels | frontend/src/pages/ErdStudioPage.tsx:108-139 | there is exactly one label per domain |
| ErdStudio.LayoutLabelsAscending | frontend/src/pages/ErdStudioPage.tsx:108 | label domains are strictly ascending |
| ErdStudio.LayoutLabelPlaced | frontend/src/pages/ErdStudioPage.tsx:139 | a label has its cluster's width and non-negative coordinates |
| ErdStudio.LayoutCovers | frontend/src/pages/ErdStudioPage.tsx:141-148 | every table id gets a position |
| ErdStudio.LayoutApart | frontend/src/pages/ErdStudioPage.tsx:138-160 | two distinct positioned ids have non-overlapping node boxes at non-negative coordinates |
| ErdStudio.LayoutOnlyTables | frontend/src/pages/ErdStudioPage.tsx:144 | only input table ids get a position |
| ErdBuilder.BuildErdGraph | server/src/lib/erdBuilder.ts:7-44 | the graph keeps the project id and extraction time, one table per built table and one relation per built relation |
| ErdBuilder.BuildTablesSpec | server/src/lib/erdBuilder.ts:11-24 | a table's id and name are its name, a missing comment becomes `""` and a missing domain `ETC`; each column keeps its fields with a missing comment as `""` |
| ErdBuilder.BuildRelationsSpec | server/src/lib/erdBuilder.ts:26-36 | a relation keeps its endpoints, confidence, cardinality, reason and evidence, and gets the id `toRelationId(r, idx)` |
| ErdBuilder.RelationIdIndex | server/src/lib/erdBuilder.ts:4-5 | two relation ids that are equal carry the same index, whatever the endpoint names |
| ErdBuilder.RelationIdsDistinct | server/src/lib/erdBuilder.ts:4-27 | the relations of one graph have distinct ids |
| ErdBuilder.RelationIdExample | server/src/lib/erdBuilder.ts:4-5 | the first relation `order_item.order_id -> order.order_id` gets id `order_item.order_id->order.order_id:0` |
| Store.FirstIndex | server/src/lib/jsonStore.ts:157 | `findIndex`: -1 when no element matches, otherwise the index of a matching element with no match before it |
| Store.FirstMatch | server/src/lib/jsonStore.ts:148-154 | `find`: nothing iff no element matches; otherwise a matching element of the list |
| Store.UpsertUserSpec | server/src/lib/jsonStore.ts:156-161 | after `saveUser` the first user with that id is the saved one; a known id keeps the length and replaces only the first match, an unknown id is appended |
| Store.SetFileSpec | server/src/lib/jsonStore.ts:184 | `Map.set` on the projects keeps project ids distinct, binds the id to the new file and leaves every other id's file as it was |
| Store.UpdatedProject | server/src/lib/jsonStore.ts:194-196 | the update keeps id, owner and creation time, sets `updatedAt`, and replaces name or description only when given |
| Store.FindConnectionFirst | server/src/lib/jsonStore.ts:209-215 | the per-project search returns the first connection with that id in the flattened list, the one `listConnections` shows |
| Store.AllConnectionsAppend | server/src/lib/jsonStore.ts:203-207 | flattening distributes over concatenation of projects |
| Store.DeleteConnectionSpec | server/src/lib/jsonStore.ts:241-253 | deleting an unknown id changes nothing; otherwise the flattened list loses exactly its first connection with that id |
| Store.RenameConnectionSpec | server/src/lib/jsonStore.ts:255-267 | renaming an unknown id changes nothing; otherwise only the first connection with that id changes, and only its name |
| Store.LatestSpec | server/src/lib/jsonStore.ts:281-303 | the latest record is absent only for an empty list; otherwise no record has a later `extractedAt`, and every record before it has an earlier one |
| Store.JsonStore.constructor | server/src/lib/jsonStore.ts:111-114 | the store starts without users and projects |
| Store.JsonStore.SaveUser | server/src/lib/jsonStore.ts:156-161 | the users become `UpsertUser` of the old users; projects are untouched |
| Store.JsonStore.ListProjects | server/src/lib/jsonStore.ts:164-166 | one project record per project file, in insertion order |
| Store.JsonStore.CreateProject | server/src/lib/jsonStore.ts:172-188 | the new project has the given id, a missing description as `""`, both timestamps `now`, and no connections, snapshots or graphs; `getProject(id)` then returns it |
| Store.JsonStore.UpdateProject | server/src/lib/jsonStore.ts:190-200 | an unknown project gives null and no change; otherwise only that project's record changes, to `UpdatedProject` |
| Store.JsonStore.ListConnections | server/src/lib/jsonStore.ts:203-207 | all connections, project by project in insertion order |
| Store.JsonStore.FindConnectionById | server/src/lib/jsonStore.ts:209-215 | the first connection with that id, or null |
| Store.JsonStore.CreateConnection | server/src/lib/jsonStore.ts:217-239 | an unknown project gives null and no change; otherwise the record with the given fields, id and time is appended to that project's connections only |
| Store.JsonStore.DeleteConnectionById | server/src/lib/jsonStore.ts:241-253 | true iff a connection with that id existed; the projects become `DeleteConnection` of the old ones |
| Store.JsonStore.UpdateConnection | server/src/lib/jsonStore.ts:255-267 | returns the renamed first match or null; the projects become `RenameConnection` of the old ones |
| Store.JsonStore.AddSnapshot | server/src/lib/jsonStore.ts:270-279 | an unknown project gives null and no change; otherwise the snapshot with its new id is appended to that project's snapshots only |
| Store.JsonStore.AddGraph | server/src/lib/jsonStore.ts:288-297 | an unknown project gives null and no change; otherwise the graph with its new id is appended to that project's graphs only |
| Store.JsonStore.ResetProjectData | server/src/lib/jsonStore.ts:305-314 | true iff the project exists; its snapshots and graphs are emptied and nothing else changes |
| ErdController.ToBuildResult | server/src/modules/erd/erd.controller.ts:13-43 | the two loops filling `fkSets` and the mapping give the reference `BuildOf` |
| ErdController.DeclaredFksAt | server/src/modules/erd/erd.controller.ts:17-20 | after the table loop a name is bound to the declared FK columns of the last table with that name, and absent names to nothing |
| ErdController.AddSourcesAt | server/src/modules/erd/erd.controller.ts:21-24 | the relation loop adds to a name's set exactly the source columns of the relations from that table |
| ErdController.IsFkIff | server/src/modules/erd/erd.controller.ts:17-36 | a column's `is_fk` holds iff a declared FK of the last same-named table names it or some relation has it as source |
| ErdController.IsFkOwnTable | server/src/modules/erd/erd.controller.ts:17-36 | with distinct table names: `is_fk` iff the table's own declared FK names the column or a relation from that table has it as source |
| ErdController.BuildOfShape | server/src/modules/erd/erd.controller.ts:26-42 | tables and columns keep their order and fields, relations and `extracted_at` pass through |
| ErdController.ToWorkerRelations | server/src/modules/erd/erd.controller.ts:45-57 | a missing list gives no relations |
| ErdController.RelationsRoundTrip | server/src/modules/erd/erd.controller.ts:45-57 | converting the relations of a built graph back gives the built relations with their scores removed |
| ErdController.RelationsRoundTripExact | server/src/modules/erd/erd.controller.ts:45-57 | relations without scores come back unchanged |
| ErdController.SyncConnection | server/src/modules/erd/erd.controller.ts:80-82 | a non-empty connection id is looked up by id; otherwise the first connection of the project in listing order |
| ErdController.SaveSync | server/src/modules/erd/erd.controller.ts:138-153 | reset, add snapshot, add graph: an unknown project is left as it was; otherwise its snapshots and graphs become exactly the new ones and nothing else changes |
| ErdController.HandleSyncErd | server/src/modules/erd/erd.controller.ts:69-163 | an unknown connection gives 404 and no write; otherwise the events are `SyncEvents`, and the store changes (by `SaveSync`) only when the save event is reached |
| ErdController.SyncStream | server/src/modules/erd/erd.controller.ts:109-160 | the events sent are `SyncEvents` (checkpoints, abort checks, the error event); the users never change; the project's snapshots and graphs become the single new snapshot and graph exactly when the save is reached and the project exists, and nothing changes otherwise |
| ErdController.SyncSuccess | server/src/modules/erd/erd.controller.ts:110-155 | without an error or an abort the events are the five checkpoints with strictly increasing progress, ending with done at 100 carrying the graph |
| ErdController.SyncEventsShape | server/src/modules/erd/erd.controller.ts:109-160 | the stream starts with connect, has at most five events, progress rises except into an error event, an error is last with progress 0, done is last and only after a save, and a thrown extraction gives exactly connect then error |
| ErdController.SaveOnlyAfterSaveEvent | server/src/modules/erd/erd.controller.ts:111-138 | the store is written iff the save event is sent; an abort seen before it means no write |
| DbMetadata.InferDomain | server/src/lib/dbMetadata.ts:26-38 | with the prefix table looked up by its own keys only (the corrected lookup, see Findings), the domain is one of ORDER, USER, PRODUCT, PAYMENT, SHIPPING, SYSTEM, CODE, ETC |
| DbMetadata.InferDomainEtc | server/src/lib/dbMetadata.ts:27-37 | under the own-key lookup, ETC exactly when the lower-cased first segment is not one of the map's prefixes |
| DbMetadata.InferDomainAsWritten | server/src/lib/dbMetadata.ts:28-37 | the object-literal lookup as written: the inherited `constructor` function exactly when the first segment is `constructor`, otherwise the same text as `InferDomain` |
| DbMetadata.ConstructorDomainExample | server/src/lib/dbMetadata.ts:37 | `constructor_log` gets the inherited function as written, and ETC under the own-key lookup |
| DbMetadata.FirstSegmentSpec | server/src/lib/dbMetadata.ts:27 | the first segment is the lower-cased text before the first `_`, or the whole lower-cased name |
| DbMetadata.InferDomainIgnoresRest | server/src/lib/dbMetadata.ts:27 | only the text before the first `_` matters |
| DbMetadata.InferDomainCase | server/src/lib/dbMetadata.ts:27 | the domain does not depend on letter case |
| DbMetadata.InferDomainOrder | server/src/lib/dbMetadata.ts:29 | `order` is ORDER |
| DbMetadata.InferDomainCodePrefix | server/src/lib/dbMetadata.ts:35 | `cmn_x` is CODE |
| DbMetadata.InferDomainUnknownPrefix | server/src/lib/dbMetadata.ts:28-37 | `orders` is ETC: prefixes match whole segments only |
| DbMetadata.TranslateDbError | server/src/lib/dbMetadata.ts:41-61 | a raw message is returned only when it is non-empty, and it is the error's own message |
| DbMetadata.FirstFiring | server/src/lib/dbMetadata.ts:46-59 | the index of the first rule that fires, with none firing before it, or -1 when none fires |
| DbMetadata.TranslateByPriority | server/src/lib/dbMetadata.ts:46-60 | the first firing rule of timeout, refused, not found, access denied, unknown database, 18456, 4060 decides the message; otherwise the raw message, or the default text when it is empty |
| DbMetadata.TimeoutWins | server/src/lib/dbMetadata.ts:46-47 | an `ETIMEDOUT` code gives the timeout message naming the address, whatever else the error says |
| DbMetadata.TranslateNeverEmpty | server/src/lib/dbMetadata.ts:60 | the translation is never an empty raw message |
| DbMetadata.ColTypeStr | server/src/lib/dbMetadata.ts:322-333 | the type text always starts with the base type name |
| DbMetadata.ColTypeBare | server/src/lib/dbMetadata.ts:327-332 | the bare base name is returned iff the type is neither a character nor a decimal type |
| DbMetadata.ColTypeMax | server/src/lib/dbMetadata.ts:328 | a character type with max_length -1 is `base(MAX)` |
| DbMetadata.ColTypeNational | server/src/lib/dbMetadata.ts:328 | `nvarchar`/`nchar` show half the byte length |
| DbMetadata.ColTypePlain | server/src/lib/dbMetadata.ts:328 | `varchar`/`char` show the byte length |
| DbMetadata.ColTypeExamples | server/src/lib/dbMetadata.ts:322-333 | `nvarchar` of 100 bytes is `nvarchar(50)`, `decimal` 18,2 is `decimal(18,2)`, `int` is `int` |
| DbMetadata.GroupBy | server/src/lib/dbMetadata.ts:134-145 | the grouping loop maps every key to exactly its rows, in row order |
| DbMetadata.CountInAll | server/src/lib/dbMetadata.ts:184 | when every row's key is listed once, the group sizes add up to the number of rows |
| DbMetadata.Dedup | server/src/lib/dbMetadata.ts:309-356 | `[...pkSet]` holds each name of the input once and nothing else |
| DbMetadata.NonEmpty | server/src/lib/dbMetadata.ts:156-176 | `text \|\| undefined`: absent iff missing or empty, otherwise the text itself |
| DbMetadata.ExtractMysql | server/src/lib/dbMetadata.ts:86-192 | a failed connection gives its translated message; otherwise the reshaped MySQL result |
| DbMetadata.MysqlPkColumns | server/src/lib/dbMetadata.ts:150-164 | `is_pk` iff the key is `PRI`, and `pk_columns` lists exactly those columns in column order |
| DbMetadata.PkNamesSpec | server/src/lib/dbMetadata.ts:150-152 | a name is among the PK names iff some PK column has it |
| DbMetadata.MysqlTableSpec | server/src/lib/dbMetadata.ts:147-179 | one table per table row with its name and inferred domain, its own columns in row order, its PK columns, and one FK per FK row of the table |
| DbMetadata.TotalsSpec | server/src/lib/dbMetadata.ts:183-185 | the column and FK totals are at least every table's own counts |
| DbMetadata.MysqlColumnCountAll | server/src/lib/dbMetadata.ts:184 | with distinct table names and every column row belonging to a listed table, `column_count` is the number of column rows |
| DbMetadata.ExtractMssql | server/src/lib/dbMetadata.ts:235-379 | a failed connection gives its translated message; otherwise the reshaped MSSQL result |
| DbMetadata.MssqlTableSpec | server/src/lib/dbMetadata.ts:335-366 | a column is PK iff a key row names it, iff its key type is `PRI`, iff it is in `pk_columns`; its type is `colTypeStr`; `pk_columns` has no repeats |
| DbMetadata.PkSetSpec | server/src/lib/dbMetadata.ts:309-356 | a name is in a table's PK set iff a key row names it |
| DbMetadata.MysqlTest | server/src/lib/dbMetadata.ts:64-84 | success iff the driver succeeded, then the version is `MySQL …`; a failure has an empty version and the translated message |
| DbMetadata.MssqlTest | server/src/lib/dbMetadata.ts:212-233 | success iff the driver succeeded; a failure has an empty version and the translated message |
| DbMetadata.MssqlVersionOneLine | server/src/lib/dbMetadata.ts:226 | the MSSQL version shown is a single line |
| DbMetadata.TestDbConnection | server/src/lib/dbMetadata.ts:382-393 | a failed test never shows a version |
| DbMetadata.TestSuccessIff | server/src/lib/dbMetadata.ts:382-393 | a test succeeds iff the type is mysql or mssql and that driver succeeded; Oracle and unknown types always fail |
| DbMetadata.ExtractMetadata | server/src/lib/dbMetadata.ts:395-402 | a result is only ever the mysql or mssql extractor's own result for that type |
| DbMetadata.DispatchAgrees | server/src/lib/dbMetadata.ts:382-402 | the test and the extraction refuse Oracle and unknown types alike |
| MetadataService.InferDomainPyNone | worker/app/services/metadata_service.py:23-29 | a name without `_` is ETC |
| MetadataService.InferDomainPyCompound | worker/app/services/metadata_service.py:25-26 | with at least three segments whose first two have at most four characters, the domain is the upper-cased text up to the second `_` |
| MetadataService.InferDomainPySimple | worker/app/services/metadata_service.py:27-28 | otherwise a name with a `_` has the upper-cased first segment as its domain |
| MetadataService.InferDomainPyUpper | worker/app/services/metadata_service.py:23-29 | the domain has no lower-case ASCII letter |
| MetadataService.InferDomainPySimpleExample | worker/app/services/metadata_service.py:21 | `r_indicatorinfo` is `R` |
| MetadataService.InferDomainPyCompoundExample | worker/app/services/metadata_service.py:21 | `st_tr_sales` is `ST_TR` |
| MetadataService.PyColumn | worker/app/services/metadata_service.py:60-70 | `nullable` iff `nullable_yn` is `Y`, `is_pk` iff `pk_yn` is `Y` |
| MetadataService.RuleOr | worker/app/services/metadata_service.py:87-88 | the rule is `NO ACTION` iff the row's rule is missing, empty or `NO ACTION` itself |
| MetadataService.TableIndex | worker/app/services/metadata_service.py:53-78 | the position of the table with that name, or -1 when `tname not in tables` |
| MetadataService.SortTables | worker/app/services/metadata_service.py:93 | `sorted(..., key=name)` of distinctly named tables is a permutation in ascending name order |
| MetadataService.SortTotals | worker/app/services/metadata_service.py:93-94 | sorting keeps the column and FK totals |
| MetadataService.ExtractMetadataPy | worker/app/services/metadata_service.py:48-103 | `extract_metadata` after the connector returns the reference `PyResult` |
| MetadataService.GroupColumnRows | worker/app/services/metadata_service.py:48-73 | the column loop gives the reference grouping `Grouped` |
| MetadataService.AddRowIn | worker/app/services/metadata_service.py:50-73 | one row: its table is created on first sight, the column appended, and the name added to the PK list when the row is a PK, giving the reference step `AddRow` |
| MetadataService.AttachFkRows | worker/app/services/metadata_service.py:76-90 | the FK loop gives the reference `AttachFks` |
| MetadataService.GroupedSpec | worker/app/services/metadata_service.py:50-73 | the grouped tables have distinct names, each built from its own rows (columns and PK names in row order, comment and domain from its first row), and every named table is present |
| MetadataService.AttachSpec | worker/app/services/metadata_service.py:76-90 | each table gains the FK rows of its name, in row order; rows of unknown tables are skipped |
| MetadataService.AttachCount | worker/app/services/metadata_service.py:76-100 | attached FKs plus skipped rows make up all FK rows |
| MetadataService.GroupedColumnTotal | worker/app/services/metadata_service.py:50-94 | grouping keeps every column row: the column total is the number of rows |
| MetadataService.ResultCounts | worker/app/services/metadata_service.py:93-100 | `table_count` is the number of tables, `column_count` the number of column rows and the column total, `fk_count` the number of FK rows, equal to the FK total iff no row was skipped |
| MetadataService.ResultSorted | worker/app/services/metadata_service.py:93 | the tables come out in strictly ascending name order |
| MetadataService.ResultTable | worker/app/services/metadata_service.py:50-93 | each returned table is built from the column rows of its name and carries the FK rows of its name, rules defaulting to `NO ACTION` |
| MetadataService.ResultCovers | worker/app/services/metadata_service.py:50-93 | every table named by a column row is in the result |
| MetadataService.PyColumnsSpec | worker/app/services/metadata_service.py:60-70 | one column per row, in row order, each converted by `PyColumn` |
| DbExporter.UndoubleDouble | server/src/lib/dbExporter.ts:21-33 | doubling every `'` in a note is undone by halving the doubled quotes: no two notes collide |
| DbExporter.BuildDbml | server/src/lib/dbExporter.ts:9-56 | `buildDbml`'s loops give the reference line list `DbmlLines` joined with newlines |
| DbExporter.DbmlColumn | server/src/lib/dbExporter.ts:26-36 | the line of one column equals the reference `DbmlColumnLine` |
| DbExporter.DbmlColumnLines | server/src/lib/dbExporter.ts:25-37 | one line per column |
| DbExporter.DbmlStartsWithHeader | server/src/lib/dbExporter.ts:13-55 | the text starts with the two header comments and a blank line and continues with the tables, then the references block when there is one |
| DbExporter.HeaderJoin | server/src/lib/dbExporter.ts:13-17 | the joined header is the two comment lines naming the schema and the extraction time |
| DbExporter.TableLinesNoSlash | server/src/lib/dbExporter.ts:19-40 | no line of a table block starts with `/`, so the only comments are the header and `// References` |
| DbExporter.ColumnLinesIndent | server/src/lib/dbExporter.ts:36 | every column line is indented |
| DbExporter.RefLinesSpec | server/src/lib/dbExporter.ts:43-48 | a `Ref:` line is emitted exactly for the relations whose confidence is FK or HIGH, arrow `-` for 1:1 and `>` otherwise |
| DbExporter.RefLinesEmptyIff | server/src/lib/dbExporter.ts:43-50 | no `Ref:` lines iff no relation is FK or HIGH |
| DbExporter.ReferencesIff | server/src/lib/dbExporter.ts:50-53 | the `// References` line is present iff some relation is FK or HIGH |
| DbExporter.BracketIff | server/src/lib/dbExporter.ts:26-36 | a column line has no bracket iff the column is not a PK, is nullable, has no default and no truthy comment |
| DbExporter.ColumnAttrsOrder | server/src/lib/dbExporter.ts:26-34 | the attributes are `pk`, `not null`, `default`, `note`, each present iff its condition holds, in that order |
| DbExporter.Sanitize | server/src/lib/dbExporter.ts:70 | every UTF-16 unit outside `[a-zA-Z0-9_]` becomes `_`: the result has the input's UTF-16 length and only word characters, and on text inside the Basic Multilingual Plane each character is kept or replaced by one `_` in place |
| DbExporter.SanitizeAstralExample | server/src/lib/dbExporter.ts:70 | an emoji, outside the Basic Multilingual Plane, becomes two underscores: `a😀b` gives `a__b` |
| DbExporter.SafeType | server/src/lib/dbExporter.ts:69-72 | the Mermaid type is a non-empty word with no leading or trailing `_` |
| DbExporter.SafeTypeKeeps | server/src/lib/dbExporter.ts:69-72 | a type that is already such a word is kept as is |
| DbExporter.SafeTypeUnknown | server/src/lib/dbExporter.ts:72 | a type with no letter or digit becomes `unknown` |
| DbExporter.MermaidCardSpec | server/src/lib/dbExporter.ts:92-100 | the four cardinalities get four distinct arrows; any other text gets the 1:N arrow |
| DbExporter.MermaidLabel | server/src/lib/dbExporter.ts:84 | the label never holds `"`; without a reason it is the confidence |
| DbExporter.LabelNoQuotes | server/src/lib/dbExporter.ts:84 | removing `"` leaves a text without one unchanged |
| DbExporter.BuildMermaid | server/src/lib/dbExporter.ts:59-90 | `buildMermaid`'s loops give the reference line list `MermaidLines` joined with newlines |
| DbExporter.MermaidColumn | server/src/lib/dbExporter.ts:69-75 | the line of one column equals the reference `MermaidColumnLine` |
| DbExporter.MermaidColumnLines | server/src/lib/dbExporter.ts:67-76 | one line per column |
| DbExporter.MermaidRelLines | server/src/lib/dbExporter.ts:82-86 | one line per relation |
| DbExporter.MermaidTablesNonEmpty | server/src/lib/dbExporter.ts:65-78 | no line of a table block is empty |
| DbExporter.MermaidColumnsNonEmpty | server/src/lib/dbExporter.ts:75 | no column line is empty |
| DbExporter.MermaidBlankIff | server/src/lib/dbExporter.ts:80-81 | the diagram has a blank line iff there is at least one relation |
| ExportService.Finish | worker/app/services/export_service.py:29-59 | the text ends in exactly one newline, with no white space before it |
| ExportService.RemoveQuotes | worker/app/services/export_service.py:18 | a note never holds `'`; a comment without one is kept |
| ExportService.KeepsQuoteless | worker/app/services/export_service.py:18 | removing `'` leaves a text without one unchanged |
| ExportService.BuildDbmlPy | worker/app/services/export_service.py:7-29 | `build_dbml`'s loops give the reference line list `PyDbmlLines`, finished |
| ExportService.PyDbmlColumn | worker/app/services/export_service.py:12-20 | the line of one column equals the reference `PyDbmlColumnLine` |
| ExportService.PyDbmlColumnLines | worker/app/services/export_service.py:11-20 | one line per column |
| ExportService.PyRefLines | worker/app/services/export_service.py:24-27 | one `Ref:` line per relation, whatever its confidence |
| ExportService.BuildMermaidPy | worker/app/services/export_service.py:42-59 | `build_mermaid`'s loops give the reference line list `PyMermaidLines`, finished |
| ExportService.PyMermaidColumnLines | worker/app/services/export_service.py:47-49 | one line per column |
| ExportService.PyMermaidRelLines | worker/app/services/export_service.py:52-57 | one line per relation |
| ExportService.MermaidCardAgree | worker/app/services/export_service.py:32-39 | on the four cardinalities the worker's connectors are the server's; on any other text the worker falls back to N:M, the server to 1:N |
| ExportService.RefLineAgree | worker/app/services/export_service.py:24-27 | apart from 1:1 relations, the worker's `Ref:` line is the server's |
| ExportService.DbmlColumnAgree | worker/app/services/export_service.py:12-20 | a column without a default and without quotes in its comment gets the server's DBML line |
| ExportService.DoubleQuoteless | worker/app/services/export_service.py:18 | doubling `'` leaves a text without one unchanged |
| ExportService.QuoteExample | worker/app/services/export_service.py:18 | for `it's` the server writes `it''s`, the worker `its` |
| WorkerRouter.SchemaOf | worker/app/routers/worker.py:67-70 | the schema is the first truthy of database, service name and SID, in that priority, and is missing iff none is truthy |
| WorkerRouter.MakeConnector | worker/app/routers/worker.py:82-89 | a connector exists exactly for the three known types; any other type is reported back as unsupported |
| WorkerRouter.ExtractEndpoint | worker/app/routers/worker.py:62-97 | 400 "schema required" iff no schema; every other failure is 400, 500 or 501; metadata is returned only when the fetch succeeded, and is `extract_metadata` of its rows for that schema |
| WorkerRouter.ExtractStatus | worker/app/routers/worker.py:81-97 | with a schema: 501 iff the type is unsupported; metadata iff the fetch succeeded; 400 carrying the message and error code iff a `ConnectorError`; 500 iff any other exception |
| WorkerRouter.ValidatedRequestFetches | worker/app/routers/worker.py:69-89 | a request that passed the model's validator always has a schema and a connector, so it never gets the 400 for a missing schema or the 501 |
| WorkerRouter.OracleSchemaFromDatabase | worker/app/routers/worker.py:67-69 | an Oracle request that also carries a database extracts the schema the database names, not the service name |
| WorkerRouter.ColumnEntry | worker/app/routers/worker.py:114-121 | name, type, nullability and PK flag copied; `is_fk` iff the name is a declared FK column; a missing comment becomes `''` |
| WorkerRouter.TableEntry | worker/app/routers/worker.py:111-127 | name copied, missing comment and domain become `''`, one entry per column in column order |
| WorkerRouter.GraphOf | worker/app/routers/worker.py:109-133 | one entry per table in table order; relations and `extracted_at` pass through unchanged |
| WorkerRouter.BuildErdEndpoint | worker/app/routers/worker.py:108-133 | the nested loops give the reference graph `GraphOf` |
| WorkerRouter.IsFkDeclaredOnly | worker/app/routers/worker.py:112-119 | `is_fk` iff a declared FK of the same table names the column; the relations never change the tables |
| WorkerRouter.IsFkAgainstServer | worker/app/routers/worker.py:112-119 | against the server's build result: what the worker marks the server marks too, and the server marks more only where an inferred relation starts at the column |
| WorkerConnection.ParseDbType | worker/app/models/connection.py:7 | `db_type` parses exactly for `mysql`, `mssql` and `oracle`, and the parsed type prints back as the text |
| WorkerConnection.ParseDbTypeName | worker/app/models/connection.py:7 | every type's name parses back to the type |
| WorkerConnection.CheckRequest | worker/app/models/connection.py:7-22 | an unknown type is rejected first; an accepted MySQL or MSSQL request has a truthy database, an accepted Oracle request a truthy service name or SID; each rejection names the missing target |
| WorkerConnection.CheckRequestIff | worker/app/models/connection.py:16-22 | accepted iff MySQL or MSSQL with a truthy database, or Oracle with a truthy service name or SID |
| WorkerConnection.OracleIgnoresDatabase | worker/app/models/connection.py:18-21 | for Oracle the database plays no part in the check |
| WorkerConnection.BlankDatabaseExample | worker/app/models/connection.py:18 | a database of one space passes, an empty one is rejected |
| Session.SkipSpaces | server/src/lib/session.ts:12 | `\s*` takes the longest run of white space |
| Session.ValueEnd | server/src/lib/session.ts:12 | `[^;]+` runs to the next `;` or the end |
| Session.GetTokenFromCookie | server/src/lib/session.ts:10-14 | a missing or empty header gives null; otherwise null iff no position matches, else the value matched at the leftmost matching position |
| Session.LeftmostSpec | server/src/lib/session.ts:12 | the regex search returns the match at the first position that matches, and none iff no position does |
| Session.LeftmostSkips | server/src/lib/session.ts:12 | positions that do not match can be skipped |
| Session.TokenAtSpec | server/src/lib/session.ts:12 | a value read after `erdai_session=` is non-empty, has no `;`, is the header's text right after the name, and ends at a `;` or the end |
| Session.MatchAtIsOccurrence | server/src/lib/session.ts:12 | a match at any position is an occurrence of the cookie's name and value |
| Session.TokenShape | server/src/lib/session.ts:12-13 | the returned token is non-empty, holds no `;`, and follows `erdai_session=` at the start of the header or after `;` and white space |
| Session.OccurrenceMatches | server/src/lib/session.ts:12 | every occurrence of the cookie is found by the search at some position up to it |
| Session.ValueEndAt | server/src/lib/session.ts:12 | the value ends at the first `;` |
| Session.SkipSpacesAt | server/src/lib/session.ts:12 | the white space skipped ends at the first other character |
| Session.FoundIff | server/src/lib/session.ts:11-13 | a token is found iff the header holds an occurrence of the cookie |
| Session.TokenOfParts | server/src/lib/session.ts:12 | a name at a position followed by a value up to `;` or the end reads as that value |
| Session.NameFirst | server/src/lib/session.ts:12 | a header starting with the cookie gives its value |
| Session.NoMatchBeforeSemicolon | server/src/lib/session.ts:12 | before the first `;` nothing matches unless the header starts with the cookie |
| Session.MatchAtSemicolon | server/src/lib/session.ts:12 | a `;` followed by white space and the cookie matches |
| Session.AfterOtherParts | server/src/lib/session.ts:12 | the cookie after another cookie, `;` and white space sits at a matching position |
| Session.AfterOtherCookie | server/src/lib/session.ts:12-13 | a cookie after another cookie and `;` plus white space is found, with its value |
| Session.LongerNameIgnored | server/src/lib/session.ts:12 | `xerdai_session=tok` gives null: a name that only ends in `erdai_session` does not match |
| ConnectionsDto.PortIssues | server/src/modules/connections/connections.dto.ts:12-16 | no port issue iff the coerced port is a number, an integer and within 1 to 65535; a port that is not a number gets only the type issue; every issue is on `port` |
| ConnectionsDto.TestIssues | server/src/modules/connections/connections.dto.ts:7-45 | no issue iff the body is valid (known type, host, port rule, username, password, and the target its type needs); the database issue iff MySQL or MSSQL with a numeric port and a blank database; the Oracle issue iff Oracle with a numeric port and blank service name and SID |
| ConnectionsDto.CreateIssues | server/src/modules/connections/connections.dto.ts:47-52 | the create schema accepts exactly the bodies whose connection part the test schema accepts |
| ConnectionsDto.UpdateIssues | server/src/modules/connections/connections.dto.ts:54-56 | no issue iff the connection name is not empty; the issue is on `connectionName` |
| ConnectionsDto.HasTextIff | server/src/modules/connections/connections.dto.ts:26-35 | `x?.trim()` is truthy iff the text is present and holds a character that is not white space |
| ConnectionsDto.ToWorker | server/src/modules/connections/connections.dto.ts:7-21 | the worker request carries the same type and targets |
| ConnectionsDto.HasTextTruthy | server/src/modules/connections/connections.dto.ts:26-35 | a text that is not blank is truthy |
| ConnectionsDto.WorkerAcceptsValidated | server/src/modules/connections/connections.dto.ts:24-45 | every body the server's test schema accepts passes the worker's validator too |
| ConnectionsDto.BlankDatabaseExample | server/src/modules/connections/connections.dto.ts:26 | a MySQL database of one space is rejected by the server and accepted by the worker |
| ConnectionSchema.FormPortIssues | frontend/src/lib/connectionSchema.ts:7-11 | no port issue iff the port rule holds; every issue is on `port` |
| ConnectionSchema.FormIssues | frontend/src/lib/connectionSchema.ts:3-37 | the database issue iff MySQL or MSSQL with a numeric port and a blank database; the service-name issue iff Oracle with a numeric port and blank service name and SID |
| ConnectionSchema.PortPathsAgree | frontend/src/lib/connectionSchema.ts:7-11 | the form's port issues are on the same fields as the server's |
| ConnectionSchema.BasePathsAgree | frontend/src/lib/connectionSchema.ts:4-17 | the form's field issues are on the same fields, in the same order, as the server's |
| ConnectionSchema.RefinePathsAgree | frontend/src/lib/connectionSchema.ts:18-37 | the form's refinement reports on the same fields as the server's |
| ConnectionSchema.SameRulesAsServer | frontend/src/lib/connectionSchema.ts:3-37 | the form reports issues on the same fields in the same order as the server's test schema, so it accepts exactly the bodies the server accepts; only the messages differ |
| ConnectionSchema.DefaultPortsValid | frontend/src/lib/connectionSchema.ts:42-46 | there is a default port for exactly the three types, and each passes the port rule |
| ChangePassword.KeyCount | frontend/src/pages/ChangePasswordPage.tsx:57 | `Object.keys(errs).length` is zero iff no field has an error, and at most three |
| ChangePassword.Validate | frontend/src/pages/ChangePasswordPage.tsx:21-30 | current-password error iff it is empty; "must differ" iff the new password is non-empty and equals the current one, which overrides the length error; the length error iff shorter than 8 UTF-16 units and not overridden; confirm error iff the confirmation differs |
| ChangePassword.ValidateEmptyIff | frontend/src/pages/ChangePasswordPage.tsx:21-30 | no error iff the current password is set, the new one has at least 8 units and differs from it, and the confirmation matches |
| ChangePassword.SameOverridesShort | frontend/src/pages/ChangePasswordPage.tsx:24-26 | a short new password equal to the current one gets "must differ"; an empty new password gets the length error |
| ChangePassword.HandleSubmit | frontend/src/pages/ChangePasswordPage.tsx:54-75 | errors are shown iff `validate` reports any; otherwise the current and new passwords are sent, and on success the user's must-change flag is cleared and the route is `/connections`; a failure keeps the API's message |
| ChangePassword.ApiOnlyWhenValid | frontend/src/pages/ChangePasswordPage.tsx:56-66 | the API is reached only with a current password, a new one of at least 8 units that differs, and a matching confirmation |
| Login.KeyCount | frontend/src/pages/LoginPage.tsx:40 | `Object.keys(errs).length` is zero iff neither field has an error |
| Login.Validate | frontend/src/pages/LoginPage.tsx:15-20 | password error iff the password is empty, untrimmed |
| Login.LoginIdBlank | frontend/src/pages/LoginPage.tsx:17 | login-id error iff the id is empty or only white space |
| Login.PasswordNotTrimmed | frontend/src/pages/LoginPage.tsx:17-18 | a password of one space passes, an id of one space does not |
| Login.RouteAfterLogin | frontend/src/pages/LoginPage.tsx:46-50 | `/change-password` iff the user must change the password, else `/connections` |
| Login.HandleSubmit | frontend/src/pages/LoginPage.tsx:37-54 | errors are shown iff `validate` reports any; otherwise sign-in is tried with the id and password as typed, a signed-in user is routed on the flag, and a failure keeps its message |
| Login.AttemptedIff | frontend/src/pages/LoginPage.tsx:39-45 | sign-in is attempted iff the id has a non-space character and the password is not empty |
| ErdGraphSync.FramedRoundTrip | frontend/src/hooks/useErdGraph.ts:64-71 | the segments taken out, each followed by the `\n\n` separator, and the text left in `buf` make up exactly the text received so far |
| ErdGraphSync.NextFrames | frontend/src/hooks/useErdGraph.ts:67-71 | appending one chunk to `buf`, splitting on `\n\n` and popping the last part keeps the framing invariant: the segments so far plus the new ready parts, and the new `buf`, are the framing of the chunks read so far |
| ErdGraphSync.RoundTripStep | frontend/src/hooks/useErdGraph.ts:67-71 | one chunk's split keeps that round trip |
| ErdGraphSync.FramedBufOpen | frontend/src/hooks/useErdGraph.ts:70-71 | what stays in `buf` never holds a separator |
| ErdGraphSync.FramedPrefix | frontend/src/hooks/useErdGraph.ts:64-71 | the segments after fewer chunks are a prefix of those after more: segments are processed in arrival order |
| ErdGraphSync.Payload | frontend/src/hooks/useErdGraph.ts:74-75 | a segment has a payload iff its trimmed text starts with `data:` |
| ErdGraphSync.SegmentEvent | frontend/src/hooks/useErdGraph.ts:73-81 | a segment without `data:` gives no event; otherwise the event is what the parser makes of the payload, none when it fails |
| ErdGraphSync.EventsAppend | frontend/src/hooks/useErdGraph.ts:73-81 | the events of two runs of segments are the events of each, in order |
| ErdGraphSync.LastGraphSpec | frontend/src/hooks/useErdGraph.ts:83-85 | the result graph is missing iff no `done` event carries a graph; otherwise it is the graph of the last such event |
| ErdGraphSync.LastGraphAppend | frontend/src/hooks/useErdGraph.ts:83-85 | a later `done` graph replaces an earlier one |
| ErdGraphSync.LatestAppend | frontend/src/hooks/useErdGraph.ts:85 | the current graph after two runs of events is the current graph after each in turn |
| ErdGraphSync.FirstError | frontend/src/hooks/useErdGraph.ts:86 | the position of the first `error` event lies within the events |
| ErdGraphSync.FirstErrorSpec | frontend/src/hooks/useErdGraph.ts:86-89 | no position iff no event is an `error`; otherwise an `error` with none before it |
| ErdGraphSync.EventStep | frontend/src/hooks/useErdGraph.ts:82-89 | one more event changes the result graph iff it is a `done` with a graph, and becomes the first error iff none came before |
| ErdGraphSync.FirstErrorPrefix | frontend/src/hooks/useErdGraph.ts:86-89 | events after the first `error` do not move it |
| ErdGraphSync.HandleAllAppend | frontend/src/hooks/useErdGraph.ts:64-92 | handling two runs of events is handling each in turn |
| ErdGraphSync.HandleAllStopped | frontend/src/hooks/useErdGraph.ts:89 | after the return on an `error` no event has any effect |
| ErdGraphSync.HandleAllSpec | frontend/src/hooks/useErdGraph.ts:73-91 | with an `error`: every event up to and including it reaches `onProgress`, graphs are taken from the events before it, the error message is recorded and handling stops; without one: every event reaches `onProgress`, the graph is the last `done` graph, and the error is untouched |
| ErdGraphSync.ErdGraphHook.constructor | frontend/src/hooks/useErdGraph.ts:12-15 | no graph, not loading, no error, nothing delivered or requested |
| ErdGraphSync.ErdGraphHook.Load | frontend/src/hooks/useErdGraph.ts:17-30 | with no project nothing changes; otherwise the fetched graph with no error, or no graph and the error's message, and loading ends |
| ErdGraphSync.ErdGraphHook.HandleSegment | frontend/src/hooks/useErdGraph.ts:73-90 | the body of the inner loop is one step of the reference handling `HandleOpt` |
| ErdGraphSync.ErdGraphHook.HandleSegments | frontend/src/hooks/useErdGraph.ts:73-91 | the inner loop, with its early return, is the reference handling `HandleAll` of the segments' events |
| ErdGraphSync.ErdGraphHook.ReadStream | frontend/src/hooks/useErdGraph.ts:59-98 | the read loop hands the events of all framed segments to the reference handling; it returns null after an `error` event or a read failure, else the last `done` graph |
| ErdGraphSync.ErdGraphHook.Sync | frontend/src/hooks/useErdGraph.ts:32-104 | with no project: null and nothing changes; otherwise one request with the connection id when truthy; a refused response records the body's message or the status and redirects on 401; a thrown error records its message; a stream delivers events in order up to the first `error`, which returns null with its message; without one the result is the last `done` graph; loading ends in every case |
| ErdGraphSync.SegmentsStep | frontend/src/hooks/useErdGraph.ts:73-91 | handling one more segment extends the handling of the segments before it |
| ErdGraphSync.EventsOfPrefix | frontend/src/hooks/useErdGraph.ts:73-91 | the events of all segments are those of a prefix followed by those of the rest |
| ErdGraphSync.StoppedPrefix | frontend/src/hooks/useErdGraph.ts:89 | once handling has stopped on a prefix, the remaining segments change nothing |
| ErdGraphSync.StopAtSegment | frontend/src/hooks/useErdGraph.ts:89 | the return inside the inner loop gives the handling of all segments |
| ErdGraphSync.ChunkStep | frontend/src/hooks/useErdGraph.ts:64-92 | handling the segments of one more chunk continues the handling of those before |
| ErdGraphSync.StopInChunk | frontend/src/hooks/useErdGraph.ts:86-89 | an `error` inside a chunk's segments gives the handling of the whole stream |
| Text.SplitOn | frontend/src/hooks/useErdGraph.ts:70-71 | `split` gives at least one part, and the last part (the one popped into `buf`) holds no separator |
| Text.SplitOnJoin | frontend/src/hooks/useErdGraph.ts:70-71 | the parts before the last, each followed by the separator, and then the last part rebuild the split text |
| Text.Utf16Length | frontend/src/pages/ChangePasswordPage.tsx:24 | `.length` counts between one and two units per character, one per character of the basic plane |
| Text.TrimEmptyIffBlank | frontend/src/pages/LoginPage.tsx:17 | `trim()` gives the empty text iff the text is only white space |
| Text.SortStrings | frontend/src/pages/ErdStudioPage.tsx:108 | the domains sorted by `localeCompare` are a permutation of the input in ascending order |
| Text.SortedDistinctStrict | frontend/src/pages/ErdStudioPage.tsx:108 | sorted distinct domains are strictly ascending |
| Schema.RowsForSpec | worker/app/services/metadata_service.py:50-58 | the rows kept for a key are exactly the input rows with that key |
| Schema.RowsForSnoc | worker/app/services/metadata_service.py:50-58 | one more row is kept, at the end, iff it has the key |

## Left out

- Database drivers and connectors (`testMysql`, `extractMysql`, `testMssql`, `extractMssql`, `getMssqlPool`, the worker's connector classes and `make_connector`'s factory): extraction is a parameter that returns rows or fails; the queries themselves are not modelled.
- HTTP wiring: `handleGetErd`, `handleExportDbml`, `handleExportMermaid`, the worker's `/health`, `/test-connection`, `/infer-relations` and export endpoints, the `erdSyncSchema` check on the sync body, the routers and the clients only pass values through to the modelled functions.
- Store file handling: reading and atomically writing the JSON files, `init`, `persistProject`, the `Mutex` queue, `randId` and the clock; ids and timestamps are parameters, and only the in-memory collections are modelled. The projects `Map` is a sequence in insertion order.
- ErdController.HandleSyncErd: a store write that fails between reset, snapshot and graph is not modelled, because the writes are file I/O; the model shows the three calls in their order.
- Server-sent events and aborts: `res.write`, `flushHeaders` and `req.on('close')` are an appended event list and a checkpoint index at which the client has gone.
- ErdGraphSync.ErdGraphHook.Sync: `fetch`, the `ReadableStream` reader, `TextDecoder` and `JSON.parse` are parameters (the chunks as already decoded text, a parser oracle); `onProgress` is always present and its calls are the `progress` list; the page redirect on 401 is the `location` field; the effect that clears the graph when the project changes is not modelled.
- Floating point: `domainsPerRow` (from `avgW`, `avgH`, `Math.sqrt`, `Math.round`) is an integer parameter clamped to the range the code clamps it to; `adaptiveCanvasRatio` is in tenths; the worker's scores are integer hundredths, which gives the same confidence buckets as the floats.
- String handling: `toLowerCase`, `toUpperCase`, `trim`, `\s` and Python's `str.upper` act on ASCII only; `localeCompare` and Python's `sorted` are code-point order; JavaScript `.length` counts UTF-16 units through `Text.Utf16Length`, and the Mermaid type sanitiser's regex, which has no `u` flag, replaces each UTF-16 unit, so a character outside the Basic Multilingual Plane becomes two underscores.
- Text.IsSpace: the six ASCII white-space characters only; Python's `str.strip()` also strips `\x1c` to `\x1f` and other Unicode white space, and JavaScript's `trim` and `\s` strip Unicode white space, none of which the model treats as space.
- DbMetadata.InferDomain: the extracted tables take their domain from the own-key lookup; for a first segment `constructor` the code stores the inherited function `Object.prototype.constructor` instead (see Findings), which a table's domain text cannot hold.
- RelationInferrer.PatternFor: `if (targetName)` also rejects a resolved table whose name is the empty string; the model treats every resolved name as a target, since a database table always has a non-empty name.
- ErdGraphSync.SegmentEvent: the parser oracle yields an event or nothing, so a payload that parses to `null` or to another non-object (which reaches `onProgress` and then fails on `event.step`, recording the TypeError's message) is not modelled.
- Keys built by string concatenation (`${table}.${column}` and the dedup keys) are pairs, so names that contain the separator do not collide in the model as they could in the code.
- zod and pydantic internals: coercion of `port` is given as a number or none (NaN); only the rules the schemas state are modelled, and messages are enumerated kinds, not their Korean texts.
- The loading flags of the login and change-password pages and of `load` between its start and end are not modelled; only their final values are.
- React rendering, ReactFlow nodes and edges, timers and the other components and pages: they render state and hold no logic of the pipeline.

## Findings

| source | as written | input that shows it | evidently intended | confidence | as-written member | corrected member |
|---|---|---|---|---|---|---|
| server/src/lib/dbMetadata.ts:37 | `MAP[first] ?? 'ETC'` reads a plain object literal, so a key the literal does not own is looked up on `Object.prototype` | a table named `constructor_log` (`DbMetadata.ConstructorDomainExample`): the domain is the function `Object.prototype.constructor`, neither one of the domains nor ETC | only the map's own keys count, so that table is ETC | not executed | DbMetadata.InferDomainAsWritten | DbMetadata.InferDomain |
