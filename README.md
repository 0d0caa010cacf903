# Layered upsert pipeline of the WINE and SALES feature domains

This project models the core of a feature store built on a Snowflake warehouse.
For each feature domain the source's Python builders register a chain of
warehouse tasks:

- a **stage** task refreshes an ingestion pipe into a raw **bronze** table on a
  schedule;
- a **silver** task, run after the stage task, merges the bronze rows that pass a
  data-quality gate (required columns NOT NULL) into a clean silver table;
- one or more **gold** tasks, run after the silver task, merge derived feature
  rows computed from silver into gold tables.

The WINE entry point `main` registers its five tasks, producers first, and then
resumes them in the reverse of its task list.

The Dafny model is organised as the program is:

| file | module | models |
|---|---|---|
| `wrappers.dfy` | `Wrappers` | `Option`, the NULL of a nullable column |
| `upsert.dfy` | `Upsert` | a table keyed on a nullable column; MERGE, the gated source subquery, projection |
| `tasks.dfy` | `Tasks` | the task scheduler reached through the session: a registry addressed by `database.schema.name`, CREATE OR REPLACE, ALTER TASK ... RESUME, a log of the statements issued |
| `wine_bronze_silver.dfy` | `WineBronzeSilver` | FD_Wine/Tasks/bronze_silver.py |
| `wine_gold.dfy` | `WineGold` | FD_Wine/Tasks/gold.py |
| `wine_app.dfy` | `WineApp` | FD_Wine/Tasks/app.py |
| `sales_bronze_silver.dfy` | `SalesBronzeSilver` | FD_Sales/Tasks/bronze_silver.py |
| `sales_gold.dfy` | `SalesGold` | FD_Sales/Tasks/gold.py |
| `wine_warehouse.dfy`, `sales_warehouse.dfy` | `WineWarehouse`, `SalesWarehouse` | the tables of each domain, updated in place when the scheduler runs a task body |

Modelling choices:

- A table is `Upsert.Table(keyed, unkeyed)`. `keyed` maps each non-NULL merge key
  to its row. `unkeyed` is the sequence of rows whose key is NULL. `NULL = NULL`
  is never true, so such rows never match and every MERGE inserts them again.
- MERGE of a source with distinct keys is the right-biased union of the keyed
  parts plus the appended NULL-keyed source rows. The source's rows must have
  distinct non-NULL keys (`DistinctKeys`). Snowflake gives no deterministic
  result for a matched key carried by several source rows, so the model makes no
  claim there.
- The quality gate is a conversion `Clean` from the nullable bronze row to the
  silver row type. It fails exactly when a required column is NULL, and the
  silver row widens back to the bronze row it came from.
- NUMBER and FLOAT columns are exact `real`s.
- The builder classes keep their Python shape. Each holds the session, database,
  schema and warehouse, and each method issues one CREATE OR REPLACE TASK through
  `Tasks.Session`, which records it in the registry and the log.

Behaviour of the code worth knowing:

- **No validation.** The code has no schema registry, no schedule validation and
  no chain-integrity check. A task can be registered after a predecessor that
  does not exist.
- **Matched keys are overwritten.** Each MERGE overwrites a matched key with the
  source row. The model proves that re-running converges only for sources with
  distinct non-NULL keys. The WINE gate does not test `ID`, so a measured bronze
  row with a NULL `ID` is inserted into silver again on every run, and into every
  gold table from there. `CleanUpsertIdempotent`, `GoldIdempotent` and
  `RepeatedUnkeyedGrows` state this exactly.
- **Predecessor names.** The SALES gold task names its predecessor without
  database and schema (`AFTER {after}`). Every other builder qualifies it
  (`GoldPredecessorUnqualified`).
- **Failed RESUME.** A failing RESUME raises out of `alter_tasks`. The model stops
  at the first missing task, and nothing after it is resumed.

## Model

| member | source | states |
|---|---|---|
| Upsert.Gate | FD_Wine/Tasks/bronze_silver.py:85-100 | every row of the gated source is an accepted raw row, converted, and every accepted raw row occurs in it; it is never longer than the raw table |
| Upsert.GateAppend | FD_Wine/Tasks/bronze_silver.py:85-100 | the gate decides row by row: gating a concatenation gives the gated parts in order, so the order and the multiplicity of the passing rows are those of the raw table |
| Upsert.GateLast | FD_Wine/Tasks/bronze_silver.py:85-100 | one more raw row adds its converted form at the end when it passes and nothing when it is rejected |
| Upsert.GateKeepsAll | FD_Wine/Tasks/bronze_silver.py:85-100 | the gated source is as long as the raw table iff every raw row passes |
| Upsert.KeyedRowsSpec | FD_Wine/Tasks/bronze_silver.py:101 | indexing source rows by their non-NULL key covers exactly the keys that occur, and each keyed row is found under its own key when keys are distinct |
| Upsert.UnkeyedRowsSpec | FD_Wine/Tasks/bronze_silver.py:101 | the NULL-keyed part of a source holds only rows with a NULL key and every such row, and is empty exactly when every row is keyed |
| Upsert.UnkeyedRowsAppend | FD_Wine/Tasks/bronze_silver.py:101 | the NULL-keyed rows of a concatenation are those of each part, in order |
| Upsert.UnkeyedOfGate | FD_Wine/Tasks/bronze_silver.py:85-101 | the NULL-keyed rows of the gated source are the raw rows that pass with a NULL key, in raw order, once per such raw row |
| Upsert.FromRowsWellKeyed | FD_Wine/Tasks/bronze_silver.py:101 | a source with distinct keys, seen as a table, has every row under its own key |
| Upsert.MergeFromRows | FD_Wine/Tasks/bronze_silver.py:101-118 | MERGE of a source with distinct keys: keys are target's plus source's (nothing deleted); a source row is what its key holds afterwards (matched or inserted); unmatched target rows unchanged; NULL-keyed source rows appended |
| Upsert.MergeWellKeyed | FD_Wine/Tasks/bronze_silver.py:101-118 | MERGE keeps every row under its own key |
| Upsert.MergeIdempotent | FD_Wine/Tasks/bronze_silver.py:84-118 | re-running a MERGE whose source has no NULL keys changes nothing |
| Upsert.MergeAgainAppendsUnkeyed | FD_Wine/Tasks/bronze_silver.py:101 | a second run keeps the keyed part and appends the NULL-keyed source rows once more, so it changes the table whenever there are any |
| Upsert.RerunConverges | FD_Wine/Tasks/bronze_silver.py:84-118 | any number n >= 1 of runs of the same MERGE over an unchanged source without NULL keys gives the table one run gives |
| Upsert.RepeatedUnkeyedGrows | FD_Wine/Tasks/bronze_silver.py:101 | n >= 1 runs leave the keyed part one run leaves, and the target's NULL-keyed rows followed by n copies of the source's NULL-keyed rows |
| Upsert.MergeSequential | FD_Wine/Tasks/bronze_silver.py:84-118 | MERGE is associative: merging two sources in turn equals one merge of their right-biased combination, the second source winning on a shared key (an algebraic law; every run's source is the whole bronze table) |
| Upsert.MergeGatedKeys | FD_Wine/Tasks/bronze_silver.py:84-118 | after the gated MERGE, a key is present iff it was before or an accepted raw row carries it |
| Upsert.MergeGatedAt | FD_Wine/Tasks/bronze_silver.py:101-118 | an accepted raw row with a key is, converted, the row under that key afterwards |
| Upsert.MergeGatedUntouched | FD_Wine/Tasks/bronze_silver.py:84-118 | a target row whose key no accepted raw row carries is unchanged |
| Upsert.MergeGatedUnkeyed | FD_Wine/Tasks/bronze_silver.py:101 | the NULL-keyed target rows are kept as a prefix; behind them comes exactly the gate restricted to accepted rows with a NULL key (converted, in raw order, once per raw row); nothing follows iff every accepted row has a key |
| Upsert.MergeGatedUnkeyedMembers | FD_Wine/Tasks/bronze_silver.py:101 | a row is among those appended iff some accepted raw row with a NULL key converts to it |
| Upsert.MergeGatedIdempotent | FD_Wine/Tasks/bronze_silver.py:84-118 | running the gated MERGE twice equals once iff every accepted row has a key |
| Upsert.ProjectWellKeyed | FD_Wine/Tasks/gold.py:71-79 | a projection that copies the key column keeps every row under its own key |
| Upsert.MergeProjection | FD_Wine/Tasks/gold.py:69-88 | MERGE of a projection: every silver key holds the projection of its silver row whatever the target held; target rows silver lacks unchanged; NULL-keyed silver rows projected and appended |
| Tasks.RegisterSpec | FD_Wine/Tasks/bronze_silver.py:54 | CREATE OR REPLACE: the name is added and holds exactly the new definition; every other name keeps its own |
| Tasks.ReRegistrationReplaces | FD_Wine/Tasks/bronze_silver.py:80 | registering twice under one name leaves one definition, the latest |
| Tasks.ReRegistrationIdempotent | FD_Wine/Tasks/bronze_silver.py:80 | registering the same definition again changes nothing |
| Tasks.RegisterAllAppend | FD_Wine/Tasks/app.py:67-77 | issuing two lists of registrations one after the other is the same as issuing their concatenation |
| Tasks.CreatedNamesAppend | FD_Wine/Tasks/app.py:67-77 | the names a concatenation of two lists creates are those of the one list together with those of the other |
| Tasks.RegisterAllSpec | FD_Wine/Tasks/app.py:67-77 | a list of registrations adds exactly its names, and with distinct names each task holds its own definition |
| Tasks.RegisterAllFrame | FD_Wine/Tasks/app.py:67-77 | a registered task that no statement of the list names keeps its definition |
| Tasks.QualifyInjective | FD_Wine/Tasks/bronze_silver.py:54 | within one database and schema, qualified names are equal iff the bare names are |
| Tasks.Session.CreateOrReplaceTask | FD_Wine/Tasks/bronze_silver.py:52-60 | the registry entry is replaced, the task becomes suspended, the statement is logged |
| Tasks.Session.ResumeTask | FD_Wine/Tasks/app.py:42 | RESUME succeeds iff the task is registered; then it is started and logged, otherwise nothing changes |
| WineBronzeSilver.Clean | FD_Wine/Tasks/bronze_silver.py:88-99 | a bronze row passes iff its eleven measurements are all non-NULL, and it then reaches silver with all thirteen column values |
| WineBronzeSilver.CleanWiden | FD_Wine/Tasks/bronze_silver.py:88-99 | every silver row passes the gate and converts back to itself |
| WineBronzeSilver.GateIgnoresIdAndQuality | FD_Wine/Tasks/bronze_silver.py:88-99 | ID and QUALITY do not affect the gate |
| WineBronzeSilver.GateRejectsMissingMeasurement | FD_Wine/Tasks/bronze_silver.py:88-99 | a row missing any one of the eleven measurements is rejected |
| WineBronzeSilver.AcceptsIff | FD_Wine/Tasks/bronze_silver.py:88-101 | the gate's accepted keys are exactly the IDs of the measured bronze rows |
| WineBronzeSilver.CleanUpsertKeys | FD_Wine/Tasks/bronze_silver.py:84-118 | an ID is in silver afterwards iff it was before or a measured bronze row has it |
| WineBronzeSilver.CleanUpsertOverwrites | FD_Wine/Tasks/bronze_silver.py:101-118 | a measured bronze row with ID k is, all thirteen columns, the silver row under k afterwards, matched or inserted |
| WineBronzeSilver.CleanUpsertUntouched | FD_Wine/Tasks/bronze_silver.py:84-118 | a silver row whose ID no measured bronze row carries is unchanged |
| WineBronzeSilver.CleanUpsertNullIds | FD_Wine/Tasks/bronze_silver.py:101-118 | NULL-ID silver rows are kept; behind them come the measured NULL-ID bronze rows, all thirteen columns, in bronze order, once each; silver gains none iff every measured row has an ID |
| WineBronzeSilver.CleanUpsertNullIdRows | FD_Wine/Tasks/bronze_silver.py:101-118 | a row is among those appended iff some measured bronze row with a NULL ID converts to it |
| WineBronzeSilver.CleanUpsertIdempotent | FD_Wine/Tasks/bronze_silver.py:84-118 | running the silver task twice equals once iff every measured bronze row has an ID |
| WineBronzeSilver.CleanUpsertWellKeyed | FD_Wine/Tasks/bronze_silver.py:84-118 | the merge keeps silver rows under their own IDs |
| WineBronzeSilver.CreateBronzeSilver.CreateStageBronzeRaw | FD_Wine/Tasks/bronze_silver.py:39-60 | registers `db.schema.LOAD_FD_WINE_STAGE_INTO_BRONZE_RAW` on the given warehouse and schedule, refreshing `pipeName` (default FD_WINE_DATA_PIPE); suspended; logged |
| WineBronzeSilver.CreateBronzeSilver.CreateBronzeRawSilverClean | FD_Wine/Tasks/bronze_silver.py:62-120 | registers `db.schema.LOAD_FD_WINE_BRONZE_RAW_INTO_SILVER_CLEAN` after `db.schema.after` (default the stage task), merging the qualified bronze table into the qualified silver table |
| WineGold.Mean | FD_Wine/Tasks/gold.py:75 | the average is half the sum and lies between the two measurements |
| WineGold.Acid | FD_Wine/Tasks/gold.py:71-77 | the acidity row copies ID and both acidities, SUM is their sum, AVG * 2 == SUM |
| WineGold.Dioxide | FD_Wine/Tasks/gold.py:120-126 | the dioxide row copies ID and both dioxides, SUM is their sum, AVG * 2 == SUM |
| WineGold.Other | FD_Wine/Tasks/gold.py:169-178 | the other-features row copies ID and the seven remaining measurements unchanged, deriving nothing |
| WineGold.ProjectionsCoverSilver | FD_Wine/Tasks/gold.py:169-178 | the three projections together determine the silver row but for QUALITY: every other column lands in a gold table and none is invented |
| WineGold.MergeAcidSpec | FD_Wine/Tasks/gold.py:69-88 | acidity merge: keys are the union, silver IDs hold Acid(silver row), other rows unchanged; behind the table's NULL-ID rows come the projections of silver's NULL-ID rows, in silver's order |
| WineGold.MergeDioxideSpec | FD_Wine/Tasks/gold.py:118-137 | dioxide merge: keys are the union, silver IDs hold Dioxide(silver row), other rows unchanged; behind the table's NULL-ID rows come the projections of silver's NULL-ID rows, in silver's order |
| WineGold.MergeOtherSpec | FD_Wine/Tasks/gold.py:167-192 | other-features merge: keys are the union, silver IDs hold Other(silver row), other rows unchanged; behind the table's NULL-ID rows come the projections of silver's NULL-ID rows, in silver's order |
| WineGold.GoldWellKeyed | FD_Wine/Tasks/gold.py:69-192 | each gold merge keeps its table's rows under their own IDs |
| WineGold.GoldIdempotent | FD_Wine/Tasks/gold.py:69-192 | each gold merge run twice equals once iff silver has no NULL-ID row |
| WineGold.GoldTaskNamesDistinct | FD_Wine/Tasks/gold.py:65-163 | the three gold tasks have distinct qualified names |
| WineGold.CreateGold.CreateAcid | FD_Wine/Tasks/gold.py:43-90 | registers `..._GOLD_ACID` after `db.schema.after` (default the silver task), merging acidity features of silver into the gold table |
| WineGold.CreateGold.CreateDioxide | FD_Wine/Tasks/gold.py:92-139 | registers `..._GOLD_DIOXIDE` the same way with the dioxide rule |
| WineGold.CreateGold.CreateOtherFeatures | FD_Wine/Tasks/gold.py:141-194 | registers `..._GOLD_OTHER` the same way with the other-features rule |
| WineApp.ReversedTwice | FD_Wine/Tasks/app.py:41 | reversing twice gives the list back |
| WineApp.ReversedMultiset | FD_Wine/Tasks/app.py:41 | reversing keeps every element, as often as it occurs |
| WineApp.ReversedMember | FD_Wine/Tasks/app.py:41 | an element is in the reversed list iff it is in the list |
| WineApp.ResumeEach | FD_Wine/Tasks/app.py:41-42 | for any order of names: succeeds iff every name is registered; then logs one RESUME per name in that order and starts exactly those names; on failure it stops at the first unregistered name, having logged and started exactly the names before it; registry unchanged |
| WineApp.ResumesStep | FD_Wine/Tasks/app.py:41-42 | one more RESUME extends the log by that statement and the started names by that task |
| WineApp.AlterTasks | FD_Wine/Tasks/app.py:20-42 | succeeds iff all five tasks are registered; then logs RESUMEs in reverse list order and starts exactly those five; on failure it stops at the first unregistered task of the reversed list, having logged and started exactly the tasks before it; registry unchanged |
| WineApp.CreateBronzeSilverTasks | FD_Wine/Tasks/app.py:66-71 | the stage and silver tasks are created in that order and logged; the registry is the old one with these two registrations applied; both tasks are suspended |
| WineApp.CreateGoldTasks | FD_Wine/Tasks/app.py:73-77 | the acid, dioxide and other gold tasks are created in that order and logged; the registry is the old one with these three registrations applied; the three tasks are suspended |
| WineApp.CreateChain | FD_Wine/Tasks/app.py:66-77 | the five creations, logged in order; the registry is the old one with the five registrations applied; the five tasks are suspended |
| WineApp.MainHandler | FD_Wine/Tasks/app.py:44-82 | returns the success string after logging the five CREATEs then the five RESUMEs; the registry is the old one with the five registrations applied: each task holds the definition main gave it, every other registered task keeps its own, exactly the five names are added and started |
| WineApp.RegistrationsLand | FD_Wine/Tasks/app.py:67-77 | after the five creations each qualified name holds its definition, exactly those five names are added, and every other registered task keeps its definition |
| WineApp.NamesDistinct | FD_Wine/Tasks/app.py:34-40 | the five qualified task names are distinct |
| WineApp.LogShape | FD_Wine/Tasks/app.py:67-80 | the log creates the tasks in list order, then resumes task n-1-i at position n+i |
| WineApp.CreationTopological | FD_Wine/Tasks/app.py:67-77 | every task created AFTER a predecessor is created after that predecessor |
| WineApp.ResumesOnlyChain | FD_Wine/Tasks/app.py:34-42 | only the five tasks are resumed |
| WineApp.ResumesWholeChain | FD_Wine/Tasks/app.py:34-42 | every one of the five tasks is resumed |
| WineApp.ResumedOnce | FD_Wine/Tasks/app.py:34-42 | no task is resumed twice |
| WineApp.ResumedAfterCreated | FD_Wine/Tasks/app.py:67-80 | every resumed task was created earlier in the log |
| WineApp.Predecessors | FD_Wine/Tasks/app.py:67-77 | the stage task runs on a schedule (no predecessor), the silver task runs AFTER the stage task and each gold task AFTER the silver task, each stated outright |
| WineApp.ResumeIndex | FD_Wine/Tasks/app.py:41-42 | the RESUME naming the k-th task of the list sits at the mirror position of its CREATE |
| WineApp.ConsumersResumedFirst | FD_Wine/Tasks/app.py:41-42 | a task that runs after a predecessor is resumed before that predecessor |
| WineApp.SilverFeedsGold | FD_Wine/Tasks/app.py:61-77 | each gold task reads the table the silver task writes and runs after the silver task |
| SalesBronzeSilver.Clean | FD_Sales/Tasks/bronze_silver.py:87-94 | a bronze row passes iff all seven columns are non-NULL, and then reaches silver with all its values |
| SalesBronzeSilver.CleanWiden | FD_Sales/Tasks/bronze_silver.py:87-94 | every silver row passes the gate and converts back to itself |
| SalesBronzeSilver.GateRejectsMissingColumn | FD_Sales/Tasks/bronze_silver.py:87-94 | a row missing any column, the key included, is rejected |
| SalesBronzeSilver.AcceptsIff | FD_Sales/Tasks/bronze_silver.py:87-96 | the gate's accepted keys are exactly the IDs of the complete bronze rows |
| SalesBronzeSilver.UpdateSet | FD_Sales/Tasks/bronze_silver.py:97-103 | UPDATE SET leaves the target's TRANSACTION_ID and takes the six other columns from the source |
| SalesBronzeSilver.MatchedUpdateIsReplacement | FD_Sales/Tasks/bronze_silver.py:96-106 | on a match the updated row equals the source row, the row the INSERT would write |
| SalesBronzeSilver.CleanUpsertKeys | FD_Sales/Tasks/bronze_silver.py:83-106 | a transaction is in silver afterwards iff it was before or a complete bronze row has its ID |
| SalesBronzeSilver.CleanUpsertOverwrites | FD_Sales/Tasks/bronze_silver.py:96-106 | a complete bronze row is, all seven columns, the silver row under its ID afterwards |
| SalesBronzeSilver.CleanUpsertUntouched | FD_Sales/Tasks/bronze_silver.py:83-106 | a silver row whose ID no complete bronze row carries is unchanged |
| SalesBronzeSilver.CleanUpsertNoUnkeyed | FD_Sales/Tasks/bronze_silver.py:88 | no row without a key is ever added to silver |
| SalesBronzeSilver.CleanUpsertIdempotent | FD_Sales/Tasks/bronze_silver.py:83-106 | running the silver task twice equals once |
| SalesBronzeSilver.CleanUpsertWellKeyed | FD_Sales/Tasks/bronze_silver.py:83-106 | afterwards silver holds one row per ID, under its own ID, and no row without one |
| SalesBronzeSilver.CreateBronzeSilver.CreateStageBronzeRaw | FD_Sales/Tasks/bronze_silver.py:39-60 | registers `db.schema.LOAD_FD_SALES_STAGE_INTO_BRONZE_RAW` with the given schedule, refreshing `pipeName` (default FD_SALES_DATA_PIPE) |
| SalesBronzeSilver.CreateBronzeSilver.CreateBronzeRawSilverClean | FD_Sales/Tasks/bronze_silver.py:62-108 | registers `db.schema.LOAD_FD_SALES_BRONZE_RAW_INTO_SILVER_CLEAN` after `db.schema.after` (default the stage task), merging bronze into silver through the gate |
| SalesGold.DiscountedAmount | FD_Sales/Tasks/gold.py:77-80 | never above the total; equal to it iff the sale is not high-value; above 45.00 for high-value sales; non-negative for non-negative totals |
| SalesGold.Features | FD_Sales/Tasks/gold.py:86-89 | the inserted row copies the seven silver columns, with the discounted amount and the flag of the CASE rules |
| SalesGold.GoldUpdateSet | FD_Sales/Tasks/gold.py:70-84 | UPDATE SET keeps the key, copies the six other silver columns, and derives both columns by the same rules |
| SalesGold.MatchedUpdateIsInsert | FD_Sales/Tasks/gold.py:70-89 | on a match the updated row equals the inserted row, so a gold row depends only on its silver row |
| SalesGold.FlagMatchesDiscount | FD_Sales/Tasks/gold.py:77-84 | a sale is flagged high-value iff its amount was discounted |
| SalesGold.ThresholdIsStrict | FD_Sales/Tasks/gold.py:78-82 | a total of exactly 50.00 is neither flagged nor discounted; any larger total is flagged and multiplied by 0.9 |
| SalesGold.WorkedExamples | FD_Sales/Tasks/gold.py:77-84 | totals 80.00, 40.00 and 50.00 give 72.00/true, 40.00/false and 50.00/false |
| SalesGold.MergeGoldSpec | FD_Sales/Tasks/gold.py:65-89 | every silver row reaches gold as Features(row), its base columns unchanged, whatever gold held; gold rows silver lacks unchanged; nothing deleted |
| SalesGold.MergeGoldWellKeyed | FD_Sales/Tasks/gold.py:65-89 | the merge keeps gold rows under their own TRANSACTION_ID |
| SalesGold.MergeGoldIdempotent | FD_Sales/Tasks/gold.py:65-89 | with silver keyed on TRANSACTION_ID, running the gold task twice equals once |
| SalesGold.ChainIdempotent | FD_Sales/Tasks/gold.py:65-89 | a second pass of silver and gold over the same bronze table changes neither |
| SalesGold.GoldPredecessorUnqualified | FD_Sales/Tasks/gold.py:61-63 | with the default, the gold task's AFTER is the bare silver task name, different from the qualified name that task is registered under |
| SalesGold.CreateGold.CreateGoldTask | FD_Sales/Tasks/gold.py:39-91 | registers `db.schema.LOAD_FD_SALES_SILVER_CLEAN_INTO_GOLD` after the unqualified `after` (default the silver task's name), merging enriched silver into gold |
| WineWarehouse.WineTables.RefreshPipe | FD_Wine/Tasks/bronze_silver.py:58 | the staged rows are appended to bronze; no other table changes |
| WineWarehouse.WineTables.RunSilverClean | FD_Wine/Tasks/bronze_silver.py:84-118 | silver becomes CleanUpsert(silver, bronze); bronze and the gold tables unchanged |
| WineWarehouse.WineTables.RunGoldAcid | FD_Wine/Tasks/gold.py:69-88 | the acidity table becomes MergeAcid(acid, silver); silver and the other tables unchanged |
| WineWarehouse.WineTables.RunGoldDioxide | FD_Wine/Tasks/gold.py:118-137 | the dioxide table becomes MergeDioxide(dioxide, silver); silver and the other tables unchanged |
| WineWarehouse.WineTables.RunGoldOther | FD_Wine/Tasks/gold.py:167-192 | the other-features table becomes MergeOther(other, silver); silver and the other tables unchanged |
| WineWarehouse.WineTables.RunChain | FD_Wine/Tasks/gold.py:67-178 | one pass of silver then the three gold tasks, each gold table merged from the silver table just produced |
| SalesWarehouse.SalesTables.RefreshPipe | FD_Sales/Tasks/bronze_silver.py:58 | the staged rows are appended to bronze; silver and gold unchanged |
| SalesWarehouse.SalesTables.RunSilverClean | FD_Sales/Tasks/bronze_silver.py:83-106 | silver becomes CleanUpsert(silver, bronze); bronze and gold unchanged |
| SalesWarehouse.SalesTables.RunGold | FD_Sales/Tasks/gold.py:65-89 | gold becomes MergeGold(gold, silver); bronze and silver unchanged |
| SalesWarehouse.SalesTables.RunChain | FD_Sales/Tasks/gold.py:61-89 | one pass of silver then gold over the new silver; a second pass would change neither |

## Left out

- The Snowpark session, `.collect()` and the `__main__` blocks with their login and argument handling. They are foreign library code and I/O. The session is modelled only as the registry and log of `Tasks.Session`.
- Gate: its own contract states membership in both directions and the length bound only; the order and the multiplicity of the rows that pass are stated by `Upsert.GateAppend` and `Upsert.GateLast`.
- Rendering the SQL text. The model states what each statement means, not how its string is built.
- What `ALTER PIPE ... REFRESH` loads. `RefreshPipe` appends an arbitrary sequence of staged rows.
- When the scheduler fires tasks, and how a schedule string is read. The warehouse engine owns both. The chain's runs are modelled as direct calls (`RunChain`).
- Floating point. The averages and the 10% discount are exact `real` arithmetic. Rounding to the column's declared scale is not modelled.
- Merging a source in which several rows share a non-NULL key. Under Snowflake's default (ERROR_ON_NONDETERMINISTIC_MERGE = TRUE), a target row matched by several source rows makes the MERGE fail, and a new key carried by several source rows is inserted once per copy. Neither outcome is modelled, so every merge requires distinct keys in the gated source.
- Identifier resolution. Task, table and schema names are compared as exact strings. Snowflake's folding of unquoted identifiers to upper case is not modelled, so `Tasks.RegisterSpec` and `Tasks.QualifyInjective` treat names that differ only in case as different tasks. Snowflake's resolution of an unqualified AFTER, such as the SALES gold task's default, against the session's current database and schema is not modelled either: `SalesGold.GoldPredecessorUnqualified` states only that the two strings differ. The WINE entry point writes every name in upper case and fully qualified.
- A CREATE OR REPLACE TASK with an AFTER on a task that does not exist, or that the warehouse otherwise refuses. The registry accepts every definition.
- A RESUME of a task whose predecessor is suspended. The model records the RESUME only.
- Concurrency, and the atomicity of MERGE and of racing CREATE OR REPLACE statements. Both belong to the warehouse engine.
- `command_center_deploy.py`, `FD_Taxi/Tasks/refresh/app.py` and `email/Tasks/refresh/app.py` are not part of this model. They are deployment scripting and thin wrappers over stored procedures that are not shown.
- The SALES domain has no entry point among the modelled files. Its builders are modelled, but no registration order is.
- Column types. The MERGE statements name columns but declare no types, so the types are a modelling choice: IDs are integers (WINE) or strings (SALES), quantities are integers, everything else numeric is `real`. The silver and gold tables are assumed to have exactly the columns the MERGE statements name.
- NULLs already in silver. `SilverRow` makes the eleven WINE measurements non-NULL and `Sale` makes every SALES column non-NULL, as the gates guarantee for every row they insert. A silver row with a NULL measurement that existed before the first run cannot be represented.
- Redelivery of an already-loaded ID. A redelivered file goes through `RefreshPipe`, which appends to bronze; the silver MERGE reads all of bronze without deduplication, so a repeated ID puts two source rows on one key. Once that ID is in silver, every later silver run fails under Snowflake's default nondeterministic-MERGE error. `RunSilverClean` requires distinct IDs. `RerunConverges` covers only re-running over an unchanged source.
- Pre-existing NULL-keyed rows in SALES silver. `SalesGold.MergeGoldIdempotent` requires `Upsert.WellKeyed(silver, SalesKey)`, which excludes them. The silver task never adds such a row (`CleanUpsertNoUnkeyed`).
