/**
 * The SALES domain's bronze and silver layers: the task that refreshes the
 * ingestion pipe, and the task that merges the bronze table into the silver
 * table on TRANSACTION_ID, keeping only rows with all seven columns present.
 */
module SalesBronzeSilver {
  import opened Wrappers
  import Upsert
  import opened Tasks

  const StageTaskName := "LOAD_FD_SALES_STAGE_INTO_BRONZE_RAW"
  const SilverTaskName := "LOAD_FD_SALES_BRONZE_RAW_INTO_SILVER_CLEAN"
  const DefaultPipe := "FD_SALES_DATA_PIPE"

  /** A row of the bronze table as ingested: every column may be NULL. */
  datatype SalesRecord = SalesRecord(
    transactionId: Option<string>,
    customerId: Option<string>,
    transactionDate: Option<string>,
    productId: Option<string>,
    quantity: Option<int>,
    price: Option<real>,
    totalAmount: Option<real>)

  /** A row of the silver table: every column present. */
  datatype Sale = Sale(
    transactionId: string,
    customerId: string,
    transactionDate: string,
    productId: string,
    quantity: int,
    price: real,
    totalAmount: real)

  type SilverTable = Upsert.Table<string, Sale>

  /** The WHERE clause of the merge's source: all seven columns are NOT NULL. */
  predicate Complete(r: SalesRecord)
  {
    && r.transactionId.Some? && r.customerId.Some? && r.transactionDate.Some?
    && r.productId.Some? && r.quantity.Some? && r.price.Some? && r.totalAmount.Some?
  }

  /** A silver row seen with nullable columns again, as the bronze schema has them. */
  function Widen(s: Sale): SalesRecord
  {
    SalesRecord(Some(s.transactionId), Some(s.customerId), Some(s.transactionDate),
      Some(s.productId), Some(s.quantity), Some(s.price), Some(s.totalAmount))
  }

  /** The quality gate: a bronze row passes exactly when it is complete, and then
      reaches silver with all seven of its column values. */
  function Clean(r: SalesRecord): (c: Option<Sale>)
    ensures c.Some? <==> Complete(r)
    ensures c.Some? ==> Widen(c.value) == r
  {
    if Complete(r) then
      Some(Sale(r.transactionId.value, r.customerId.value, r.transactionDate.value,
        r.productId.value, r.quantity.value, r.price.value, r.totalAmount.value))
    else None
  }

  /** The merge's ON column; it is never NULL in a silver row. */
  function SalesKey(s: Sale): Option<string>
  {
    Some(s.transactionId)
  }

  /** The source subquery `SELECT * FROM bronze WHERE <seven columns> IS NOT NULL`. */
  function Source(bronze: seq<SalesRecord>): seq<Sale>
  {
    Upsert.Gate(bronze, Clean)
  }

  /** The transaction IDs of the rows that pass the gate are distinct. */
  ghost predicate DistinctIds(bronze: seq<SalesRecord>)
  {
    Upsert.DistinctKeys(Source(bronze), SalesKey)
  }

  /** The `WHEN MATCHED THEN UPDATE SET` clause: the six non-key columns of the
      target row are taken from the source row; TRANSACTION_ID is not assigned. */
  function UpdateSet(target: Sale, source: Sale): (u: Sale)
    ensures u.transactionId == target.transactionId
    ensures u.(transactionId := source.transactionId) == source
  {
    source.(transactionId := target.transactionId)
  }

  /** On a match the keys agree, so the updated row is exactly the source row, the
      row the `WHEN NOT MATCHED` INSERT would have written: both branches store the
      source row under its TRANSACTION_ID, which is what CleanUpsert does. */
  lemma MatchedUpdateIsReplacement(target: Sale, source: Sale)
    requires SalesKey(target) == SalesKey(source)
    ensures UpdateSet(target, source) == source
  {
  }

  /** The body of LOAD_FD_SALES_BRONZE_RAW_INTO_SILVER_CLEAN. */
  function CleanUpsert(silver: SilverTable, bronze: seq<SalesRecord>): SilverTable
    requires DistinctIds(bronze)
  {
    Upsert.MergeGated(silver, bronze, Clean, SalesKey)
  }

  // ---------------------------------------------------------------------------
  // The gate

  /** Round trip the other way: every silver row is what the gate makes of its
      widened form. */
  lemma CleanWiden(s: Sale)
    ensures Complete(Widen(s)) && Clean(Widen(s)) == Some(s)
  {
  }

  /** A bronze row missing any one column, the key included, is rejected. */
  lemma GateRejectsMissingColumn(r: SalesRecord)
    requires || r.transactionId.None? || r.customerId.None? || r.transactionDate.None?
             || r.productId.None? || r.quantity.None? || r.price.None? || r.totalAmount.None?
    ensures Clean(r) == None
  {
  }

  /** Every row that passes the gate has a key. */
  lemma GatePassesOnlyKeyed(bronze: seq<SalesRecord>)
    ensures Upsert.AcceptsOnlyKeyed(bronze, Clean, SalesKey)
  {
  }

  lemma AcceptsIff(bronze: seq<SalesRecord>, k: string)
    ensures Upsert.Accepts(bronze, Clean, SalesKey, k) <==>
      exists i :: 0 <= i < |bronze| && Complete(bronze[i]) && bronze[i].transactionId == Some(k)
  {
    if exists i :: 0 <= i < |bronze| && Complete(bronze[i]) && bronze[i].transactionId == Some(k) {
      var i :| 0 <= i < |bronze| && Complete(bronze[i]) && bronze[i].transactionId == Some(k);
      assert Widen(Clean(bronze[i]).value) == bronze[i];
    }
  }

  // ---------------------------------------------------------------------------
  // The merge

  /** No deletion and quarantine: a transaction is in silver after the merge
      exactly when it was before or some complete bronze row carries its ID. */
  lemma CleanUpsertKeys(silver: SilverTable, bronze: seq<SalesRecord>, k: string)
    requires DistinctIds(bronze)
    ensures k in CleanUpsert(silver, bronze).keyed <==>
      k in silver.keyed || exists i :: 0 <= i < |bronze| && Complete(bronze[i]) && bronze[i].transactionId == Some(k)
  {
    Upsert.MergeGatedKeys(silver, bronze, Clean, SalesKey, k);
    AcceptsIff(bronze, k);
  }

  /** A complete bronze row is the silver row under its ID afterwards, all seven
      columns taken from it. */
  lemma CleanUpsertOverwrites(silver: SilverTable, bronze: seq<SalesRecord>, i: int)
    requires DistinctIds(bronze)
    requires 0 <= i < |bronze| && Complete(bronze[i])
    ensures bronze[i].transactionId.value in CleanUpsert(silver, bronze).keyed
    ensures Widen(CleanUpsert(silver, bronze).keyed[bronze[i].transactionId.value]) == bronze[i]
  {
    Upsert.MergeGatedAt(silver, bronze, Clean, SalesKey, i);
  }

  /** A silver row whose ID no complete bronze row carries is unchanged. */
  lemma CleanUpsertUntouched(silver: SilverTable, bronze: seq<SalesRecord>, k: string)
    requires DistinctIds(bronze)
    requires k in silver.keyed
    requires forall i :: 0 <= i < |bronze| && Complete(bronze[i]) ==> bronze[i].transactionId != Some(k)
    ensures k in CleanUpsert(silver, bronze).keyed
    ensures CleanUpsert(silver, bronze).keyed[k] == silver.keyed[k]
  {
    AcceptsIff(bronze, k);
    Upsert.MergeGatedUntouched(silver, bronze, Clean, SalesKey, k);
  }

  /** Since the gate demands TRANSACTION_ID, no row without a key is ever inserted. */
  lemma CleanUpsertNoUnkeyed(silver: SilverTable, bronze: seq<SalesRecord>)
    requires DistinctIds(bronze)
    ensures CleanUpsert(silver, bronze).unkeyed == silver.unkeyed
  {
    Upsert.MergeGatedUnkeyed(silver, bronze, Clean, SalesKey);
    GatePassesOnlyKeyed(bronze);
    var u := CleanUpsert(silver, bronze).unkeyed;
    assert u == u[..|silver.unkeyed|];
  }

  /** Running the silver task again on the same bronze table changes nothing. */
  lemma CleanUpsertIdempotent(silver: SilverTable, bronze: seq<SalesRecord>)
    requires DistinctIds(bronze)
    ensures CleanUpsert(CleanUpsert(silver, bronze), bronze) == CleanUpsert(silver, bronze)
  {
    Upsert.MergeGatedIdempotent(silver, bronze, Clean, SalesKey);
    GatePassesOnlyKeyed(bronze);
  }

  /** The merge keeps silver in agreement with its TRANSACTION_ID column. */
  lemma CleanUpsertWellKeyed(silver: SilverTable, bronze: seq<SalesRecord>)
    requires DistinctIds(bronze)
    requires Upsert.WellKeyed(silver, SalesKey)
    ensures Upsert.WellKeyed(CleanUpsert(silver, bronze), SalesKey)
    ensures CleanUpsert(silver, bronze).unkeyed == []
  {
    Upsert.FromRowsWellKeyed(Source(bronze), SalesKey);
    Upsert.MergeWellKeyed(silver, Upsert.FromRows(Source(bronze), SalesKey), SalesKey);
    CleanUpsertNoUnkeyed(silver, bronze);
    assert |silver.unkeyed| == 0 || SalesKey(silver.unkeyed[0]) == None;
  }

  // ---------------------------------------------------------------------------
  // Task registration

  /** LOAD_FD_SALES_BRONZE_RAW_INTO_SILVER_CLEAN: after `after` in the same schema,
      merge the gated bronze table into the silver table. */
  function SilverTask(database: string, schema: string, warehouse: string,
                      bronzeTable: string, silverTable: string, after: string): Task
  {
    Task(warehouse, After(Qualify(database, schema, after)),
      MergeInto(Qualify(database, schema, silverTable), Qualify(database, schema, bronzeTable), SalesCleanRule))
  }

  /** The builder of the SALES bronze and silver tasks, bound to one session,
      database, schema and warehouse. */
  class CreateBronzeSilver {
    const session: Session
    const database: string
    const schema: string
    const warehouse: string

    constructor (session: Session, database: string, schema: string, warehouse: string)
      ensures this.session == session && this.database == database
      ensures this.schema == schema && this.warehouse == warehouse
    {
      this.session := session;
      this.database := database;
      this.schema := schema;
      this.warehouse := warehouse;
    }

    /** Registers, replacing any earlier definition, the stage task: it runs on
        `schedule` and refreshes `pipeName`, by default FD_SALES_DATA_PIPE. */
    method CreateStageBronzeRaw(schedule: string, pipeName: string := DefaultPipe)
      requires session.Valid()
      modifies session
      ensures session.Valid()
      ensures session.tasks == Register(old(session.tasks), Qualify(database, schema, StageTaskName),
                                        Task(warehouse, Every(schedule), RefreshPipe(pipeName)))
      ensures session.started == old(session.started) - {Qualify(database, schema, StageTaskName)}
      ensures session.log == old(session.log) + [Create(Qualify(database, schema, StageTaskName),
                                                        StageTask(warehouse, schedule, pipeName))]
    {
      session.CreateOrReplaceTask(Qualify(database, schema, StageTaskName),
                                  StageTask(warehouse, schedule, pipeName));
    }

    /** Registers, replacing any earlier definition, the silver task: it runs after
        `after` (by default the stage task) and merges `bronzeTable` into
        `silverTable` through the quality gate. */
    method CreateBronzeRawSilverClean(bronzeTable: string, silverTable: string, after: string := StageTaskName)
      requires session.Valid()
      modifies session
      ensures session.Valid()
      ensures session.tasks == Register(old(session.tasks), Qualify(database, schema, SilverTaskName),
        Task(warehouse, After(Qualify(database, schema, after)),
             MergeInto(Qualify(database, schema, silverTable), Qualify(database, schema, bronzeTable), SalesCleanRule)))
      ensures session.started == old(session.started) - {Qualify(database, schema, SilverTaskName)}
      ensures session.log == old(session.log) + [Create(Qualify(database, schema, SilverTaskName),
        SilverTask(database, schema, warehouse, bronzeTable, silverTable, after))]
    {
      session.CreateOrReplaceTask(Qualify(database, schema, SilverTaskName),
                                  SilverTask(database, schema, warehouse, bronzeTable, silverTable, after));
    }
  }
}
