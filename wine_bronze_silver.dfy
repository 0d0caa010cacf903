/**
 * The WINE domain's bronze and silver layers: the task that refreshes the
 * ingestion pipe, and the task that merges the bronze table into the silver
 * table through a data-quality gate on the eleven measurement columns.
 */
module WineBronzeSilver {
  import opened Wrappers
  import Upsert
  import opened Tasks

  const StageTaskName := "LOAD_FD_WINE_STAGE_INTO_BRONZE_RAW"
  const SilverTaskName := "LOAD_FD_WINE_BRONZE_RAW_INTO_SILVER_CLEAN"
  const DefaultPipe := "FD_WINE_DATA_PIPE"

  /** A row of the bronze table as ingested: every column may be NULL. */
  datatype BronzeRow = BronzeRow(
    id: Option<int>,
    fixedAcidity: Option<real>,
    volatileAcidity: Option<real>,
    citricAcid: Option<real>,
    residualSugar: Option<real>,
    chlorides: Option<real>,
    freeSulferDioxide: Option<real>,
    totalSulferDioxide: Option<real>,
    density: Option<real>,
    ph: Option<real>,
    sulphates: Option<real>,
    alcohol: Option<real>,
    quality: Option<int>)

  /** A row of the silver table.  The eleven measurements are present; ID and
      QUALITY are not checked by the gate and may still be NULL. */
  datatype SilverRow = SilverRow(
    id: Option<int>,
    fixedAcidity: real,
    volatileAcidity: real,
    citricAcid: real,
    residualSugar: real,
    chlorides: real,
    freeSulferDioxide: real,
    totalSulferDioxide: real,
    density: real,
    ph: real,
    sulphates: real,
    alcohol: real,
    quality: Option<int>)

  type SilverTable = Upsert.Table<int, SilverRow>

  /** The WHERE clause of the merge's source: all eleven measurements are NOT NULL. */
  predicate Measured(r: BronzeRow)
  {
    && r.fixedAcidity.Some? && r.volatileAcidity.Some? && r.citricAcid.Some?
    && r.residualSugar.Some? && r.chlorides.Some? && r.freeSulferDioxide.Some?
    && r.totalSulferDioxide.Some? && r.density.Some? && r.ph.Some?
    && r.sulphates.Some? && r.alcohol.Some?
  }

  /** A silver row seen with nullable columns again, as the bronze schema has them. */
  function Widen(s: SilverRow): BronzeRow
  {
    BronzeRow(s.id, Some(s.fixedAcidity), Some(s.volatileAcidity), Some(s.citricAcid),
      Some(s.residualSugar), Some(s.chlorides), Some(s.freeSulferDioxide),
      Some(s.totalSulferDioxide), Some(s.density), Some(s.ph), Some(s.sulphates),
      Some(s.alcohol), s.quality)
  }

  /** The quality gate: a bronze row passes exactly when it is measured, and then
      reaches silver with all thirteen of its column values. */
  function Clean(r: BronzeRow): (c: Option<SilverRow>)
    ensures c.Some? <==> Measured(r)
    ensures c.Some? ==> Widen(c.value) == r
  {
    if Measured(r) then
      Some(SilverRow(r.id, r.fixedAcidity.value, r.volatileAcidity.value, r.citricAcid.value,
        r.residualSugar.value, r.chlorides.value, r.freeSulferDioxide.value,
        r.totalSulferDioxide.value, r.density.value, r.ph.value, r.sulphates.value,
        r.alcohol.value, r.quality))
    else None
  }

  /** The merge's ON column. */
  function SilverKey(s: SilverRow): Option<int>
  {
    s.id
  }

  /** The source subquery `SELECT * FROM bronze WHERE <eleven columns> IS NOT NULL`. */
  function Source(bronze: seq<BronzeRow>): seq<SilverRow>
  {
    Upsert.Gate(bronze, Clean)
  }

  /** The non-NULL IDs among the rows that pass the gate are distinct. */
  ghost predicate DistinctIds(bronze: seq<BronzeRow>)
  {
    Upsert.DistinctKeys(Source(bronze), SilverKey)
  }

  /** Every row that passes the gate has an ID. */
  ghost predicate PassingRowsHaveIds(bronze: seq<BronzeRow>)
  {
    forall i :: 0 <= i < |bronze| && Measured(bronze[i]) ==> bronze[i].id.Some?
  }

  /** The body of LOAD_FD_WINE_BRONZE_RAW_INTO_SILVER_CLEAN:
      MERGE INTO silver USING (gated bronze) ON ID, updating or inserting all
      thirteen columns. */
  function CleanUpsert(silver: SilverTable, bronze: seq<BronzeRow>): SilverTable
    requires DistinctIds(bronze)
  {
    Upsert.MergeGated(silver, bronze, Clean, SilverKey)
  }

  // ---------------------------------------------------------------------------
  // The gate

  /** Round trip the other way: every silver row is what the gate makes of its
      widened form. */
  lemma CleanWiden(s: SilverRow)
    ensures Measured(Widen(s)) && Clean(Widen(s)) == Some(s)
  {
  }

  /** The gate looks at the eleven measurements only: ID and QUALITY do not matter. */
  lemma GateIgnoresIdAndQuality(r: BronzeRow, id: Option<int>, quality: Option<int>)
    ensures Measured(r.(id := id, quality := quality)) == Measured(r)
  {
  }

  /** A bronze row missing any one measurement is rejected. */
  lemma GateRejectsMissingMeasurement(r: BronzeRow)
    requires r.fixedAcidity.None? || r.volatileAcidity.None? || r.citricAcid.None? || r.residualSugar.None?
          || r.chlorides.None? || r.freeSulferDioxide.None? || r.totalSulferDioxide.None?
          || r.density.None? || r.ph.None? || r.sulphates.None? || r.alcohol.None?
    ensures Clean(r) == None
  {
  }

  lemma AcceptsIff(bronze: seq<BronzeRow>, k: int)
    ensures Upsert.Accepts(bronze, Clean, SilverKey, k) <==>
      exists i :: 0 <= i < |bronze| && Measured(bronze[i]) && bronze[i].id == Some(k)
  {
    if exists i :: 0 <= i < |bronze| && Measured(bronze[i]) && bronze[i].id == Some(k) {
      var i :| 0 <= i < |bronze| && Measured(bronze[i]) && bronze[i].id == Some(k);
      assert Widen(Clean(bronze[i]).value) == bronze[i];
    }
  }

  // ---------------------------------------------------------------------------
  // The merge

  /** Quarantine and no deletion: an ID is in silver after the merge exactly when
      it was before or some measured bronze row carries it. */
  lemma CleanUpsertKeys(silver: SilverTable, bronze: seq<BronzeRow>, k: int)
    requires DistinctIds(bronze)
    ensures k in CleanUpsert(silver, bronze).keyed <==>
      k in silver.keyed || exists i :: 0 <= i < |bronze| && Measured(bronze[i]) && bronze[i].id == Some(k)
  {
    Upsert.MergeGatedKeys(silver, bronze, Clean, SilverKey, k);
    AcceptsIff(bronze, k);
  }

  /** A measured bronze row with ID k is the silver row under k afterwards, all
      thirteen columns taken from it, whether k matched an existing row or not. */
  lemma CleanUpsertOverwrites(silver: SilverTable, bronze: seq<BronzeRow>, i: int, k: int)
    requires DistinctIds(bronze)
    requires 0 <= i < |bronze| && Measured(bronze[i]) && bronze[i].id == Some(k)
    ensures k in CleanUpsert(silver, bronze).keyed
    ensures Widen(CleanUpsert(silver, bronze).keyed[k]) == bronze[i]
  {
    Upsert.MergeGatedAt(silver, bronze, Clean, SilverKey, i);
  }

  /** A silver row whose ID no measured bronze row carries is unchanged. */
  lemma CleanUpsertUntouched(silver: SilverTable, bronze: seq<BronzeRow>, k: int)
    requires DistinctIds(bronze)
    requires k in silver.keyed
    requires forall i :: 0 <= i < |bronze| && Measured(bronze[i]) ==> bronze[i].id != Some(k)
    ensures k in CleanUpsert(silver, bronze).keyed
    ensures CleanUpsert(silver, bronze).keyed[k] == silver.keyed[k]
  {
    AcceptsIff(bronze, k);
    Upsert.MergeGatedUntouched(silver, bronze, Clean, SilverKey, k);
  }

  /** Rows with a NULL ID never match: the silver rows with a NULL ID are kept, and
      behind them come the measured bronze rows with a NULL ID, inserted anew, all
      thirteen columns, in bronze order, one for each such bronze row. */
  lemma CleanUpsertNullIds(silver: SilverTable, bronze: seq<BronzeRow>)
    requires DistinctIds(bronze)
    ensures var u := CleanUpsert(silver, bronze).unkeyed;
      && u == silver.unkeyed + Upsert.Gate(bronze, Upsert.AcceptedUnkeyed(Clean, SilverKey))
      && (forall j :: |silver.unkeyed| <= j < |u| ==> u[j].id == None)
      && (|u| == |silver.unkeyed| <==> PassingRowsHaveIds(bronze))
  {
    Upsert.MergeGatedUnkeyed(silver, bronze, Clean, SilverKey);
    assert Upsert.AcceptsOnlyKeyed(bronze, Clean, SilverKey) <==> PassingRowsHaveIds(bronze);
  }

  /** The rows the silver merge appends are exactly the measured bronze rows with a
      NULL ID. */
  lemma CleanUpsertNullIdRows(silver: SilverTable, bronze: seq<BronzeRow>)
    requires DistinctIds(bronze)
    ensures var u := CleanUpsert(silver, bronze).unkeyed;
      && |silver.unkeyed| <= |u|
      && u[..|silver.unkeyed|] == silver.unkeyed
      && forall r :: r in u[|silver.unkeyed|..] <==>
           exists i :: 0 <= i < |bronze| && Clean(bronze[i]) == Some(r) && r.id == None
  {
    Upsert.MergeGatedUnkeyedMembers(silver, bronze, Clean, SilverKey);
  }

  /** Running the silver task again on the same bronze table leaves silver as one run
      left it exactly when every measured bronze row has an ID; a measured row with a
      NULL ID is inserted once more on every run. */
  lemma CleanUpsertIdempotent(silver: SilverTable, bronze: seq<BronzeRow>)
    requires DistinctIds(bronze)
    ensures CleanUpsert(CleanUpsert(silver, bronze), bronze) == CleanUpsert(silver, bronze)
      <==> PassingRowsHaveIds(bronze)
  {
    Upsert.MergeGatedIdempotent(silver, bronze, Clean, SilverKey);
    assert Upsert.AcceptsOnlyKeyed(bronze, Clean, SilverKey) <==> PassingRowsHaveIds(bronze);
  }

  /** The merge keeps silver in agreement with its ID column. */
  lemma CleanUpsertWellKeyed(silver: SilverTable, bronze: seq<BronzeRow>)
    requires DistinctIds(bronze)
    requires Upsert.WellKeyed(silver, SilverKey)
    ensures Upsert.WellKeyed(CleanUpsert(silver, bronze), SilverKey)
  {
    Upsert.FromRowsWellKeyed(Source(bronze), SilverKey);
    Upsert.MergeWellKeyed(silver, Upsert.FromRows(Source(bronze), SilverKey), SilverKey);
  }

  // ---------------------------------------------------------------------------
  // Task registration

  /** LOAD_FD_WINE_BRONZE_RAW_INTO_SILVER_CLEAN: after `after` in the same schema,
      merge the gated bronze table into the silver table. */
  function SilverTask(database: string, schema: string, warehouse: string,
                      bronzeTable: string, silverTable: string, after: string): Task
  {
    Task(warehouse, After(Qualify(database, schema, after)),
      MergeInto(Qualify(database, schema, silverTable), Qualify(database, schema, bronzeTable), WineCleanRule))
  }

  /** The builder of the WINE bronze and silver tasks, bound to one session,
      database, schema and warehouse. */
  class CreateBronzeSilver {
    const session: Session
    const database: string
    const schema: string
    const warehouse: string

    constructor (session: Session, database: string, schema: string, warehouse: string)
      ensures this.session == session && this.database == database
      ensures this.schema == schema && this.warehouse == warehouse
    {
      this.session := session;
      this.database := database;
      this.schema := schema;
      this.warehouse := warehouse;
    }

    /** Registers, replacing any earlier definition, the stage task: it runs on
        `schedule` and refreshes `pipeName`, by default FD_WINE_DATA_PIPE. */
    method CreateStageBronzeRaw(schedule: string, pipeName: string := DefaultPipe)
      requires session.Valid()
      modifies session
      ensures session.Valid()
      ensures session.tasks == Register(old(session.tasks), Qualify(database, schema, StageTaskName),
                                        Task(warehouse, Every(schedule), RefreshPipe(pipeName)))
      ensures session.started == old(session.started) - {Qualify(database, schema, StageTaskName)}
      ensures session.log == old(session.log) + [Create(Qualify(database, schema, StageTaskName),
                                                        StageTask(warehouse, schedule, pipeName))]
    {
      session.CreateOrReplaceTask(Qualify(database, schema, StageTaskName),
                                  StageTask(warehouse, schedule, pipeName));
    }

    /** Registers, replacing any earlier definition, the silver task: it runs after
        `after` (by default the stage task) and merges `bronzeTable` into
        `silverTable` through the quality gate. */
    method CreateBronzeRawSilverClean(bronzeTable: string, silverTable: string, after: string := StageTaskName)
      requires session.Valid()
      modifies session
      ensures session.Valid()
      ensures session.tasks == Register(old(session.tasks), Qualify(database, schema, SilverTaskName),
        Task(warehouse, After(Qualify(database, schema, after)),
             MergeInto(Qualify(database, schema, silverTable), Qualify(database, schema, bronzeTable), WineCleanRule)))
      ensures session.started == old(session.started) - {Qualify(database, schema, SilverTaskName)}
      ensures session.log == old(session.log) + [Create(Qualify(database, schema, SilverTaskName),
        SilverTask(database, schema, warehouse, bronzeTable, silverTable, after))]
    {
      session.CreateOrReplaceTask(Qualify(database, schema, SilverTaskName),
                                  SilverTask(database, schema, warehouse, bronzeTable, silverTable, after));
    }
  }
}
