/**
 * The WINE domain's gold layer: three tasks that each run after the silver task
 * and merge their own projection of the silver table into their own gold table
 * (acidity, dioxide, and the remaining columns).
 */
module WineGold {
  import opened Wrappers
  import Upsert
  import opened Tasks
  import opened WineBronzeSilver

  const AcidTaskName := "LOAD_FD_WINE_SILVER_CLEAN_INTO_GOLD_ACID"
  const DioxideTaskName := "LOAD_FD_WINE_SILVER_CLEAN_INTO_GOLD_DIOXIDE"
  const OtherTaskName := "LOAD_FD_WINE_SILVER_CLEAN_INTO_GOLD_OTHER"

  /** A row of the acidity table. */
  datatype AcidRow = AcidRow(id: Option<int>, fixedAcidity: real, volatileAcidity: real,
                             avgAcidity: real, sumAcidity: real)

  /** A row of the dioxide table. */
  datatype DioxideRow = DioxideRow(id: Option<int>, freeSulferDioxide: real, totalSulferDioxide: real,
                                   avgDioxide: real, sumDioxide: real)

  /** A row of the table of the other features. */
  datatype OtherRow = OtherRow(id: Option<int>, citricAcid: real, residualSugar: real, chlorides: real,
                               density: real, ph: real, sulphates: real, alcohol: real)

  type AcidTable = Upsert.Table<int, AcidRow>
  type DioxideTable = Upsert.Table<int, DioxideRow>
  type OtherTable = Upsert.Table<int, OtherRow>

  function AcidKey(a: AcidRow): Option<int> { a.id }
  function DioxideKey(d: DioxideRow): Option<int> { d.id }
  function OtherKey(o: OtherRow): Option<int> { o.id }

  /** The mean of two measurements, as `(a + b)/2` in exact arithmetic. */
  function Mean(a: real, b: real): (m: real)
    ensures m * 2.0 == a + b
    ensures (if a <= b then a else b) <= m <= (if a <= b then b else a)
  {
    (a + b) / 2.0
  }

  /** The acidity projection of a silver row. */
  function Acid(s: SilverRow): (a: AcidRow)
    ensures a.id == s.id
    ensures a.fixedAcidity == s.fixedAcidity && a.volatileAcidity == s.volatileAcidity
    ensures a.sumAcidity == s.fixedAcidity + s.volatileAcidity
    ensures a.avgAcidity * 2.0 == a.sumAcidity
  {
    AcidRow(s.id, s.fixedAcidity, s.volatileAcidity,
            Mean(s.fixedAcidity, s.volatileAcidity), s.fixedAcidity + s.volatileAcidity)
  }

  /** The dioxide projection of a silver row. */
  function Dioxide(s: SilverRow): (d: DioxideRow)
    ensures d.id == s.id
    ensures d.freeSulferDioxide == s.freeSulferDioxide && d.totalSulferDioxide == s.totalSulferDioxide
    ensures d.sumDioxide == s.freeSulferDioxide + s.totalSulferDioxide
    ensures d.avgDioxide * 2.0 == d.sumDioxide
  {
    DioxideRow(s.id, s.freeSulferDioxide, s.totalSulferDioxide,
               Mean(s.freeSulferDioxide, s.totalSulferDioxide), s.freeSulferDioxide + s.totalSulferDioxide)
  }

  /** The projection of the other seven columns: no derived value. */
  function Other(s: SilverRow): (o: OtherRow)
    ensures o.id == s.id
    ensures o.citricAcid == s.citricAcid && o.residualSugar == s.residualSugar && o.chlorides == s.chlorides
    ensures o.density == s.density && o.ph == s.ph && o.sulphates == s.sulphates && o.alcohol == s.alcohol
  {
    OtherRow(s.id, s.citricAcid, s.residualSugar, s.chlorides, s.density, s.ph, s.sulphates, s.alcohol)
  }

  /** The three projections together determine every silver column but QUALITY, which
      no gold table selects: ID is copied into all three, every measurement into exactly
      one, and none of the gold tables invents a base column. */
  lemma ProjectionsCoverSilver(s: SilverRow, t: SilverRow)
    requires Acid(s) == Acid(t) && Dioxide(s) == Dioxide(t) && Other(s) == Other(t)
    ensures s.(quality := t.quality) == t
  {
  }

  /** The body of LOAD_FD_WINE_SILVER_CLEAN_INTO_GOLD_ACID. */
  function MergeAcid(acid: AcidTable, silver: SilverTable): AcidTable
  {
    Upsert.Merge(acid, Upsert.Project(silver, Acid))
  }

  /** The body of LOAD_FD_WINE_SILVER_CLEAN_INTO_GOLD_DIOXIDE. */
  function MergeDioxide(dioxide: DioxideTable, silver: SilverTable): DioxideTable
  {
    Upsert.Merge(dioxide, Upsert.Project(silver, Dioxide))
  }

  /** The body of LOAD_FD_WINE_SILVER_CLEAN_INTO_GOLD_OTHER. */
  function MergeOther(other: OtherTable, silver: SilverTable): OtherTable
  {
    Upsert.Merge(other, Upsert.Project(silver, Other))
  }

  /** After the acidity merge every silver ID is in the acidity table, holding the
      acidity projection of its silver row whatever the table held before; rows
      whose ID silver lacks are unchanged; the projection of every NULL-ID silver
      row, in silver's order, is appended behind the table's own NULL-ID rows. */
  lemma MergeAcidSpec(acid: AcidTable, silver: SilverTable)
    ensures MergeAcid(acid, silver).keyed.Keys == acid.keyed.Keys + silver.keyed.Keys
    ensures forall k :: k in silver.keyed ==> MergeAcid(acid, silver).keyed[k] == Acid(silver.keyed[k])
    ensures forall k :: k in acid.keyed && k !in silver.keyed ==> MergeAcid(acid, silver).keyed[k] == acid.keyed[k]
    ensures MergeAcid(acid, silver).unkeyed == acid.unkeyed + Upsert.MapRows(silver.unkeyed, Acid)
  {
    Upsert.MergeProjection(acid, silver, Acid);
  }

  /** The same for the dioxide merge. */
  lemma MergeDioxideSpec(dioxide: DioxideTable, silver: SilverTable)
    ensures MergeDioxide(dioxide, silver).keyed.Keys == dioxide.keyed.Keys + silver.keyed.Keys
    ensures forall k :: k in silver.keyed ==> MergeDioxide(dioxide, silver).keyed[k] == Dioxide(silver.keyed[k])
    ensures forall k :: k in dioxide.keyed && k !in silver.keyed ==> MergeDioxide(dioxide, silver).keyed[k] == dioxide.keyed[k]
    ensures MergeDioxide(dioxide, silver).unkeyed == dioxide.unkeyed + Upsert.MapRows(silver.unkeyed, Dioxide)
  {
    Upsert.MergeProjection(dioxide, silver, Dioxide);
  }

  /** The same for the merge of the other features. */
  lemma MergeOtherSpec(other: OtherTable, silver: SilverTable)
    ensures MergeOther(other, silver).keyed.Keys == other.keyed.Keys + silver.keyed.Keys
    ensures forall k :: k in silver.keyed ==> MergeOther(other, silver).keyed[k] == Other(silver.keyed[k])
    ensures forall k :: k in other.keyed && k !in silver.keyed ==> MergeOther(other, silver).keyed[k] == other.keyed[k]
    ensures MergeOther(other, silver).unkeyed == other.unkeyed + Upsert.MapRows(silver.unkeyed, Other)
  {
    Upsert.MergeProjection(other, silver, Other);
  }

  /** Each gold merge keeps its table in agreement with the ID column. */
  lemma GoldWellKeyed(acid: AcidTable, dioxide: DioxideTable, other: OtherTable, silver: SilverTable)
    requires Upsert.WellKeyed(silver, SilverKey)
    requires Upsert.WellKeyed(acid, AcidKey) && Upsert.WellKeyed(dioxide, DioxideKey) && Upsert.WellKeyed(other, OtherKey)
    ensures Upsert.WellKeyed(MergeAcid(acid, silver), AcidKey)
    ensures Upsert.WellKeyed(MergeDioxide(dioxide, silver), DioxideKey)
    ensures Upsert.WellKeyed(MergeOther(other, silver), OtherKey)
  {
    Upsert.ProjectWellKeyed(silver, Acid, SilverKey, AcidKey);
    Upsert.MergeWellKeyed(acid, Upsert.Project(silver, Acid), AcidKey);
    Upsert.ProjectWellKeyed(silver, Dioxide, SilverKey, DioxideKey);
    Upsert.MergeWellKeyed(dioxide, Upsert.Project(silver, Dioxide), DioxideKey);
    Upsert.ProjectWellKeyed(silver, Other, SilverKey, OtherKey);
    Upsert.MergeWellKeyed(other, Upsert.Project(silver, Other), OtherKey);
  }

  /** Re-running a gold merge on the same silver table changes nothing exactly when
      silver holds no row with a NULL ID. */
  lemma GoldIdempotent(acid: AcidTable, dioxide: DioxideTable, other: OtherTable, silver: SilverTable)
    ensures MergeAcid(MergeAcid(acid, silver), silver) == MergeAcid(acid, silver) <==> silver.unkeyed == []
    ensures MergeDioxide(MergeDioxide(dioxide, silver), silver) == MergeDioxide(dioxide, silver) <==> silver.unkeyed == []
    ensures MergeOther(MergeOther(other, silver), silver) == MergeOther(other, silver) <==> silver.unkeyed == []
  {
    Upsert.MergeAgainAppendsUnkeyed(acid, Upsert.Project(silver, Acid));
    Upsert.MergeAgainAppendsUnkeyed(dioxide, Upsert.Project(silver, Dioxide));
    Upsert.MergeAgainAppendsUnkeyed(other, Upsert.Project(silver, Other));
  }

  // ---------------------------------------------------------------------------
  // Task registration

  /** A gold task: after `after` in the same schema, merge a projection of the
      silver table into the gold table. */
  function GoldTask(database: string, schema: string, warehouse: string,
                    goldTable: string, silverTable: string, after: string, rule: Rule): Task
  {
    Task(warehouse, After(Qualify(database, schema, after)),
      MergeInto(Qualify(database, schema, goldTable), Qualify(database, schema, silverTable), rule))
  }

  /** The three gold tasks have three different names. */
  lemma GoldTaskNamesDistinct(database: string, schema: string)
    ensures Qualify(database, schema, AcidTaskName) != Qualify(database, schema, DioxideTaskName)
    ensures Qualify(database, schema, AcidTaskName) != Qualify(database, schema, OtherTaskName)
    ensures Qualify(database, schema, DioxideTaskName) != Qualify(database, schema, OtherTaskName)
  {
    QualifyInjective(database, schema, AcidTaskName, DioxideTaskName);
    QualifyInjective(database, schema, AcidTaskName, OtherTaskName);
    QualifyInjective(database, schema, DioxideTaskName, OtherTaskName);
  }

  /** The builder of the three WINE gold tasks.  Each one writes a single registry
      entry; left at their default, all three name the silver task as predecessor,
      which fans the chain out. */
  class CreateGold {
    const session: Session
    const database: string
    const schema: string
    const warehouse: string

    constructor (session: Session, database: string, schema: string, warehouse: string)
      ensures this.session == session && this.database == database
      ensures this.schema == schema && this.warehouse == warehouse
    {
      this.session := session;
      this.database := database;
      this.schema := schema;
      this.warehouse := warehouse;
    }

    /** Registers LOAD_FD_WINE_SILVER_CLEAN_INTO_GOLD_ACID, merging the acidity
        projection of `silverTableName` into `goldTableName`. */
    method CreateAcid(goldTableName: string, silverTableName: string, after: string := SilverTaskName)
      requires session.Valid()
      modifies session
      ensures session.Valid()
      ensures session.tasks == Register(old(session.tasks), Qualify(database, schema, AcidTaskName),
        Task(warehouse, After(Qualify(database, schema, after)),
             MergeInto(Qualify(database, schema, goldTableName), Qualify(database, schema, silverTableName), WineAcidRule)))
      ensures session.started == old(session.started) - {Qualify(database, schema, AcidTaskName)}
      ensures session.log == old(session.log) + [Create(Qualify(database, schema, AcidTaskName),
        GoldTask(database, schema, warehouse, goldTableName, silverTableName, after, WineAcidRule))]
    {
      session.CreateOrReplaceTask(Qualify(database, schema, AcidTaskName),
        GoldTask(database, schema, warehouse, goldTableName, silverTableName, after, WineAcidRule));
    }

    /** Registers LOAD_FD_WINE_SILVER_CLEAN_INTO_GOLD_DIOXIDE, merging the dioxide
        projection of `silverTableName` into `goldTableName`. */
    method CreateDioxide(goldTableName: string, silverTableName: string, after: string := SilverTaskName)
      requires session.Valid()
      modifies session
      ensures session.Valid()
      ensures session.tasks == Register(old(session.tasks), Qualify(database, schema, DioxideTaskName),
        Task(warehouse, After(Qualify(database, schema, after)),
             MergeInto(Qualify(database, schema, goldTableName), Qualify(database, schema, silverTableName), WineDioxideRule)))
      ensures session.started == old(session.started) - {Qualify(database, schema, DioxideTaskName)}
      ensures session.log == old(session.log) + [Create(Qualify(database, schema, DioxideTaskName),
        GoldTask(database, schema, warehouse, goldTableName, silverTableName, after, WineDioxideRule))]
    {
      session.CreateOrReplaceTask(Qualify(database, schema, DioxideTaskName),
        GoldTask(database, schema, warehouse, goldTableName, silverTableName, after, WineDioxideRule));
    }

    /** Registers LOAD_FD_WINE_SILVER_CLEAN_INTO_GOLD_OTHER, merging the projection
        of the other seven columns of `silverTableName` into `goldTableName`. */
    method CreateOtherFeatures(goldTableName: string, silverTableName: string, after: string := SilverTaskName)
      requires session.Valid()
      modifies session
      ensures session.Valid()
      ensures session.tasks == Register(old(session.tasks), Qualify(database, schema, OtherTaskName),
        Task(warehouse, After(Qualify(database, schema, after)),
             MergeInto(Qualify(database, schema, goldTableName), Qualify(database, schema, silverTableName), WineOtherRule)))
      ensures session.started == old(session.started) - {Qualify(database, schema, OtherTaskName)}
      ensures session.log == old(session.log) + [Create(Qualify(database, schema, OtherTaskName),
        GoldTask(database, schema, warehouse, goldTableName, silverTableName, after, WineOtherRule))]
    {
      session.CreateOrReplaceTask(Qualify(database, schema, OtherTaskName),
        GoldTask(database, schema, warehouse, goldTableName, silverTableName, after, WineOtherRule));
    }
  }
}
