/**
 * The SALES domain's gold layer: one task that runs after the silver task and
 * merges every silver sale, enriched with a discounted amount and a high-value
 * flag, into the gold table on TRANSACTION_ID.
 */
module SalesGold {
  import opened Wrappers
  import Upsert
  import opened Tasks
  import opened SalesBronzeSilver

  const GoldTaskName := "LOAD_FD_SALES_SILVER_CLEAN_INTO_GOLD"

  /** A sale is high-value when its total is strictly above 50.00. */
  const HighValueThreshold: real := 50.0
  /** High-value sales are discounted by ten percent. */
  const DiscountRate: real := 0.9

  /** A row of the gold table: the seven silver columns and two derived ones. */
  datatype SaleFeatures = SaleFeatures(
    transactionId: string,
    customerId: string,
    transactionDate: string,
    productId: string,
    quantity: int,
    price: real,
    totalAmount: real,
    discountedAmount: real,
    isHighValueCustomer: bool)

  type GoldTable = Upsert.Table<string, SaleFeatures>

  function GoldKey(f: SaleFeatures): Option<string>
  {
    Some(f.transactionId)
  }

  /** `CASE WHEN total_amount > 50.00 THEN true ELSE false END` */
  predicate IsHighValue(totalAmount: real)
  {
    totalAmount > HighValueThreshold
  }

  /** `CASE WHEN total_amount > 50.00 THEN total_amount * 0.9 ELSE total_amount END`:
      never more than the total, equal to it exactly for sales that are not
      high-value, and never below 45.00 for those that are. */
  function DiscountedAmount(totalAmount: real): (d: real)
    ensures d <= totalAmount
    ensures d == totalAmount <==> !IsHighValue(totalAmount)
    ensures IsHighValue(totalAmount) ==> d > HighValueThreshold * DiscountRate
    ensures 0.0 <= totalAmount ==> 0.0 <= d
  {
    if IsHighValue(totalAmount) then totalAmount * DiscountRate else totalAmount
  }

  /** The silver columns of a gold row. */
  function Base(f: SaleFeatures): Sale
  {
    Sale(f.transactionId, f.customerId, f.transactionDate, f.productId, f.quantity, f.price, f.totalAmount)
  }

  /** The `WHEN NOT MATCHED` INSERT: the silver row with its two derived columns.
      Dropping them again gives back the silver row. */
  function Features(s: Sale): (f: SaleFeatures)
    ensures Base(f) == s
    ensures f.discountedAmount == DiscountedAmount(s.totalAmount)
    ensures f.isHighValueCustomer <==> IsHighValue(s.totalAmount)
  {
    SaleFeatures(s.transactionId, s.customerId, s.transactionDate, s.productId, s.quantity,
      s.price, s.totalAmount, DiscountedAmount(s.totalAmount), IsHighValue(s.totalAmount))
  }

  /** The `WHEN MATCHED THEN UPDATE SET` clause: every column but TRANSACTION_ID is
      assigned from the source row, the two derived ones by the same CASE
      expressions as in the INSERT. */
  function GoldUpdateSet(target: SaleFeatures, source: Sale): (u: SaleFeatures)
    ensures u.transactionId == target.transactionId
    ensures Base(u) == source.(transactionId := target.transactionId)
    ensures u.discountedAmount == DiscountedAmount(source.totalAmount)
    ensures u.isHighValueCustomer <==> IsHighValue(source.totalAmount)
  {
    SaleFeatures(target.transactionId, source.customerId, source.transactionDate, source.productId,
      source.quantity, source.price, source.totalAmount,
      DiscountedAmount(source.totalAmount), IsHighValue(source.totalAmount))
  }

  /** On a match both branches of the MERGE write the same row, so a gold row depends
      only on its silver row and not on what gold held before. */
  lemma MatchedUpdateIsInsert(target: SaleFeatures, source: Sale)
    requires GoldKey(target) == SalesKey(source)
    ensures GoldUpdateSet(target, source) == Features(source)
  {
  }

  /** The body of LOAD_FD_SALES_SILVER_CLEAN_INTO_GOLD:
      MERGE INTO gold USING (SELECT * FROM silver) ON TRANSACTION_ID. */
  function MergeGold(gold: GoldTable, silver: SilverTable): GoldTable
  {
    Upsert.Merge(gold, Upsert.Project(silver, Features))
  }

  // ---------------------------------------------------------------------------
  // The derived columns

  /** The flag and the discount agree: a sale is flagged exactly when it was
      discounted. */
  lemma FlagMatchesDiscount(s: Sale)
    ensures Features(s).isHighValueCustomer <==> Features(s).discountedAmount != s.totalAmount
  {
  }

  /** The threshold is strict: a total of exactly 50.00 is neither flagged nor
      discounted, and any larger total is both. */
  lemma ThresholdIsStrict(s: Sale)
    ensures s.totalAmount == 50.0 ==> !Features(s).isHighValueCustomer && Features(s).discountedAmount == 50.0
    ensures s.totalAmount > 50.0 ==> Features(s).isHighValueCustomer && Features(s).discountedAmount == s.totalAmount * 0.9
  {
  }

  /** Three sales worked through: 80.00 becomes 72.00 and high-value, 40.00 and 50.00
      stay as they are and are not flagged. */
  lemma WorkedExamples(s: Sale)
    ensures s.totalAmount == 80.0 ==> Features(s).discountedAmount == 72.0 && Features(s).isHighValueCustomer
    ensures s.totalAmount == 40.0 ==> Features(s).discountedAmount == 40.0 && !Features(s).isHighValueCustomer
    ensures s.totalAmount == 50.0 ==> Features(s).discountedAmount == 50.0 && !Features(s).isHighValueCustomer
  {
  }

  // ---------------------------------------------------------------------------
  // The merge

  /** Every silver sale reaches gold as its enriched row, whatever gold held for its
      transaction before; gold rows of transactions silver lacks are unchanged;
      nothing is deleted. */
  lemma MergeGoldSpec(gold: GoldTable, silver: SilverTable)
    ensures MergeGold(gold, silver).keyed.Keys == gold.keyed.Keys + silver.keyed.Keys
    ensures forall k :: k in silver.keyed ==> MergeGold(gold, silver).keyed[k] == Features(silver.keyed[k])
    ensures forall k :: k in silver.keyed ==> Base(MergeGold(gold, silver).keyed[k]) == silver.keyed[k]
    ensures forall k :: k in gold.keyed && k !in silver.keyed ==> MergeGold(gold, silver).keyed[k] == gold.keyed[k]
    ensures MergeGold(gold, silver).unkeyed == gold.unkeyed + Upsert.MapRows(silver.unkeyed, Features)
  {
    Upsert.MergeProjection(gold, silver, Features);
  }

  /** The merge keeps gold in agreement with its TRANSACTION_ID column. */
  lemma MergeGoldWellKeyed(gold: GoldTable, silver: SilverTable)
    requires Upsert.WellKeyed(gold, GoldKey) && Upsert.WellKeyed(silver, SalesKey)
    ensures Upsert.WellKeyed(MergeGold(gold, silver), GoldKey)
  {
    Upsert.ProjectWellKeyed(silver, Features, SalesKey, GoldKey);
    Upsert.MergeWellKeyed(gold, Upsert.Project(silver, Features), GoldKey);
  }

  /** Every silver row has a TRANSACTION_ID, so running the gold task again on the
      same silver table changes nothing. */
  lemma MergeGoldIdempotent(gold: GoldTable, silver: SilverTable)
    requires Upsert.WellKeyed(silver, SalesKey)
    ensures MergeGold(MergeGold(gold, silver), silver) == MergeGold(gold, silver)
  {
    assert |silver.unkeyed| == 0 || SalesKey(silver.unkeyed[0]) == None;
    Upsert.MergeIdempotent(gold, Upsert.Project(silver, Features));
  }

  /** Running the whole SALES chain (silver task, then gold task) a second time on
      the same bronze table changes neither silver nor gold. */
  lemma ChainIdempotent(silver: SilverTable, gold: GoldTable, bronze: seq<SalesRecord>)
    requires DistinctIds(bronze) && Upsert.WellKeyed(silver, SalesKey)
    ensures var silver' := CleanUpsert(silver, bronze);
      && CleanUpsert(silver', bronze) == silver'
      && MergeGold(MergeGold(gold, silver'), silver') == MergeGold(gold, silver')
  {
    CleanUpsertIdempotent(silver, bronze);
    CleanUpsertWellKeyed(silver, bronze);
    MergeGoldIdempotent(gold, CleanUpsert(silver, bronze));
  }

  // ---------------------------------------------------------------------------
  // Task registration

  /** LOAD_FD_SALES_SILVER_CLEAN_INTO_GOLD: after `after`, named as given, merge the
      enriched silver table into the gold table. */
  function GoldTask(database: string, schema: string, warehouse: string,
                    goldTable: string, silverTable: string, after: string): Task
  {
    Task(warehouse, After(after),
      MergeInto(Qualify(database, schema, goldTable), Qualify(database, schema, silverTable), SalesGoldRule))
  }

  /** Unlike every other builder, the gold task names its predecessor without the
      database and schema: with the default, the AFTER clause is the bare silver
      task name, never the qualified name under which that task is registered. */
  lemma GoldPredecessorUnqualified(database: string, schema: string, warehouse: string,
                                   goldTable: string, silverTable: string)
    ensures GoldTask(database, schema, warehouse, goldTable, silverTable, SilverTaskName).trigger
      == After(SilverTaskName)
    ensures GoldTask(database, schema, warehouse, goldTable, silverTable, SilverTaskName).trigger.predecessor
      != Qualify(database, schema, SilverTaskName)
  {
    assert |Qualify(database, schema, SilverTaskName)| == |database| + |schema| + 2 + |SilverTaskName|;
  }

  /** The builder of the SALES gold task, bound to one session, database, schema and
      warehouse. */
  class CreateGold {
    const session: Session
    const database: string
    const schema: string
    const warehouse: string

    constructor (session: Session, database: string, schema: string, warehouse: string)
      ensures this.session == session && this.database == database
      ensures this.schema == schema && this.warehouse == warehouse
    {
      this.session := session;
      this.database := database;
      this.schema := schema;
      this.warehouse := warehouse;
    }

    /** Registers, replacing any earlier definition, LOAD_FD_SALES_SILVER_CLEAN_INTO_GOLD:
        it runs after `after`, by default the bare name of the silver task, and merges
        the enriched `silverTableName` into `goldTableName`. */
    method CreateGoldTask(goldTableName: string, silverTableName: string, after: string := SilverTaskName)
      requires session.Valid()
      modifies session
      ensures session.Valid()
      ensures session.tasks == Register(old(session.tasks), Qualify(database, schema, GoldTaskName),
        Task(warehouse, After(after),
             MergeInto(Qualify(database, schema, goldTableName), Qualify(database, schema, silverTableName), SalesGoldRule)))
      ensures session.started == old(session.started) - {Qualify(database, schema, GoldTaskName)}
      ensures session.log == old(session.log) + [Create(Qualify(database, schema, GoldTaskName),
        GoldTask(database, schema, warehouse, goldTableName, silverTableName, after))]
    {
      session.CreateOrReplaceTask(Qualify(database, schema, GoldTaskName),
        GoldTask(database, schema, warehouse, goldTableName, silverTableName, after));
    }
  }
}
