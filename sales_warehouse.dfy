/**
 * The SALES tables in the warehouse, updated in place by the bodies of the chain's
 * tasks when the scheduler runs them.
 */
module SalesWarehouse {
  import Upsert
  import opened SalesBronzeSilver
  import opened SalesGold

  class SalesTables {
    var bronze: seq<SalesRecord>
    var silver: SilverTable
    var gold: GoldTable

    /** Every row of silver and gold sits under its own TRANSACTION_ID. */
    ghost predicate Valid()
      reads this
    {
      Upsert.WellKeyed(silver, SalesKey) && Upsert.WellKeyed(gold, GoldKey)
    }

    /** Freshly created tables: all empty. */
    constructor ()
      ensures Valid()
      ensures bronze == [] && silver == Upsert.Table(map[], []) && gold == Upsert.Table(map[], [])
    {
      bronze := [];
      silver := Upsert.Table(map[], []);
      gold := Upsert.Table(map[], []);
    }

    /** The stage task's `ALTER PIPE ... REFRESH`: the newly staged rows, whatever
        they are, are appended to bronze. */
    method RefreshPipe(staged: seq<SalesRecord>)
      requires Valid()
      modifies this
      ensures Valid()
      ensures bronze == old(bronze) + staged
      ensures silver == old(silver) && gold == old(gold)
    {
      bronze := bronze + staged;
    }

    /** The silver task's MERGE; it reads bronze and writes silver only. */
    method RunSilverClean()
      requires Valid() && DistinctIds(bronze)
      modifies this
      ensures Valid()
      ensures bronze == old(bronze) && gold == old(gold)
      ensures silver == CleanUpsert(old(silver), bronze)
    {
      CleanUpsertWellKeyed(silver, bronze);
      silver := CleanUpsert(silver, bronze);
    }

    /** The gold task's MERGE; it reads silver and writes gold only. */
    method RunGold()
      requires Valid()
      modifies this
      ensures Valid()
      ensures gold == MergeGold(old(gold), silver)
      ensures bronze == old(bronze) && silver == old(silver)
    {
      MergeGoldWellKeyed(gold, silver);
      gold := MergeGold(gold, silver);
    }

    /** One pass of the chain: the silver task, then the gold task over the silver
        table it has just produced.  A second pass over the same bronze table
        changes nothing. */
    method RunChain()
      requires Valid() && DistinctIds(bronze)
      modifies this
      ensures Valid()
      ensures bronze == old(bronze)
      ensures silver == CleanUpsert(old(silver), bronze)
      ensures gold == MergeGold(old(gold), silver)
      ensures CleanUpsert(silver, bronze) == silver && MergeGold(gold, silver) == gold
    {
      RunSilverClean();
      RunGold();
      ChainIdempotent(old(silver), old(gold), bronze);
    }
  }
}
