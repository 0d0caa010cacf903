/**
 * The WINE tables in the warehouse, updated in place by the bodies of the chain's
 * tasks when the scheduler runs them: the pipe appends to bronze, the silver task
 * merges bronze into silver, and each gold task merges silver into its own table.
 */
module WineWarehouse {
  import Upsert
  import opened WineBronzeSilver
  import opened WineGold

  class WineTables {
    var bronze: seq<BronzeRow>
    var silver: SilverTable
    var acid: AcidTable
    var dioxide: DioxideTable
    var other: OtherTable

    /** Every keyed row sits under its own ID, in every downstream table. */
    ghost predicate Valid()
      reads this
    {
      && Upsert.WellKeyed(silver, SilverKey)
      && Upsert.WellKeyed(acid, AcidKey)
      && Upsert.WellKeyed(dioxide, DioxideKey)
      && Upsert.WellKeyed(other, OtherKey)
    }

    /** Freshly created tables: all empty. */
    constructor ()
      ensures Valid()
      ensures bronze == [] && silver == Upsert.Table(map[], [])
      ensures acid == Upsert.Table(map[], []) && dioxide == Upsert.Table(map[], [])
      ensures other == Upsert.Table(map[], [])
    {
      bronze := [];
      silver := Upsert.Table(map[], []);
      acid := Upsert.Table(map[], []);
      dioxide := Upsert.Table(map[], []);
      other := Upsert.Table(map[], []);
    }

    /** The stage task's `ALTER PIPE ... REFRESH`: the newly staged rows, whatever
        they are, are appended to bronze. */
    method RefreshPipe(staged: seq<BronzeRow>)
      requires Valid()
      modifies this
      ensures Valid()
      ensures bronze == old(bronze) + staged
      ensures silver == old(silver) && acid == old(acid) && dioxide == old(dioxide) && other == old(other)
    {
      bronze := bronze + staged;
    }

    /** The silver task's MERGE; it reads bronze and writes silver only. */
    method RunSilverClean()
      requires Valid() && DistinctIds(bronze)
      modifies this
      ensures Valid()
      ensures bronze == old(bronze) && acid == old(acid) && dioxide == old(dioxide) && other == old(other)
      ensures silver == CleanUpsert(old(silver), bronze)
    {
      CleanUpsertWellKeyed(silver, bronze);
      silver := CleanUpsert(silver, bronze);
    }

    /** The acidity task's MERGE; it reads silver and writes its own table only. */
    method RunGoldAcid()
      requires Valid()
      modifies this
      ensures Valid()
      ensures acid == MergeAcid(old(acid), silver)
      ensures bronze == old(bronze) && silver == old(silver) && dioxide == old(dioxide) && other == old(other)
    {
      GoldWellKeyed(acid, dioxide, other, silver);
      acid := MergeAcid(acid, silver);
    }

    /** The dioxide task's MERGE; it reads silver and writes its own table only. */
    method RunGoldDioxide()
      requires Valid()
      modifies this
      ensures Valid()
      ensures dioxide == MergeDioxide(old(dioxide), silver)
      ensures bronze == old(bronze) && silver == old(silver) && acid == old(acid) && other == old(other)
    {
      GoldWellKeyed(acid, dioxide, other, silver);
      dioxide := MergeDioxide(dioxide, silver);
    }

    /** The other-features task's MERGE; it reads silver and writes its own table only. */
    method RunGoldOther()
      requires Valid()
      modifies this
      ensures Valid()
      ensures other == MergeOther(old(other), silver)
      ensures bronze == old(bronze) && silver == old(silver) && acid == old(acid) && dioxide == old(dioxide)
    {
      GoldWellKeyed(acid, dioxide, other, silver);
      other := MergeOther(other, silver);
    }

    /** One pass of the chain after a pipe refresh: the silver task, then the three
        gold tasks that run after it, each reading the silver table the silver task
        has just produced.  The order among the three gold tasks does not matter. */
    method RunChain()
      requires Valid() && DistinctIds(bronze)
      modifies this
      ensures Valid()
      ensures bronze == old(bronze)
      ensures silver == CleanUpsert(old(silver), bronze)
      ensures acid == MergeAcid(old(acid), silver)
      ensures dioxide == MergeDioxide(old(dioxide), silver)
      ensures other == MergeOther(old(other), silver)
    {
      RunSilverClean();
      RunGoldOther();
      RunGoldAcid();
      RunGoldDioxide();
    }
  }
}
