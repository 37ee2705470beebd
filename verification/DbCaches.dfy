/** The insertion cache of src/db/cache/db_cache.rs. */
module DbCaches {
  import opened Basics
  import opened Ledger
  import opened Transactions
  import opened Tables
  import opened Databases

  lemma InsertNothing(t: Tables)
    ensures InsertRunes(t.runes, []) == t.runes
    ensures InsertSupply(t.supply, map[]) == t.supply
    ensures forall b, increase :: InsertBalances(b, map[], increase) == b
    ensures t.ledger + [] == t.ledger
  {
  }

  class DbCache {
    var runes: seq<DbRune>
    var ledgerEntries: seq<Entry>
    var supplyChanges: SupplyChanges
    var balanceIncreases: BalanceChanges
    var balanceDeductions: BalanceChanges

    function View(): Pending
      reads this
    {
      Pending(runes, ledgerEntries, supplyChanges, balanceIncreases, balanceDeductions)
    }

    constructor ()
      ensures View() == NOTHING_PENDING
    {
      runes, ledgerEntries, supplyChanges, balanceIncreases, balanceDeductions := [], [], map[], map[], map[];
    }

    /** Inserts everything and clears the cache; empty parts are skipped. */
    method Flush(db: Database)
      modifies this, db
      ensures db.View() == Flushed(old(db.View()), old(View()))
      ensures View() == NOTHING_PENDING
    {
      hide InsertRunes, InsertSupply, InsertBalances;
      InsertNothing(db.View());
      if |runes| > 0 {
        db.PgInsertRunes(runes);
        runes := [];
      }
      if |supplyChanges| > 0 {
        db.PgInsertSupplyChanges(supplyChanges);
        supplyChanges := map[];
      }
      if |ledgerEntries| > 0 {
        db.PgInsertLedgerEntries(ledgerEntries);
        ledgerEntries := [];
      }
      if |balanceIncreases| > 0 {
        db.PgInsertBalanceChanges(balanceIncreases, true);
        balanceIncreases := map[];
      }
      if |balanceDeductions| > 0 {
        db.PgInsertBalanceChanges(balanceDeductions, false);
        balanceDeductions := map[];
      }
    }
  }
}
