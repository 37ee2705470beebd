/** The database of src/db/mod.rs: its tables, and its statements as updates of them. */
module Databases {
  import opened Basics
  import opened Ledger
  import opened Transactions
  import opened Outputs
  import opened Tables

  /** One row of the input query. */
  datatype Row = Row(index: nat, rune: RuneId, balance: Balance)

  /** The rows of one queried outpoint. */
  function RowsOf(ledger: seq<Entry>, index: nat, o: Outpoint): seq<Row> {
    if ledger == [] then []
    else
      var e := Last(ledger);
      RowsOf(DropLast(ledger), index, o)
      + if e.operation == Receive && e.Created() == Some(o) then [Row(index, e.rune, Balance(e.address, e.Amount()))] else []
  }

  /** The join of the ledger with the queried outpoints. */
  function Join(ledger: seq<Entry>, outputs: seq<(nat, Outpoint)>): seq<Row> {
    if outputs == [] then [] else Join(ledger, DropLast(outputs)) + RowsOf(ledger, Last(outputs).0, Last(outputs).1)
  }

  /** The balances of one input and one rune among some rows. */
  function Pick(rows: seq<Row>, index: nat, rune: RuneId): seq<Balance> {
    if rows == [] then []
    else Pick(DropLast(rows), index, rune)
         + if Last(rows).index == index && Last(rows).rune == rune then [Last(rows).balance] else []
  }

  lemma {:induction false} PickCount(rows: seq<Row>, index: nat, rune: RuneId, b: Balance)
    ensures multiset(Pick(rows, index, rune))[b] == multiset(rows)[Row(index, rune, b)]
  {
    if rows != [] {
      PickCount(DropLast(rows), index, rune, b);
      assert rows == DropLast(rows) + [Last(rows)];
    }
  }

  /** The order in which the rows come back does not matter, up to the order of the balances picked. */
  lemma PickPermutes(a: seq<Row>, b: seq<Row>, index: nat, rune: RuneId)
    requires multiset(a) == multiset(b)
    ensures multiset(Pick(a, index, rune)) == multiset(Pick(b, index, rune))
  {
    forall x ensures multiset(Pick(a, index, rune))[x] == multiset(Pick(b, index, rune))[x] {
      PickCount(a, index, rune, x);
      PickCount(b, index, rune, x);
    }
  }

  lemma {:induction false} PickAppend(a: seq<Row>, b: seq<Row>, index: nat, rune: RuneId)
    ensures Pick(a + b, index, rune) == Pick(a, index, rune) + Pick(b, index, rune)
  {
    if b == [] {
      assert a + b == a;
    } else {
      assert DropLast(a + b) == a + DropLast(b);
      PickAppend(a, DropLast(b), index, rune);
    }
  }

  lemma {:induction false} PickRowsOf(ledger: seq<Entry>, index: nat, o: Outpoint, i: nat, rune: RuneId)
    ensures Pick(RowsOf(ledger, index, o), i, rune) == if i == index then ReceivesAt(ledger, o, rune) else []
  {
    if ledger != [] {
      var e := Last(ledger);
      PickRowsOf(DropLast(ledger), index, o, i, rune);
      var last := if e.operation == Receive && e.Created() == Some(o) then [Row(index, e.rune, Balance(e.address, e.Amount()))] else [];
      PickAppend(RowsOf(DropLast(ledger), index, o), last, i, rune);
      if last != [] {
        assert DropLast(last) == [];
      }
    }
  }

  ghost predicate DistinctIndices(outputs: seq<(nat, Outpoint)>) {
    forall i, j :: 0 <= i < j < |outputs| ==> outputs[i].0 != outputs[j].0
  }

  lemma {:induction false} PickJoin(ledger: seq<Entry>, outputs: seq<(nat, Outpoint)>, i: nat, rune: RuneId)
    requires DistinctIndices(outputs)
    ensures forall j :: 0 <= j < |outputs| && outputs[j].0 == i ==>
              Pick(Join(ledger, outputs), i, rune) == ReceivesAt(ledger, outputs[j].1, rune)
    ensures (forall j :: 0 <= j < |outputs| ==> outputs[j].0 != i) ==> Pick(Join(ledger, outputs), i, rune) == []
  {
    hide RowsOf, ReceivesAt, Pick;
    PickNone(i, rune);
    if outputs != [] {
      var init, last := DropLast(outputs), Last(outputs);
      PickJoin(ledger, init, i, rune);
      PickAppend(Join(ledger, init), RowsOf(ledger, last.0, last.1), i, rune);
      PickRowsOf(ledger, last.0, last.1, i, rune);
      if last.0 == i {
        assert forall j :: 0 <= j < |init| ==> init[j].0 != i;
      }
    }
  }

  lemma PickNone(i: nat, rune: RuneId)
    ensures Pick([], i, rune) == []
  {
  }

  function At(results: map<nat, map<RuneId, seq<Balance>>>, i: nat): map<RuneId, seq<Balance>> {
    if i in results then results[i] else map[]
  }

  function AddRow(results: map<nat, map<RuneId, seq<Balance>>>, row: Row): map<nat, map<RuneId, seq<Balance>>> {
    results[row.index := AddInput(At(results, row.index), row.rune, row.balance)]
  }

  /** The result map holds exactly the rows read so far. */
  ghost predicate CollectedRows(results: map<nat, map<RuneId, seq<Balance>>>, rows: seq<Row>) {
    forall i, r :: Queue(At(results, i), r) == Pick(rows, i, r)
  }

  /** No result is filed for an input without rows. */
  ghost predicate NoneEmpty(results: map<nat, map<RuneId, seq<Balance>>>) {
    forall i :: i in results ==> exists r :: Queue(results[i], r) != []
  }

  lemma CollectNone()
    ensures CollectedRows(map[], []) && NoneEmpty(map[])
  {
  }

  lemma AddKeepsNoneEmpty(results: map<nat, map<RuneId, seq<Balance>>>, row: Row)
    requires NoneEmpty(results)
    ensures NoneEmpty(AddRow(results, row))
  {
    var results' := AddRow(results, row);
    forall i | i in results' ensures exists r :: Queue(results'[i], r) != [] {
      if i == row.index {
        assert Queue(results'[i], row.rune) != [];
      }
    }
  }

  lemma CollectOne(results: map<nat, map<RuneId, seq<Balance>>>, rows: seq<Row>, row: Row)
    requires CollectedRows(results, rows)
    ensures CollectedRows(AddRow(results, row), rows + [row])
  {
    hide Pick;
    forall i, r ensures Queue(At(AddRow(results, row), i), r) == Pick(rows + [row], i, r) {
      PickSnoc(rows, row, i, r);
    }
  }

  lemma PickSnoc(rows: seq<Row>, row: Row, i: nat, r: RuneId)
    ensures Pick(rows + [row], i, r) == Pick(rows, i, r) + if row.index == i && row.rune == r then [row.balance] else []
  {
    assert DropLast(rows + [row]) == rows;
  }

  class Database {
    var runes: map<RuneId, DbRune>
    var ledger: seq<Entry>
    var supply: map<(RuneId, u64), Supply>
    var balances: map<(RuneId, u64, Address), Holding>

    function View(): Tables
      reads this
    {
      Tables(runes, ledger, supply, balances)
    }

    method PgInsertRunes(rows: seq<DbRune>)
      modifies this`runes
      ensures runes == InsertRunes(old(runes), rows)
    {
      for i := 0 to |rows|
        invariant runes == InsertRunes(old(runes), rows[..i])
      {
        runes := InsertRune(runes, rows[i]);
        assert DropLast(rows[..i + 1]) == rows[..i];
      }
      assert rows[..|rows|] == rows;
    }

    method PgInsertSupplyChanges(rows: SupplyChanges)
      modifies this`supply
      ensures supply == InsertSupply(old(supply), rows)
    {
      supply := InsertSupply(supply, rows);
    }

    method PgInsertLedgerEntries(rows: seq<Entry>)
      modifies this`ledger
      ensures ledger == old(ledger) + rows
    {
      ledger := ledger + rows;
    }

    method PgInsertBalanceChanges(rows: BalanceChanges, increase: bool)
      modifies this`balances
      ensures balances == InsertBalances(old(balances), rows, increase)
    {
      balances := InsertBalances(balances, rows, increase);
    }

    method PgRollBackBlock(height: u64)
      modifies this
      ensures View() == RollBack(old(View()), height)
    {
      hide LedgerWithout;
      balances := map k | k in balances && k.1 !in {height} :: balances[k];
      supply := map k | k in supply && k.1 !in {height} :: supply[k];
      ledger := LedgerWithout(ledger, {height});
      runes := map r | r in runes && runes[r].height !in {height} :: runes[r];
    }

    method PgGetRuneById(id: RuneId) returns (rune: Option<DbRune>)
      ensures rune == if id in runes then Some(runes[id]) else None
    {
      rune := if id in runes then Some(runes[id]) else None;
    }

    /** The mint total of the latest supply row. */
    method PgGetRuneTotalMints(id: RuneId) returns (total: Option<nat>)
      ensures total == if SupplyHeights(supply, id) == {} then None else Some(LatestSupply(supply, id).totalMints)
    {
      if SupplyHeights(supply, id) == {} {
        return None;
      }
      total := Some(LatestSupply(supply, id).totalMints);
    }

    /** The balances received at the queried outpoints. The rows come back in no particular order, so neither do the
        balances of one rune, but none is lost, added or filed under another input. */
    method PgGetInputRuneBalances(outputs: seq<(nat, Outpoint)>) returns (results: map<nat, map<RuneId, seq<Balance>>>)
      requires DistinctIndices(outputs)
      ensures forall j, r :: 0 <= j < |outputs| ==> IsOneLookup(ledger, outputs[j].1, At(results, outputs[j].0), r)
      ensures forall i :: i in results ==> exists j :: 0 <= j < |outputs| && outputs[j].0 == i
    {
      hide Pick, Join, ReceivesAt, Queue, CollectedRows, NoneEmpty;
      var rows: seq<Row> :| multiset(rows) == multiset(Join(ledger, outputs));
      results := map[];
      CollectNone();
      for i := 0 to |rows|
        invariant CollectedRows(results, rows[..i]) && NoneEmpty(results)
      {
        AddKeepsNoneEmpty(results, rows[i]);
        CollectOne(results, rows[..i], rows[i]);
        assert rows[..i + 1] == rows[..i] + [rows[i]];
        results := AddRow(results, rows[i]);
      }
      assert rows[..|rows|] == rows;
      forall i, r {
        CollectedIsLookup(results, rows, outputs, i, r);
      }
      CollectedIndices(results, rows, outputs);
    }

    lemma CollectedIsLookup(results: map<nat, map<RuneId, seq<Balance>>>, rows: seq<Row>, outputs: seq<(nat, Outpoint)>,
                            i: nat, r: RuneId)
      requires CollectedRows(results, rows) && multiset(rows) == multiset(Join(ledger, outputs)) && DistinctIndices(outputs)
      ensures forall j :: 0 <= j < |outputs| && outputs[j].0 == i ==> IsOneLookup(ledger, outputs[j].1, At(results, i), r)
      ensures (forall j :: 0 <= j < |outputs| ==> outputs[j].0 != i) ==> Queue(At(results, i), r) == []
    {
      hide Pick, Join, ReceivesAt;
      PickPermutes(rows, Join(ledger, outputs), i, r);
      PickJoin(ledger, outputs, i, r);
    }

    lemma CollectedIndices(results: map<nat, map<RuneId, seq<Balance>>>, rows: seq<Row>, outputs: seq<(nat, Outpoint)>)
      requires CollectedRows(results, rows) && NoneEmpty(results)
      requires multiset(rows) == multiset(Join(ledger, outputs)) && DistinctIndices(outputs)
      ensures forall i :: i in results ==> exists j :: 0 <= j < |outputs| && outputs[j].0 == i
    {
      hide Pick, Join, CollectedRows;
      forall i | i in results ensures exists j :: 0 <= j < |outputs| && outputs[j].0 == i {
        var r :| Queue(results[i], r) != [];
        CollectedIsLookup(results, rows, outputs, i, r);
      }
    }
  }
}
