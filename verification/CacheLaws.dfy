/** Why the caches of the index are transparent: what each of them holds, in terms of the complete history. */
module CacheLaws {
  import opened Basics
  import opened Ledger
  import opened Artifacts
  import opened Transactions
  import opened TransactionLaws
  import opened Outputs
  import opened Machine
  import opened NameLaws
  import opened SupplyBounds
  import opened Tables
  import opened TableLaws

  type OutputCache = map<Outpoint, map<RuneId, seq<Balance>>>

  function CachedAt(c: OutputCache, o: Outpoint): map<RuneId, seq<Balance>> {
    if o in c then c[o] else map[]
  }

  // ----- Output caches -----

  /** A cache that has an outpoint has all of its balances. */
  ghost predicate Faithful(c: OutputCache, es: seq<Entry>) {
    forall o, r :: o in c ==> Queue(c[o], r) == ReceivesAt(es, o, r)
  }

  /** A cache that forgets nothing. */
  ghost predicate Complete(c: OutputCache, es: seq<Entry>) {
    forall o, r :: Queue(CachedAt(c, o), r) == ReceivesAt(es, o, r)
  }

  /** The history splits into the rows of earlier blocks and of this block, by transaction. */
  ghost predicate Split(old_: seq<Entry>, new_: seq<Entry>, oldIds: set<string>) {
    && (forall e :: e in old_ ==> e.txId in oldIds)
    && (forall e :: e in new_ ==> e.txId !in oldIds)
  }

  lemma OldOutpoint(old_: seq<Entry>, new_: seq<Entry>, oldIds: set<string>, o: Outpoint, r: RuneId)
    requires Split(old_, new_, oldIds)
    ensures o.txId in oldIds ==> ReceivesAt(old_ + new_, o, r) == ReceivesAt(old_, o, r) && ReceivesAt(new_, o, r) == []
    ensures o.txId !in oldIds ==> ReceivesAt(old_ + new_, o, r) == ReceivesAt(new_, o, r)
  {
    ReceivesAppend(old_, new_, o, r);
    if o.txId in oldIds {
      NoReceives(new_, o, r);
      assert ReceivesAt(old_, o, r) + [] == ReceivesAt(old_, o, r);
    } else {
      NoReceives(old_, o, r);
      assert [] + ReceivesAt(new_, o, r) == ReceivesAt(new_, o, r);
    }
  }

  /** Where a lookup finds its balances: the block cache, else the LRU cache, else the ledger table. */
  ghost predicate FoundIn(blockCache: OutputCache, lru: OutputCache, table: seq<Entry>, o: Outpoint, part: map<RuneId, seq<Balance>>) {
    if o in blockCache then part == blockCache[o]
    else if o in lru then part == lru[o]
    else forall r :: IsOneLookup(table, o, part, r)
  }

  /** The lookup is transparent: whatever the LRU cache has forgotten, and although the rows of this block may be missing from
      the table (it holds some prefix of the history that covers the earlier blocks), the balances found at an outpoint are
      exactly those of all Receive rows ever written for it. */
  lemma LookupIsTransparent(old_: seq<Entry>, new_: seq<Entry>, oldIds: set<string>, blockCache: OutputCache, lru: OutputCache,
                            flushed: nat, o: Outpoint, part: map<RuneId, seq<Balance>>, r: RuneId)
    requires Split(old_, new_, oldIds) && flushed <= |new_|
    requires Complete(blockCache, new_) && (forall p :: p in blockCache ==> p.txId !in oldIds)
    requires Faithful(lru, old_) && (forall p :: p in lru ==> p.txId in oldIds)
    requires FoundIn(blockCache, lru, old_ + new_[..flushed], o, part)
    ensures IsOneLookup(old_ + new_, o, part, r)
  {
    hide ReceivesAt;
    OldOutpoint(old_, new_, oldIds, o, r);
    if o !in blockCache && o !in lru {
      assert Queue(CachedAt(blockCache, o), r) == [];
      assert ReceivesAt(new_, o, r) == [];
      ReceivesAppend(new_[..flushed], new_[flushed..], o, r);
      assert new_[..flushed] + new_[flushed..] == new_;
      ReceivesAppend(old_, new_[..flushed], o, r);
      ReceivesAppend(old_, new_, o, r);
      assert IsOneLookup(old_ + new_[..flushed], o, part, r);
    }
  }

  /** Adds a row to the cache of the block, as `add_ledger_entries_to_db_cache` does. */
  function AddOutput(c: OutputCache, e: Entry): OutputCache {
    if e.operation == Receive && e.address.Some? && e.output.Some? then
      var o := Outpoint(e.txId, e.output.value);
      c[o := AddInput(CachedAt(c, o), e.rune, Balance(e.address, e.Amount()))]
    else c
  }

  lemma AddOutputComplete(c: OutputCache, es: seq<Entry>, e: Entry, loc: Location)
    requires Complete(c, es) && IsRow(e, loc)
    ensures Complete(AddOutput(c, e), es + [e])
    ensures forall o :: o in AddOutput(c, e) ==> o in c || o.txId == loc.txId
  {
    hide ReceivesAt;
    forall o, r ensures Queue(CachedAt(AddOutput(c, e), o), r) == ReceivesAt(es + [e], o, r) {
      ReceivesSnoc(es, e, o, r);
    }
  }

  /** The cache of a block, once it has been merged, holds what both held. */
  lemma MergedIsFaithful(lru: OutputCache, blockCache: OutputCache, merged: OutputCache,
                         old_: seq<Entry>, new_: seq<Entry>, oldIds: set<string>)
    requires Split(old_, new_, oldIds)
    requires Faithful(lru, old_) && (forall p :: p in lru ==> p.txId in oldIds)
    requires Complete(blockCache, new_) && (forall p :: p in blockCache ==> p.txId !in oldIds)
    requires forall o :: o in merged ==>
               || (o in lru && o !in blockCache && merged[o] == lru[o])
               || (o in blockCache && merged[o] == blockCache[o])
               || (o in lru && o in blockCache && merged[o] == Extend(lru[o], blockCache[o]))
    ensures Faithful(merged, old_ + new_)
  {
    hide ReceivesAt;
    forall o, r | o in merged ensures Queue(merged[o], r) == ReceivesAt(old_ + new_, o, r) {
      OldOutpoint(old_, new_, oldIds, o, r);
    }
  }

  // ----- The mint count cache -----

  /** A cached count is never too low, and too high by no more than the mints in cenotaphs. */
  ghost predicate CountsNear(counts: map<RuneId, nat>, hist: seq<Entry>, issued: seq<Issue>) {
    forall r :: r in counts && r != SELF_ID ==>
        MintCount(hist, r) <= counts[r] <= MintCount(hist, r) + CenotaphMintCount(issued, r)
  }

  lemma {:induction false} SupplyCountsMints(es: seq<Entry>, rune: RuneId, h: u64)
    requires UpToHeight(es, h)
    ensures SupplyUpTo(es, rune, h).totalMints == MintCount(es, rune)
  {
    if es != [] {
      SupplyCountsMints(DropLast(es), rune, h);
      assert Last(es) in es;
    }
  }

  /** The mint total of the latest supply row counts every Mint row that has been flushed. */
  lemma StoredCountIsTrue(t: map<(RuneId, u64), Supply>, ledger: seq<Entry>, rune: RuneId, h: u64)
    requires SupplyConsistent(t, ledger) && UpToHeight(ledger, h)
    ensures LatestSupply(t, rune).totalMints == MintCount(ledger, rune)
    ensures SupplyHeights(t, rune) == {} ==> MintCount(ledger, rune) == 0
  {
    LatestSupplyIsTotal(t, ledger, rune, h);
    SupplyCountsMints(ledger, rune, h);
  }

  // ----- The rune cache -----

  ghost predicate Known(cache: map<RuneId, DbRune>, runes: map<RuneId, DbRune>) {
    forall r :: r in cache ==> r in runes && SameRune(cache[r], runes[r])
  }

  /** With the rows to be inserted, the table has exactly the runes that did not come late to their names. */
  ghost predicate Stored(runes: map<RuneId, DbRune>, late: set<RuneId>, table: map<RuneId, DbRune>, rows: seq<DbRune>) {
    && Known(InsertRunes(table, rows), runes) && InsertRunes(table, rows).Keys == runes.Keys - late
    && AllHaveHolders(runes, late)
  }

  /** The names in the table are the names of all runes. */
  lemma NamesAreStored(runes: map<RuneId, DbRune>, late: set<RuneId>, stored: map<RuneId, DbRune>, name: u128)
    requires Known(stored, runes) && stored.Keys == runes.Keys - late
    requires AllHaveHolders(runes, late)
    ensures HasName(stored, name) <==> HasName(runes, name)
  {
    if HasName(runes, name) {
      NameHasHolder(runes, late, name);
      var holder :| holder in runes && holder !in late && runes[holder].name == name;
      assert holder in stored;
    }
  }

  lemma OneMoreKnown(runes: map<RuneId, DbRune>, stored: map<RuneId, DbRune>, rune: DbRune)
    requires Known(stored, runes) && rune.id !in runes
    ensures Known(InsertRune(stored, rune), runes[rune.id := rune])
    ensures InsertRune(stored, rune).Keys == if HasName(stored, rune.name) then stored.Keys else stored.Keys + {rune.id}
  {
    hide HasName;
  }

  /** A rune etched now is late, and not stored, exactly when its name is taken. */
  lemma EtchedIsStored(runes: map<RuneId, DbRune>, late: set<RuneId>, table: map<RuneId, DbRune>, rows: seq<DbRune>, rune: DbRune)
    requires Stored(runes, late, table, rows) && rune.id !in runes && late <= runes.Keys
    ensures Stored(runes[rune.id := rune], if HasName(runes, rune.name) then late + {rune.id} else late, table, rows + [rune])
  {
    hide InsertRunes, InsertRune, HasName, Known, AllHaveHolders;
    InsertSnoc(table, rows, rune);
    NamesAreStored(runes, late, InsertRunes(table, rows), rune.name);
    OneMoreKnown(runes, InsertRunes(table, rows), rune);
    HolderStays(runes, late, rune);
  }

  lemma InsertSnoc(t: map<RuneId, DbRune>, rows: seq<DbRune>, rune: DbRune)
    ensures InsertRunes(t, rows + [rune]) == InsertRune(InsertRunes(t, rows), rune)
  {
    assert DropLast(rows + [rune]) == rows;
  }

  /** The rows have ids of their own. */
  ghost predicate FreshRows(rows: seq<DbRune>, table: map<RuneId, DbRune>) {
    && (forall i :: 0 <= i < |rows| ==> rows[i].id !in table)
    && (forall i, j :: 0 <= i < j < |rows| ==> rows[i].id != rows[j].id)
  }

  /** The row is the first with its name, after the table. */
  ghost predicate IsFirst(rows: seq<DbRune>, table: map<RuneId, DbRune>, i: nat)
    requires i < |rows|
  {
    !HasName(table, rows[i].name) && forall j :: 0 <= j < i ==> rows[j].name != rows[i].name
  }

  /** The row with this id, as the table stores it. */
  ghost predicate IsRowAt(rows: seq<DbRune>, id: RuneId, stored: DbRune) {
    exists i :: 0 <= i < |rows| && rows[i].id == id && stored == rows[i].(cenotaph := false)
  }

  lemma {:induction false} InsertHasRows(t: map<RuneId, DbRune>, rows: seq<DbRune>, id: RuneId)
    requires id in InsertRunes(t, rows)
    ensures (id in t && InsertRunes(t, rows)[id] == t[id]) || IsRowAt(rows, id, InsertRunes(t, rows)[id])
  {
    if rows != [] {
      var init := DropLast(rows);
      assert Last(rows) == rows[|rows| - 1];
      if id in InsertRunes(t, init) {
        InsertHasRows(t, init, id);
        if IsRowAt(init, id, InsertRunes(t, init)[id]) {
          var i :| 0 <= i < |init| && init[i].id == id && InsertRunes(t, init)[id] == init[i].(cenotaph := false);
          assert rows[i] == init[i];
        }
      }
    }
  }

  /** All names are in the table afterwards. */
  lemma {:induction false} InsertHasNames(t: map<RuneId, DbRune>, rows: seq<DbRune>, name: u128)
    requires FreshRows(rows, t)
    ensures HasName(InsertRunes(t, rows), name) <==> HasName(t, name) || exists i :: 0 <= i < |rows| && rows[i].name == name
  {
    if rows != [] {
      var init, last := DropLast(rows), Last(rows);
      var before := InsertRunes(t, init);
      InsertHasNames(t, init, name);
      if last.id in before {
        InsertHasRows(t, init, last.id);
      }
      OneMoreName(before, last, name);
      assert forall i :: 0 <= i < |init| ==> init[i] == rows[i];
    }
  }

  lemma OneMoreName(t: map<RuneId, DbRune>, r: DbRune, name: u128)
    requires r.id !in t
    ensures HasName(InsertRune(t, r), name) <==> HasName(t, name) || r.name == name
    ensures r.id in InsertRune(t, r) <==> !HasName(t, r.name)
  {
    if HasName(t, name) {
      var id :| id in t && t[id].name == name;
      assert id in InsertRune(t, r) && InsertRune(t, r)[id].name == name;
    } else if !HasName(t, r.name) {
      assert r.id in InsertRune(t, r) && InsertRune(t, r)[r.id].name == r.name;
    }
  }

  /** An insertion stores exactly the first row of each name that the table does not have yet. */
  lemma {:induction false} InsertStores(t: map<RuneId, DbRune>, rows: seq<DbRune>, i: nat)
    requires FreshRows(rows, t) && i < |rows|
    ensures rows[i].id in InsertRunes(t, rows) <==> IsFirst(rows, t, i)
    ensures rows[i].id in InsertRunes(t, rows) ==> InsertRunes(t, rows)[rows[i].id] == rows[i].(cenotaph := false)
    decreases |rows|
  {
    hide HasName, InsertRune;
    if rows[i].id in InsertRunes(t, rows) {
      InsertHasRows(t, rows, rows[i].id);
    }
    var init, last := DropLast(rows), Last(rows);
    var before := InsertRunes(t, init);
    InsertHasNames(t, init, last.name);
    if last.id in before {
      InsertHasRows(t, init, last.id);
    }
    OneMoreName(before, last, last.name);
    if i < |init| {
      InsertStores(t, init, i);
      assert init[i] == rows[i];
      OthersUntouched(before, last, rows[i].id);
    } else {
      assert forall j :: 0 <= j < |init| ==> init[j] == rows[j];
    }
  }

  lemma OthersUntouched(t: map<RuneId, DbRune>, r: DbRune, id: RuneId)
    requires id != r.id
    ensures id in InsertRune(t, r) <==> id in t
  {
  }

  lemma NoRows(table: map<RuneId, DbRune>)
    ensures InsertRunes(table, []) == table
  {
  }
}
