/** The index cache of src/db/cache/index_cache.rs and the block loop of src/db/index.rs. It follows the reference machine:
    whatever the LRU caches forget and whenever a cache miss forces a flush, the rows it writes are those of a legal run, and
    after every block the tables are that run's ledger and its totals. */
module IndexCaches {
  import opened Basics
  import opened Ledger
  import opened Artifacts
  import opened Edicts
  import opened Transactions
  import opened TransactionLaws
  import opened Outputs
  import opened Machine
  import opened Conservation
  import opened SupplyBounds
  import opened Tables
  import opened TableLaws
  import opened CacheLaws
  import opened LedgerLaws
  import opened MintLaws
  import opened NameLaws
  import opened Owners
  import opened TxRuns
  import opened Drops
  import opened TxDrops
  import opened RowLaws
  import opened Closings
  import opened Blocks
  import opened TransactionCaches
  import opened Databases
  import opened DbCaches
  import Runestones
  import RunestoneLaws

  // ----- What the invariant says, on values -----

  /** The history is what is in the table and what is pending; the pending totals are those of the pending rows. */
  ghost predicate LedgerOk(hist: seq<Entry>, t: Tables, p: Pending, height: u64) {
    && hist == t.ledger + p.entries
    && p == PendingOf(p.runes, p.entries)
    && Consistent(t) && UpToHeight(t.ledger, height) && AtHeight(p.entries, height)
  }

  /** `past` is the history of the earlier blocks, all of it in the table. */
  ghost predicate OutputsOk(hist: seq<Entry>, ledger: seq<Entry>, past: seq<Entry>, pastIds: set<string>, txIds: set<string>,
                            blockCache: OutputCache, lru: OutputCache) {
    && past <= ledger <= hist
    && pastIds <= txIds
    && Split(past, hist[|past|..], pastIds)
    && Complete(blockCache, hist[|past|..]) && (forall o :: o in blockCache ==> o.txId !in pastIds && o.txId in txIds)
    && Faithful(lru, past) && (forall o :: o in lru ==> o.txId in pastIds)
    && (forall e :: e in hist ==> e.txId in txIds)
  }

  ghost predicate RunesOk(runes: map<RuneId, DbRune>, late: set<RuneId>, cache: map<RuneId, DbRune>,
                          table: map<RuneId, DbRune>, rows: seq<DbRune>) {
    Known(cache, runes) && late <= runes.Keys && Stored(runes, late, table, rows)
  }

  /** Tables that tell a run which no transaction is open in. */
  ghost predicate TablesOf(t: Tables, s: State, height: u64) {
    && s.tx.inputs == map[] && t.ledger == s.hist && Consistent(t) && UpToHeight(t.ledger, height)
    && s.late <= s.runes.Keys && Stored(s.runes, s.late, t.runes, [])
    && forall e :: e in s.hist ==> e.txId in s.txIds
  }

  function AddAll(p: Pending, rows: seq<Entry>): Pending {
    if rows == [] then p else AddEntry(AddAll(p, DropLast(rows)), Last(rows))
  }

  function AddOutputs(c: OutputCache, rows: seq<Entry>): OutputCache {
    if rows == [] then c else AddOutput(AddOutputs(c, DropLast(rows)), Last(rows))
  }

  lemma {:induction false} AddAllIsPending(runes: seq<DbRune>, es: seq<Entry>, rows: seq<Entry>)
    ensures AddAll(PendingOf(runes, es), rows) == PendingOf(runes, es + rows)
  {
    hide AddEntry, PendingOf;
    if rows == [] {
      assert es + rows == es;
    } else {
      AddAllIsPending(runes, es, DropLast(rows));
      PendingAfter(runes, es + DropLast(rows), Last(rows));
      assert es + DropLast(rows) + [Last(rows)] == es + rows;
    }
  }

  lemma {:induction false} AddOutputsComplete(c: OutputCache, es: seq<Entry>, rows: seq<Entry>, loc: Location)
    requires Complete(c, es) && forall e :: e in rows ==> IsRow(e, loc)
    ensures Complete(AddOutputs(c, rows), es + rows)
    ensures forall o :: o in AddOutputs(c, rows) ==> o in c || o.txId == loc.txId
  {
    hide Complete, IsRow, AddOutput;
    if rows == [] {
      assert es + rows == es;
    } else {
      assert Last(rows) in rows;
      AddOutputsComplete(c, es, DropLast(rows), loc);
      AddOutputComplete(AddOutputs(c, DropLast(rows)), es + DropLast(rows), Last(rows), loc);
      assert es + DropLast(rows) + [Last(rows)] == es + rows;
    }
  }

  lemma RowsOfTx(rows: seq<Entry>, loc: Location, ev: nat)
    requires AreRows(rows, loc, ev)
    ensures forall e :: e in rows ==> IsRow(e, loc)
  {
    forall e | e in rows ensures IsRow(e, loc) {
      var i :| 0 <= i < |rows| && rows[i] == e;
    }
  }

  /** New rows join the history and the pending rows. */
  lemma LedgerGrows(hist: seq<Entry>, t: Tables, p: Pending, height: u64, rows: seq<Entry>, loc: Location, ev: nat)
    requires LedgerOk(hist, t, p, height) && AreRows(rows, loc, ev) && loc.height == height
    ensures LedgerOk(hist + rows, t, AddAll(p, rows), height)
    ensures AddAll(p, rows).runes == p.runes
  {
    hide Consistent, SupplyFold, BalanceFold;
    RowsOfTx(rows, loc, ev);
    AddAllIsPending(p.runes, p.entries, rows);
    assert t.ledger + (p.entries + rows) == t.ledger + p.entries + rows;
  }

  lemma OutputsGrow(hist: seq<Entry>, ledger: seq<Entry>, past: seq<Entry>, pastIds: set<string>, txIds: set<string>,
                    blockCache: OutputCache, lru: OutputCache, rows: seq<Entry>, loc: Location, ev: nat)
    requires OutputsOk(hist, ledger, past, pastIds, txIds, blockCache, lru)
    requires AreRows(rows, loc, ev) && loc.txId !in pastIds && loc.txId in txIds
    ensures OutputsOk(hist + rows, ledger, past, pastIds, txIds, AddOutputs(blockCache, rows), lru)
  {
    hide Complete, Faithful, AddOutputs;
    RowsOfTx(rows, loc, ev);
    assert (hist + rows)[|past|..] == hist[|past|..] + rows;
    AddOutputsComplete(blockCache, hist[|past|..], rows, loc);
  }

  /** A flush moves the pending rows into the tables. */
  lemma LedgerFlushes(hist: seq<Entry>, t: Tables, p: Pending, height: u64)
    requires LedgerOk(hist, t, p, height)
    ensures LedgerOk(hist, Flushed(t, p), NOTHING_PENDING, height) && Flushed(t, p).ledger == hist
  {
    hide Consistent, InsertRunes, InsertSupply, InsertBalances;
    FlushIsConsistent(t, p.runes, p.entries, height);
    assert hist + [] == hist;
    assert PendingOf([], []) == NOTHING_PENDING;
  }

  // ----- Supplies -----

  /** The most that can exist of any rune that can be minted out fits u128. */
  ghost predicate SuppliesFit(runes: map<RuneId, DbRune>) {
    forall r :: r in runes && IsBounded(runes[r]) ==> MaxSupply(runes[r]) <= U128_MAX
  }

  lemma EtchedSupplyFits(runes: map<RuneId, DbRune>, etching: Etching, loc: Location)
    requires SuppliesFit(runes) && etching.Supply().Some?
    ensures SuppliesFit(runes[loc.Id() := FromEtching(etching, loc)])
  {
    hide FromEtching, IsBounded, MaxSupply;
    if IsBounded(FromEtching(etching, loc)) {
      EtchingSupplyIsMax(etching, loc);
    }
  }

  lemma CenotaphSupplyFits(runes: map<RuneId, DbRune>, name: u128, loc: Location)
    requires SuppliesFit(runes)
    ensures SuppliesFit(runes[loc.Id() := FromCenotaphEtching(name, loc)])
  {
  }

  /** The etching of a runestone that was deciphered has a supply. */
  lemma DecipheredHasSupply(tx: TxData, rs: Runestone)
    requires |tx.outputs| <= U32_MAX && Runestones.DecipherOf(tx.Scripts()) == Some(RunestoneArtifact(rs)) && rs.etching.Some?
    ensures rs.etching.value.Supply().Some?
  {
    RunestoneLaws.DecipheredIsWellFormed(tx.Scripts(), rs);
  }

  /** An LRU cache may forget any other entry when one is put in. */
  method LruPut<K(==), V>(c: map<K, V>, k: K, v: V) returns (c': map<K, V>)
    ensures k in c' && c'[k] == v
    ensures forall x :: x in c' && x != k ==> x in c && c'[x] == c[x]
  {
    var kept: set<K> := *;
    c' := (map x | x in c && x in kept :: c[x])[k := v];
  }

  /** `rune.extend(vec.clone())` for every rune of one input, in the iteration order the map happens to have. */
  method ExtendWith(final: map<RuneId, seq<Balance>>, part: map<RuneId, seq<Balance>>) returns (result: map<RuneId, seq<Balance>>)
    ensures result == Extend(final, part)
  {
    result := final;
    var keys := part.Keys;
    while keys != {}
      invariant keys <= part.Keys
      invariant result.Keys == final.Keys + (part.Keys - keys)
      invariant forall r :: r in keys && r in result ==> result[r] == final[r]
      invariant forall r :: r in result && r !in keys ==> result[r] == Queue(final, r) + Queue(part, r)
    {
      var rune :| rune in keys;
      keys := keys - {rune};
      if rune in result {
        result := result[rune := result[rune] + part[rune]];
      } else {
        result := result[rune := part[rune]];
        assert [] + part[rune] == part[rune];
      }
    }
  }

  /** What cannot change within a transaction, other than the rune it etches. */
  ghost predicate SameSpends(s: State, s': State) {
    && s'.spent == s.spent && s'.txIds == s.txIds && s'.tx.loc == s.tx.loc
    && s.runes.Keys <= s'.runes.Keys <= s.runes.Keys + {s.tx.loc.Id()}
  }

  lemma StepKeepsSpends(s: State, a: Action)
    requires !a.Begin?
    ensures SameSpends(s, Apply(s, a))
  {
    hide StepOf;
    StepRows(s.tx, a);
  }

  class IndexCache {
    var runeCache: map<RuneId, DbRune>
    var runeTotalMintsCache: map<RuneId, nat>
    var outputCache: OutputCache
    var blockOutputCache: OutputCache
    var txCache: TransactionCache
    const dbCache: DbCache

    /** The run of the reference machine this index has followed, the history of the earlier blocks with its transactions,
        and the height being indexed. */
    ghost const start: map<RuneId, DbRune>
    ghost var log: seq<Action>
    ghost var past: seq<Entry>
    ghost var pastIds: set<string>
    ghost var height: u64

    ghost function Now(): State
      reads this`log
    {
      RunFrom(Init(start), log)
    }

    ghost predicate Core(db: Database)
      reads this`log, this`past, this`pastIds, this`height, this`blockOutputCache, this`outputCache, dbCache, db
    {
      && Legal(Init(start), log)
      && LedgerOk(Now().hist, db.View(), dbCache.View(), height)
      && OutputsOk(Now().hist, db.ledger, past, pastIds, Now().txIds, blockOutputCache, outputCache)
    }

    ghost predicate RunesKnown(db: Database)
      reads this`log, this`runeCache, dbCache, db
    {
      RunesOk(Now().runes, Now().late, runeCache, db.runes, dbCache.runes)
    }

    ghost predicate CountsKnown()
      reads this`log, this`runeTotalMintsCache
    {
      CountsNear(runeTotalMintsCache, Now().hist, Now().issued) && runeTotalMintsCache.Keys <= Now().runes.Keys + {SELF_ID}
    }

    ghost predicate Valid(db: Database)
      reads this, txCache, dbCache, db
    {
      Core(db) && RunesKnown(db) && CountsKnown() && txCache.View() == Now().tx
    }

    /** Ready for a transaction: no queue is open. What the transaction cache holds does not matter. */
    ghost predicate Ready(db: Database)
      reads this, dbCache, db
    {
      Core(db) && RunesKnown(db) && CountsKnown() && Now().tx.inputs == map[]
    }

    /** The open transaction belongs to the block being indexed. */
    ghost predicate Open()
      reads this`log, this`height, this`pastIds
    {
      Now().tx.loc.height == height && Now().tx.loc.txId !in pastIds && Now().tx.loc.txId in Now().txIds
    }

    /** The open transaction has etched nothing yet, and its id is new. */
    ghost predicate Unetched()
      reads this`log
    {
      Now().tx.etching.None? && Now().tx.loc.Id() !in Now().runes.Keys + {SELF_ID}
    }

    /** The rune etched in the open transaction is in the cache, and no mint count of it. */
    ghost predicate Unminted()
      reads this`log, this`runeCache, this`runeTotalMintsCache
    {
      Now().tx.etching.Some? ==> Now().tx.etching.value.id in runeCache && Now().tx.etching.value.id !in runeTotalMintsCache
    }

    ghost predicate UnmintedCount()
      reads this`log, this`runeTotalMintsCache
    {
      Now().tx.etching.Some? ==> Now().tx.etching.value.id !in runeTotalMintsCache
    }

    lemma UnetchedIsUnminted()
      requires Unetched()
      ensures Unminted()
    {
    }

    /** An index over tables that hold no ledger row yet. */
    constructor (db: Database)
      requires db.ledger == [] && db.supply == map[] && db.balances == map[]
      ensures Idle(db) && log == [] && start == db.runes && height == 0
      ensures fresh(txCache) && fresh(dbCache)
    {
      runeCache, runeTotalMintsCache, outputCache, blockOutputCache := map[], map[], map[], map[];
      txCache := new TransactionCache(NOWHERE, map[], map[], None, 0);
      dbCache := new DbCache();
      start, log, past, pastIds, height := db.runes, [], [], {}, 0;
    }

    /** An index with empty caches over tables that tell a run. */
    constructor Over(db: Database, ghost start: map<RuneId, DbRune>, ghost log: seq<Action>, ghost height: u64)
      requires Legal(Init(start), log) && TablesOf(db.View(), RunFrom(Init(start), log), height)
      ensures Idle(db) && this.log == log && this.start == start && this.height == height
      ensures fresh(txCache) && fresh(dbCache)
    {
      hide RunFrom, Legal, Stored, Consistent;
      runeCache, runeTotalMintsCache, outputCache, blockOutputCache := map[], map[], map[], map[];
      txCache := new TransactionCache(NOWHERE, map[], map[], None, 0);
      dbCache := new DbCache();
      ghost var s := RunFrom(Init(start), log);
      this.start, this.log, past, pastIds, this.height := start, log, s.hist, s.txIds, height;
    }

    /** What an idle index leaves in the tables. */
    lemma IdleTables(db: Database)
      requires Idle(db)
      ensures TablesOf(db.View(), Now(), height)
    {
      hide RunFrom, Legal, Stored, Consistent;
    }

    /** Files new rows with the pending rows and the outputs of the block (src/db/cache/index_cache.rs:337-446). */
    method AddLedgerEntriesToDbCache(entries: seq<Entry>)
      modifies this`blockOutputCache, dbCache
      ensures dbCache.View() == AddAll(old(dbCache.View()), entries)
      ensures blockOutputCache == AddOutputs(old(blockOutputCache), entries)
    {
      hide AddSupply, AddOutput;
      ghost var before := dbCache.View();
      for i := 0 to |entries|
        invariant dbCache.View() == AddAll(before, entries[..i])
        invariant blockOutputCache == AddOutputs(old(blockOutputCache), entries[..i])
      {
        var e := entries[i];
        assert DropLast(entries[..i + 1]) == entries[..i];
        OnlyReceivesAreOutputs(blockOutputCache, e);
        dbCache.ledgerEntries := dbCache.ledgerEntries + [e];
        dbCache.supplyChanges := AddSupply(dbCache.supplyChanges, e);
        match e.operation {
          case Send =>
            dbCache.balanceDeductions := AddBalance(dbCache.balanceDeductions, e, Send);
          case Receive =>
            dbCache.balanceIncreases := AddBalance(dbCache.balanceIncreases, e, Receive);
            blockOutputCache := AddOutput(blockOutputCache, e);
          case _ =>
        }
      }
      assert entries[..|entries|] == entries;
    }

    lemma OnlyReceivesAreOutputs(c: OutputCache, e: Entry)
      ensures e.operation != Receive ==> AddOutput(c, e) == c
    {
    }

    /** The index follows one action of the machine: its rows are filed. */
    method Record(ghost a: Action, rows: seq<Entry>, db: Database)
      requires Core(db) && Open() && !a.Begin? && Enabled(Now(), a) && rows == StepOf(Now().tx, a).entries
      modifies this`blockOutputCache, this`log, dbCache
      ensures Core(db) && Open() && log == old(log) + [a] && Now() == Apply(old(Now()), a)
      ensures dbCache.runes == old(dbCache.runes) && SameSpends(old(Now()), Now())
    {
      hide StepOf, Enabled, LedgerOk, OutputsOk, AddAll, AddOutputs, RunFrom, Legal, RunesAfter;
      ghost var s := Now();
      StepRows(s.tx, a);
      StepKeepsSpends(s, a);
      LegalAppend(Init(start), log, a);
      LedgerGrows(s.hist, db.View(), dbCache.View(), height, rows, s.tx.loc, s.tx.nextEvent);
      OutputsGrow(s.hist, db.ledger, past, pastIds, s.txIds, blockOutputCache, outputCache, rows, s.tx.loc, s.tx.nextEvent);
      AddLedgerEntriesToDbCache(rows);
      log := log + [a];
    }

    /** Inserts all pending rows; the index stays in step with its run. */
    method FlushDbCache(db: Database)
      requires LedgerOk(Now().hist, db.View(), dbCache.View(), height) && RunesKnown(db)
      modifies dbCache, db
      ensures LedgerOk(Now().hist, db.View(), dbCache.View(), height) && RunesKnown(db)
      ensures old(Core(db)) ==> Core(db)
      ensures db.ledger == Now().hist && dbCache.View() == NOTHING_PENDING
    {
      hide LedgerOk, Flushed, Known, Stored, Complete, Faithful, Split, RunFrom, Legal;
      LedgerFlushes(Now().hist, db.View(), dbCache.View(), height);
      FlushKeepsStored(db.View(), dbCache.View(), Now().runes, Now().late);
      FlushShape(Now().hist, db.View(), dbCache.View(), height);
      dbCache.Flush(db);
    }

    lemma FlushKeepsStored(t: Tables, p: Pending, runes: map<RuneId, DbRune>, late: set<RuneId>)
      requires Stored(runes, late, t.runes, p.runes)
      ensures Stored(runes, late, Flushed(t, p).runes, [])
    {
      NoRows(Flushed(t, p).runes);
    }

    lemma FlushShape(hist: seq<Entry>, t: Tables, p: Pending, h: u64)
      requires LedgerOk(hist, t, p, h)
      ensures t.ledger <= hist
    {
    }

    // ----- Looking up inputs -----

    /** An input found in the block cache or in the LRU cache. */
    ghost predicate Hit(o: Outpoint, part: map<RuneId, seq<Balance>>)
      reads this`blockOutputCache, this`outputCache
    {
      (o in blockOutputCache && part == blockOutputCache[o]) ||
      (o !in blockOutputCache && o in outputCache && part == outputCache[o])
    }

    /** Looks in the block cache and in the LRU cache; what is in neither is a miss. */
    method LookInCaches(inputs: seq<Outpoint>)
      returns (indexed: map<nat, map<RuneId, seq<Balance>>>, misses: seq<(nat, Outpoint)>)
      ensures forall j :: j in indexed ==> j < |inputs| && Hit(inputs[j], indexed[j])
      ensures forall k :: 0 <= k < |misses| ==>
                && misses[k].0 < |inputs| && misses[k].1 == inputs[misses[k].0] && misses[k].0 !in indexed
                && misses[k].1 !in blockOutputCache && misses[k].1 !in outputCache
      ensures forall j :: 0 <= j < |inputs| ==> j in indexed || (j, inputs[j]) in misses
      ensures DistinctIndices(misses)
    {
      indexed, misses := map[], [];
      for i := 0 to |inputs|
        invariant forall j :: j in indexed ==> j < i && Hit(inputs[j], indexed[j])
        invariant forall k :: 0 <= k < |misses| ==>
                    && misses[k].0 < i && misses[k].1 == inputs[misses[k].0] && misses[k].0 !in indexed
                    && misses[k].1 !in blockOutputCache && misses[k].1 !in outputCache
        invariant forall j :: 0 <= j < i ==> j in indexed || (j, inputs[j]) in misses
        invariant DistinctIndices(misses)
      {
        var k := inputs[i];
        if k in blockOutputCache {
          indexed := indexed[i := blockOutputCache[k]];
        } else if k in outputCache {
          indexed := indexed[i := outputCache[k]];
        } else {
          misses := misses + [(i, k)];
        }
      }
    }

    /** The input queues of a transaction: every rune's balances in input order, from wherever they are found. */
    method InputRuneBalances(inputs: seq<Outpoint>, db: Database)
      returns (final: map<RuneId, seq<Balance>>, ghost parts: seq<map<RuneId, seq<Balance>>>)
      requires Core(db)
      ensures final == Gather(parts) && IsLookup(Now().hist, inputs, parts)
      ensures forall r :: Queue(final, r) == InInputOrder(parts, r)
    {
      hide LedgerOk, OutputsOk, RunFrom, Legal, Queue, Extend, IsOneLookup, Gather, InInputOrder;
      var indexed, misses := LookInCaches(inputs);
      var found: map<nat, map<RuneId, seq<Balance>>> := map[];
      if |misses| > 0 {
        found := db.PgGetInputRuneBalances(misses);
      }
      ghost var hits := indexed;
      indexed := indexed + found;
      final, parts := map[], [];
      GatherNone();
      for i := 0 to |inputs|
        invariant |parts| == i && final == Gather(parts)
        invariant forall j, r :: 0 <= j < i ==> IsOneLookup(Now().hist, inputs[j], parts[j], r)
      {
        ghost var part := At(indexed, i);
        forall r {
          FoundAt(db, inputs, hits, misses, found, i, r);
        }
        GatherOne(parts, part);
        if i in indexed {
          final := ExtendWith(final, indexed[i]);
        }
        parts := parts + [part];
      }
      GatheredInOrder(parts);
    }

    lemma GatheredInOrder(parts: seq<map<RuneId, seq<Balance>>>)
      ensures forall r :: Queue(Gather(parts), r) == InInputOrder(parts, r)
    {
      hide Queue, Gather, InInputOrder;
      forall r {
        GatherKeepsOrder(parts, r);
      }
    }

    lemma GatherNone()
      ensures Gather([]) == map[]
    {
    }

    lemma GatherOne(parts: seq<map<RuneId, seq<Balance>>>, part: map<RuneId, seq<Balance>>)
      ensures Gather(parts + [part]) == Extend(Gather(parts), part)
      ensures Extend(Gather(parts), map[]) == Gather(parts)
    {
      assert DropLast(parts + [part]) == parts;
      ExtendNothing(Gather(parts));
    }

    lemma ExtendNothing(a: map<RuneId, seq<Balance>>)
      ensures Extend(a, map[]) == a
    {
      var none: map<RuneId, seq<Balance>> := map[];
      assert a.Keys + none.Keys == a.Keys;
      forall r | r in a ensures Extend(a, none)[r] == a[r] {
        assert Queue(a, r) + [] == a[r];
      }
    }

    /** Wherever the i-th input was found, it is all there. */
    lemma FoundAt(db: Database, inputs: seq<Outpoint>, hits: map<nat, map<RuneId, seq<Balance>>>, misses: seq<(nat, Outpoint)>,
                  found: map<nat, map<RuneId, seq<Balance>>>, i: nat, r: RuneId)
      requires Core(db) && i < |inputs|
      requires forall j :: j in hits ==> j < |inputs| && Hit(inputs[j], hits[j])
      requires forall k :: 0 <= k < |misses| ==>
                 && misses[k].0 < |inputs| && misses[k].1 == inputs[misses[k].0] && misses[k].0 !in hits
                 && misses[k].1 !in blockOutputCache && misses[k].1 !in outputCache
      requires forall j :: 0 <= j < |inputs| ==> j in hits || (j, inputs[j]) in misses
      requires forall j, r :: 0 <= j < |misses| ==> IsOneLookup(db.ledger, misses[j].1, At(found, misses[j].0), r)
      requires forall k :: k in found ==> exists j :: 0 <= j < |misses| && misses[j].0 == k
      ensures IsOneLookup(Now().hist, inputs[i], At(hits + found, i), r)
    {
      hide LedgerOk, RunFrom, Legal, Queue, Complete, Faithful, IsOneLookup;
      var o, part := inputs[i], At(hits + found, i);
      if i in hits {
        assert i !in found;
      } else {
        var k :| 0 <= k < |misses| && misses[k] == (i, o);
        assert At(hits + found, i) == At(found, i);
      }
      LookupInParts(Now().hist, db.ledger, past, pastIds, Now().txIds, blockOutputCache, outputCache, o, part, r);
    }

    lemma LookupInParts(hist: seq<Entry>, ledger: seq<Entry>, past: seq<Entry>, pastIds: set<string>, txIds: set<string>,
                        blockCache: OutputCache, lru: OutputCache, o: Outpoint, part: map<RuneId, seq<Balance>>, r: RuneId)
      requires OutputsOk(hist, ledger, past, pastIds, txIds, blockCache, lru)
      requires FoundIn(blockCache, lru, ledger, o, part)
      ensures IsOneLookup(hist, o, part, r)
    {
      hide Complete, Faithful, IsOneLookup;
      var new_ := hist[|past|..];
      var flushed := |ledger| - |past|;
      assert hist == past + new_;
      assert ledger == past + new_[..flushed];
      LookupIsTransparent(past, new_, pastIds, blockCache, lru, flushed, o, part, r);
    }

    // ----- Looking up runes and mint counts -----

    /** A rune as the cache, or after a flush the table, knows it. Nothing is found only where nothing need be. */
    method GetCachedRuneByRuneId(rune: RuneId, db: Database) returns (found: Option<DbRune>)
      requires Valid(db)
      modifies this`runeCache, dbCache, db
      ensures Valid(db)
      ensures found.Some? && rune == SELF_ID ==> Now().tx.etching == found
      ensures found.Some? && rune != SELF_ID ==> rune in Now().runes && SameRune(found.value, Now().runes[rune])
      ensures if found.Some? then CanBeFound(Now(), rune) else CanBeMissed(Now(), rune)
      ensures found.None? ==> rune == SELF_ID || rune !in old(runeCache)
    {
      hide LedgerOk, OutputsOk, RunFrom, Legal, SameRune, CountsNear, Stored, Known;
      if rune == SELF_ID {
        return txCache.etching;
      }
      if rune in runeCache {
        CachedRune(rune, db);
        return Some(runeCache[rune]);
      }
      FlushDbCache(db);
      StoredRunes(Now().runes, Now().late, db.runes, rune);
      found := db.PgGetRuneById(rune);
      if found.Some? {
        ghost var cache := runeCache;
        runeCache := LruPut(runeCache, rune, found.value);
        StillKnown(Now().runes, cache, runeCache, rune);
      }
    }

    lemma CachedRune(rune: RuneId, db: Database)
      requires RunesKnown(db) && rune in runeCache
      ensures rune in Now().runes && SameRune(runeCache[rune], Now().runes[rune])
    {
    }

    lemma StillKnown(runes: map<RuneId, DbRune>, cache: map<RuneId, DbRune>, cache': map<RuneId, DbRune>, rune: RuneId)
      requires Known(cache, runes) && rune in runes && rune in cache' && SameRune(cache'[rune], runes[rune])
      requires forall x :: x in cache' && x != rune ==> x in cache && cache'[x] == cache[x]
      ensures Known(cache', runes)
    {
    }

    /** Once everything is flushed, a rune is in the table if and only if it did not come late to its name. */
    lemma StoredRunes(runes: map<RuneId, DbRune>, late: set<RuneId>, table: map<RuneId, DbRune>, rune: RuneId)
      requires Stored(runes, late, table, [])
      ensures rune in table <==> rune in runes && rune !in late
      ensures rune in table ==> SameRune(table[rune], runes[rune])
    {
      NoRows(table);
    }

    /** A mint count as the cache, or after a flush the table, knows it. It is never below the true count, and above it by no
        more than the mints in cenotaphs. The cache is asked for the id of the rune etched now when the mint says 0:0, and has
        no count for it; the table is asked for the mints recorded under 0:0. */
    method GetCachedRuneTotalMints(rune: RuneId, db: Database) returns (total: Option<nat>)
      requires Valid(db) && UnmintedCount() && (rune == SELF_ID || rune in Now().runes)
      modifies this`runeTotalMintsCache, dbCache, db
      ensures Valid(db)
      ensures rune != SELF_ID && total.Some? ==>
                && rune in runeTotalMintsCache && runeTotalMintsCache[rune] == total.value
                && MintCount(Now().hist, rune) <= total.value <= MintCount(Now().hist, rune) + CenotaphMintCount(Now().issued, rune)
      ensures rune != SELF_ID && total.None? ==> rune !in runeTotalMintsCache && MintCount(Now().hist, rune) == 0
      ensures rune == SELF_ID && Now().tx.etching.Some? ==>
                MintCount(Now().hist, SELF_ID) == if total.Some? then total.value else 0
    {
      hide LedgerOk, OutputsOk, RunFrom, Legal, RunesOk, MintCount;
      var realId := rune;
      if rune == SELF_ID {
        if txCache.etching.None? {
          return None;
        }
        realId := txCache.etching.value.id;
      }
      if realId in runeTotalMintsCache {
        return Some(runeTotalMintsCache[realId]);
      }
      FlushDbCache(db);
      StoredCount(db, rune);
      total := db.PgGetRuneTotalMints(rune);
      if total.Some? {
        runeTotalMintsCache := LruPut(runeTotalMintsCache, rune, total.value);
      }
    }

    lemma StoredCount(db: Database, rune: RuneId)
      requires Core(db) && db.ledger == Now().hist
      ensures LatestSupply(db.supply, rune).totalMints == MintCount(Now().hist, rune)
      ensures SupplyHeights(db.supply, rune) == {} ==> MintCount(Now().hist, rune) == 0
    {
      hide OutputsOk, RunFrom, Legal, SupplyConsistent, BalancesConsistent;
      StoredCountIsTrue(db.supply, db.ledger, rune, height);
    }

    // ----- The steps of a transaction -----

    method BeginTransaction(location: Location, inputs: seq<Outpoint>, eligibleOutputs: map<u32, Option<Address>>,
                            firstEligibleOutput: Option<u32>, totalOutputs: u32, db: Database)
      returns (ghost begin: Action)
      requires Ready(db)
      requires FreshSpend(Now().spent, Now().txIds, location.txId, inputs) && location.height == height
      modifies this`txCache, this`log
      ensures Valid(db) && Open() && fresh(txCache) && Now().tx.loc == location
      ensures Now().spent == old(Now().spent) + (set o | o in inputs) && Now().txIds == old(Now().txIds) + {location.txId}
      ensures Now().runes == old(Now().runes)
      ensures begin.Begin? && begin.loc == location && begin.ins == inputs && begin.outputs == eligibleOutputs
      ensures begin.first == firstEligibleOutput && begin.totalOutputs == totalOutputs && log == old(log) + [begin]
      ensures Now().tx.nextEvent == 0 && Now().tx.etching.None?
    {
      hide LedgerOk, RunFrom, Legal, RunesOk, CountsNear, Complete, Faithful, Split, Gather, IsLookup;
      ghost var s := Now();
      var inputRunes;
      ghost var parts;
      inputRunes, parts := InputRuneBalances(inputs, db);
      begin := Begin(location, inputs, parts, eligibleOutputs, firstEligibleOutput, totalOutputs);
      LegalAppend(Init(start), log, begin);
      txCache := new TransactionCache(location, inputRunes, eligibleOutputs, firstEligibleOutput, totalOutputs);
      log := log + [begin];
    }

    /** After rows without a mint, the counts are still near. */
    lemma CountsStay(s: State, a: Action)
      requires CountsNear(runeTotalMintsCache, s.hist, s.issued) && !a.Begin? && !a.DoMint?
      ensures CountsNear(runeTotalMintsCache, Apply(s, a).hist, Apply(s, a).issued)
    {
      hide Apply, MintCount, CenotaphMintCount;
      forall r {
        ActionCounts(s, a, r);
      }
    }

    /** An action without rows changes no count. */
    lemma CountsIdle(s: State, a: Action)
      requires CountsNear(runeTotalMintsCache, s.hist, s.issued) && !a.Begin? && StepOf(s.tx, a).entries == []
      ensures CountsNear(runeTotalMintsCache, Apply(s, a).hist, Apply(s, a).issued)
    {
      hide StepOf, MintCount, CenotaphMintCount;
      assert s.hist + [] == s.hist;
      forall r {
        CenotaphMintsAppend(s.issued, StepOf(s.tx, a).issued, r);
      }
    }

    /** An action that changes nothing. */
    method RecordIdle(ghost a: Action, db: Database)
      requires Valid(db) && Open() && Enabled(Now(), a) && !a.Begin? && !a.DoEtch? && !a.DoEtchCenotaph?
      requires StepOf(Now().tx, a).entries == [] && StepOf(Now().tx, a).tx == Now().tx
      modifies this`blockOutputCache, this`log, dbCache
      ensures Valid(db) && Open() && SameSpends(old(Now()), Now()) && Now().runes == old(Now().runes) && log == old(log) + [a]
    {
      hide LedgerOk, OutputsOk, RunFrom, Legal, RunesOk, CountsNear, StepOf, Enabled;
      CountsIdle(Now(), a);
      Record(a, [], db);
    }

    method ApplyRunestone(runestone: Runestone, db: Database)
      requires Valid(db) && Open()
      modifies this`blockOutputCache, this`log, txCache, dbCache
      ensures old(Unetched()) ==> Unetched()
      ensures Valid(db) && Open() && SameSpends(old(Now()), Now()) && Now().runes == old(Now().runes)
      ensures log == old(log) + if runestone.pointer.Some? then [SetPointer(runestone.pointer.value)] else []
    {
      hide LedgerOk, OutputsOk, RunFrom, Legal, RunesOk, CountsNear, Enabled;
      if runestone.pointer.Some? {
        ghost var a := SetPointer(runestone.pointer.value);
        CountsStay(Now(), a);
        PointerEnabled(Now(), runestone.pointer.value);
        txCache.outputPointer := Some(runestone.pointer.value);
        Record(a, [], db);
      }
    }

    lemma PointerEnabled(s: State, p: u32)
      ensures Enabled(s, SetPointer(p)) && StepOf(s.tx, SetPointer(p)).entries == []
    {
    }

    method ApplyCenotaph(db: Database) returns (ghost burn: Action)
      requires Valid(db) && Open() && Now().tx.nextEvent == 0
      modifies this`blockOutputCache, this`log, txCache, dbCache
      ensures old(Unetched()) ==> Unetched()
      ensures Valid(db) && Open() && SameSpends(old(Now()), Now()) && Now().runes == old(Now().runes)
      ensures burn.DoBurnInputs? && log == old(log) + [burn]
    {
      hide LedgerOk, OutputsOk, RunFrom, Legal, RunesOk, CountsNear, BurnInputs, Enumerates;
      var entries;
      ghost var order;
      entries, order := txCache.ApplyCenotaphInputBurn();
      burn := DoBurnInputs(order);
      CountsStay(Now(), burn);
      BurnKeepsEtching(Now(), order);
      Record(burn, entries, db);
    }

    lemma BurnKeepsEtching(s: State, order: seq<RuneId>)
      ensures var t := Apply(s, DoBurnInputs(order));
              t.tx.etching == s.tx.etching && t.tx.loc == s.tx.loc && t.runes == s.runes
    {
    }

    /** The cached runes know the rune that has just been etched. */
    lemma EtchingKnown(runes: map<RuneId, DbRune>, late: set<RuneId>, cache: map<RuneId, DbRune>, cache': map<RuneId, DbRune>,
                       table: map<RuneId, DbRune>, rows: seq<DbRune>, rune: DbRune)
      requires RunesOk(runes, late, cache, table, rows) && rune.id !in runes
      requires rune.id in cache' && cache'[rune.id] == rune
      requires forall x :: x in cache' && x != rune.id ==> x in cache && cache'[x] == cache[x]
      ensures RunesOk(runes[rune.id := rune], if HasName(runes, rune.name) then late + {rune.id} else late, cache', table, rows + [rune])
    {
      hide HasName, Stored;
      EtchedIsStored(runes, late, table, rows, rune);
    }

    /** Queueing a rune for insertion leaves everything else in step. */
    method PushRune(rune: DbRune, db: Database)
      requires Core(db)
      modifies dbCache
      ensures Core(db) && dbCache.runes == old(dbCache.runes) + [rune]
    {
      hide OutputsOk, RunFrom, Legal, Consistent, SupplyFold, BalanceFold;
      dbCache.runes := dbCache.runes + [rune];
    }

    /** Files an etching: its rune, in the cache and among the rows to insert, and its row. */
    method RecordEtching(ghost a: Action, dbRune: DbRune, entry: Entry, db: Database)
      requires Core(db) && RunesKnown(db) && CountsKnown() && Open()
      requires EtchesAs(Now(), a, dbRune, entry) && StepOf(Now().tx, a).tx == txCache.View()
      requires dbRune.id !in Now().runes.Keys + {SELF_ID}
      modifies this`blockOutputCache, this`log, this`runeCache, dbCache
      ensures Valid(db) && Open() && SameSpends(old(Now()), Now()) && Unminted()
      ensures Now().runes == RunesAfter(old(Now()), a) && log == old(log) + [a]
    {
      hide LedgerOk, OutputsOk, RunFrom, Legal, RunesOk, CountsNear, StepOf, Enabled, RunesAfter, LateAfter;
      ghost var s := Now();
      CountsStay(s, a);
      ghost var rows, cache := dbCache.runes, runeCache;
      PushRune(dbRune, db);
      runeCache := LruPut(runeCache, dbRune.id, dbRune);
      EtchingKnown(s.runes, s.late, cache, runeCache, db.runes, rows, dbRune);
      Record(a, [entry], db);
    }

    ghost predicate EtchesAs(s: State, a: Action, dbRune: DbRune, entry: Entry) {
      && (a.DoEtch? || a.DoEtchCenotaph?) && Enabled(s, a)
      && RunesAfter(s, a) == s.runes[dbRune.id := dbRune] && LateAfter(s, a) == LateIf(s, dbRune)
      && StepOf(s.tx, a).entries == [entry] && StepOf(s.tx, a).tx.etching == Some(dbRune)
    }

    method ApplyEtching(etching: Etching, db: Database)
      requires Valid(db) && Open() && Unetched()
      modifies this`blockOutputCache, this`log, this`runeCache, txCache, dbCache
      ensures Valid(db) && Open() && SameSpends(old(Now()), Now()) && Unminted()
      ensures Now().runes == RunesAfter(old(Now()), DoEtch(etching)) && log == old(log) + [DoEtch(etching)]
    {
      hide LedgerOk, OutputsOk, RunFrom, Legal, RunesOk, CountsNear, Etch, FromEtching, EtchesAs;
      var dbRune, entry := txCache.ApplyEtching(etching);
      EtchIs(Now(), etching, entry);
      RecordEtching(DoEtch(etching), dbRune, entry, db);
    }

    lemma EtchIs(s: State, etching: Etching, entry: Entry)
      requires s.tx.loc.Id() !in s.runes && Etch(s.tx, etching).entries == [entry]
      ensures FromEtching(etching, s.tx.loc).id == s.tx.loc.Id()
      ensures EtchesAs(s, DoEtch(etching), FromEtching(etching, s.tx.loc), entry)
    {
      hide FromEtching;
      EtchedRune(etching, s.tx.loc);
    }

    method ApplyCenotaphEtching(name: u128, db: Database)
      requires Valid(db) && Open() && Unetched()
      modifies this`blockOutputCache, this`log, this`runeCache, txCache, dbCache
      ensures Valid(db) && Open() && SameSpends(old(Now()), Now()) && Unminted()
      ensures Now().runes == RunesAfter(old(Now()), DoEtchCenotaph(name)) && log == old(log) + [DoEtchCenotaph(name)]
    {
      hide LedgerOk, OutputsOk, RunFrom, Legal, RunesOk, CountsNear, EtchCenotaph, FromCenotaphEtching, EtchesAs;
      var dbRune, entry := txCache.ApplyCenotaphEtching(name);
      EtchCenotaphIs(Now(), name, entry);
      RecordEtching(DoEtchCenotaph(name), dbRune, entry, db);
    }

    lemma EtchCenotaphIs(s: State, name: u128, entry: Entry)
      requires s.tx.loc.Id() !in s.runes && EtchCenotaph(s.tx, name).entries == [entry]
      ensures FromCenotaphEtching(name, s.tx.loc).id == s.tx.loc.Id()
      ensures EtchesAs(s, DoEtchCenotaph(name), FromCenotaphEtching(name, s.tx.loc), entry)
    {
    }

    /** The counts after a mint, when the cached one has been raised with it. A mint in a cenotaph raises it too, and adds no
        Mint row. */
    lemma CountsAfterMint(s: State, a: Action, counts: map<RuneId, nat>, counts': map<RuneId, nat>)
      requires CountsNear(counts, s.hist, s.issued) && (a.DoMint? || a.DoMintInCenotaph?)
      requires a.rune in counts' && forall r :: r in counts' && r != a.rune ==> r in counts && counts'[r] == counts[r]
      requires a.rune in counts ==> counts'[a.rune] == counts[a.rune] + 1
      requires a.rune !in counts ==> counts'[a.rune] == 1 && (a.rune != SELF_ID ==> MintCount(s.hist, a.rune) == 0)
      requires IsRuneMintable(a.dbRune, a.totalMints, s.tx.loc.height)
      ensures CountsNear(counts', Apply(s, a).hist, Apply(s, a).issued)
    {
      hide Apply, MintCount, CenotaphMintCount, IsRuneMintable;
      forall r {
        ActionCounts(s, a, r);
      }
    }

    /** The rune and the mint count a mint is decided on. */
    method MintBasisFor(rune: RuneId, db: Database) returns (found: Option<DbRune>, totalMints: nat)
      requires Valid(db) && Open() && Unminted()
      modifies this`runeCache, this`runeTotalMintsCache, dbCache, db
      ensures Valid(db) && Open()
      ensures found.Some? ==> MintBasis(Now(), rune, totalMints, found.value)
      ensures found.None? ==> CanBeMissed(Now(), rune) && !JustEtched(Now().tx, rune)
      ensures found.Some? && rune != SELF_ID ==> rune in runeTotalMintsCache || MintCount(Now().hist, rune) == 0
    {
      hide LedgerOk, OutputsOk, RunFrom, Legal, RunesOk, CountsNear, MintCount, SameRune;
      totalMints := 0;
      found := GetCachedRuneByRuneId(rune, db);
      if found.None? {
        return;
      }
      var cached := GetCachedRuneTotalMints(rune, db);
      totalMints := if cached.Some? then cached.value else 0;
    }

    /** `get_mut` and add one, or `put` one. */
    method RaiseMintCount(rune: RuneId)
      modifies this`runeTotalMintsCache
      ensures rune in runeTotalMintsCache
      ensures var before := old(runeTotalMintsCache);
              && runeTotalMintsCache[rune] == (if rune in before then before[rune] + 1 else 1)
              && forall r :: r in runeTotalMintsCache && r != rune ==> r in before && runeTotalMintsCache[r] == before[r]
    {
      if rune in runeTotalMintsCache {
        runeTotalMintsCache := runeTotalMintsCache[rune := runeTotalMintsCache[rune] + 1];
      } else {
        runeTotalMintsCache := LruPut(runeTotalMintsCache, rune, 1);
      }
    }

    /** Files what came of a mint: its row, and the raised count. */
    method RecordMint(ghost act: Action, rune: RuneId, entry: Option<Entry>, db: Database)
      requires Core(db) && RunesKnown(db) && CountsKnown() && Open()
      requires (act.DoMint? || act.DoMintInCenotaph?) && act.rune == rune && Enabled(Now(), act)
      requires entry.Some? <==> IsRuneMintable(act.dbRune, act.totalMints, Now().tx.loc.height)
      requires StepOf(Now().tx, act).entries == (if entry.Some? then [entry.value] else [])
      requires StepOf(Now().tx, act).tx == txCache.View()
      requires rune == SELF_ID || rune in runeTotalMintsCache || MintCount(Now().hist, rune) == 0
      modifies this`blockOutputCache, this`log, this`runeTotalMintsCache, dbCache
      ensures Valid(db) && Open() && SameSpends(old(Now()), Now()) && Now().runes == old(Now().runes) && log == old(log) + [act]
    {
      hide LedgerOk, OutputsOk, RunFrom, Legal, RunesOk, CountsNear, MintCount, StepOf, MintBasis, IsRuneMintable;
      ghost var s, counts := Now(), runeTotalMintsCache;
      MintIsKnown(s, act);
      if entry.None? {
        CountsIdle(s, act);
        Record(act, [], db);
        return;
      }
      Record(act, [entry.value], db);
      RaiseMintCount(rune);
      CountsAfterMint(s, act, counts, runeTotalMintsCache);
    }

    lemma MintIsKnown(s: State, a: Action)
      requires (a.DoMint? || a.DoMintInCenotaph?) && Enabled(s, a)
      ensures a.rune in s.runes.Keys + {SELF_ID}
    {
    }

    method ApplyMint(rune: RuneId, db: Database) returns (ghost act: Action)
      requires Valid(db) && Open() && Unminted()
      modifies this`blockOutputCache, this`log, this`runeCache, this`runeTotalMintsCache, txCache, dbCache, db
      ensures Valid(db) && Open() && SameSpends(old(Now()), Now()) && Now().runes == old(Now().runes)
      ensures IsMintOf([act], Some(rune), false) && log == old(log) + [act]
    {
      hide LedgerOk, OutputsOk, RunFrom, Legal, RunesOk, CountsNear, MintCount, MintRune, MintBasis, IsRuneMintable;
      var found, totalMints := MintBasisFor(rune, db);
      if found.None? {
        act := SkipMint(rune);
        RecordIdle(act, db);
        return;
      }
      var entry := txCache.ApplyMint(rune, totalMints, found.value);
      act := DoMint(rune, totalMints, found.value);
      RecordMint(act, rune, entry, db);
    }

    /** A mint in a cenotaph writes a Burn row and still raises the cached count. */
    method ApplyCenotaphMint(rune: RuneId, db: Database) returns (ghost act: Action)
      requires Valid(db) && Open() && Unminted()
      modifies this`blockOutputCache, this`log, this`runeCache, this`runeTotalMintsCache, txCache, dbCache, db
      ensures Valid(db) && Open() && SameSpends(old(Now()), Now()) && Now().runes == old(Now().runes)
      ensures IsMintOf([act], Some(rune), true) && log == old(log) + [act]
    {
      hide LedgerOk, OutputsOk, RunFrom, Legal, RunesOk, CountsNear, MintCount, MintInCenotaph, MintBasis, IsRuneMintable;
      var found, totalMints := MintBasisFor(rune, db);
      if found.None? {
        act := SkipMint(rune);
        RecordIdle(act, db);
        return;
      }
      var entry := txCache.ApplyCenotaphMint(rune, totalMints, found.value);
      act := DoMintInCenotaph(rune, totalMints, found.value);
      RecordMint(act, rune, entry, db);
    }

    method ApplyEdict(edict: Edict, db: Database) returns (ghost act: Action)
      requires Valid(db) && Open()
      modifies this`blockOutputCache, this`log, this`runeCache, txCache, dbCache, db
      ensures Valid(db) && Open() && SameSpends(old(Now()), Now()) && Now().runes == old(Now().runes)
      ensures AreEdicts([act], [edict]) && log == old(log) + [act]
    {
      hide LedgerOk, OutputsOk, RunFrom, Legal, RunesOk, CountsNear, MoveEdict;
      var found := GetCachedRuneByRuneId(edict.id, db);
      if found.None? {
        act := SkipEdict(edict);
        RecordIdle(act, db);
        return;
      }
      var entries := txCache.ApplyEdict(edict);
      act := DoEdict(edict);
      CountsStay(Now(), act);
      Record(act, entries, db);
    }

    method EndTransaction(db: Database) returns (ghost end: Action)
      requires Valid(db) && Open()
      modifies this`blockOutputCache, this`log, txCache, dbCache
      ensures Valid(db) && Ready(db) && Open() && SameSpends(old(Now()), Now()) && Now().runes == old(Now().runes)
      ensures end.DoEnd? && log == old(log) + [end]
    {
      hide LedgerOk, OutputsOk, RunFrom, Legal, RunesOk, CountsNear, Enumerates, AllocateAll;
      var entries;
      ghost var order;
      entries, order := txCache.AllocateRemainingBalances();
      end := DoEnd(order);
      CountsStay(Now(), end);
      Record(end, entries, db);
    }

    // ----- Blocks -----

    /** Moves the outputs of the block into the LRU cache, in the iteration order the map happens to have. */
    method MoveBlockOutputCacheToOutputCache()
      modifies this`outputCache, this`blockOutputCache
      ensures blockOutputCache == map[]
      ensures var lru, block := old(outputCache), old(blockOutputCache);
              forall o :: o in outputCache ==>
                || (o in lru && o !in block && outputCache[o] == lru[o])
                || (o in block && outputCache[o] == block[o])
                || (o in lru && o in block && outputCache[o] == Extend(lru[o], block[o]))
    {
      hide Extend;
      ghost var lru := outputCache;
      var keys := blockOutputCache.Keys;
      while keys != {}
        invariant keys <= blockOutputCache.Keys && blockOutputCache == old(blockOutputCache)
        invariant forall o :: o in outputCache ==>
                    || (o in lru && (o in keys || o !in blockOutputCache) && outputCache[o] == lru[o])
                    || (o in blockOutputCache && o !in keys && outputCache[o] == blockOutputCache[o])
                    || (o in lru && o in blockOutputCache && o !in keys && outputCache[o] == Extend(lru[o], blockOutputCache[o]))
      {
        var k :| k in keys;
        keys := keys - {k};
        if k in outputCache {
          var merged := ExtendWith(outputCache[k], blockOutputCache[k]);
          outputCache := outputCache[k := merged];
        } else {
          outputCache := LruPut(outputCache, k, blockOutputCache[k]);
        }
      }
      blockOutputCache := map[];
    }

    /** Between blocks everything is in the tables. */
    ghost predicate Idle(db: Database)
      reads this, dbCache, db
    {
      && Ready(db) && dbCache.View() == NOTHING_PENDING
      && db.ledger == Now().hist == past && pastIds == Now().txIds && blockOutputCache == map[]
    }

    method ApplyEdicts(edicts: seq<Edict>, db: Database) returns (ghost acts: seq<Action>)
      requires Valid(db) && Open()
      modifies this`blockOutputCache, this`log, this`runeCache, txCache, dbCache, db
      ensures Valid(db) && Open() && SameSpends(old(Now()), Now()) && Now().runes == old(Now().runes)
      ensures AreEdicts(acts, edicts) && log == old(log) + acts
    {
      hide Valid, Open, Now;
      ghost var s := Now();
      acts := [];
      for i := 0 to |edicts|
        invariant Valid(db) && Open() && SameSpends(s, Now()) && Now().runes == s.runes
        invariant AreEdicts(acts, edicts[..i]) && log == old(log) + acts
      {
        ghost var act := ApplyEdict(edicts[i], db);
        acts := acts + [act];
      }
      assert edicts[..|edicts|] == edicts;
    }

    /** The runestone of a transaction: pointer, etching, mint, edicts. */
    method ApplyRunestoneParts(rs: Runestone, db: Database)
      returns (ghost head: seq<Action>, ghost etch: seq<Action>, ghost mint: seq<Action>, ghost edicts: seq<Action>)
      requires Valid(db) && Open() && Unetched()
      requires rs.etching.Some? ==> rs.etching.value.Supply().Some?
      modifies this`blockOutputCache, this`log, this`runeCache, this`runeTotalMintsCache, txCache, dbCache, db
      ensures Valid(db) && Open() && SameSpends(old(Now()), Now())
      ensures log == old(log) + head + etch + mint + edicts
      ensures forall begin, end :: FollowsArtifact(TxRun(begin, head, etch, mint, edicts, end), Some(RunestoneArtifact(rs)))
      ensures old(SuppliesFit(Now().runes)) ==> SuppliesFit(Now().runes)
    {
      hide Valid, Open, Now, Unetched, Unminted, SuppliesFit, SameRune, FromEtching, Etching.Supply;
      ghost var s := Now();
      head := if rs.pointer.Some? then [SetPointer(rs.pointer.value)] else [];
      etch, mint, edicts := [], [], [];
      ApplyRunestone(rs, db);
      if rs.etching.Some? {
        ApplyEtching(rs.etching.value, db);
        etch := [DoEtch(rs.etching.value)];
        if SuppliesFit(s.runes) {
          EtchedSupplyFits(s.runes, rs.etching.value, s.tx.loc);
        }
      }
      if rs.mint.Some? {
        if rs.etching.None? {
          UnetchedIsUnminted();
        }
        ghost var act := ApplyMint(rs.mint.value, db);
        mint := [act];
      }
      edicts := ApplyEdicts(rs.edicts, db);
    }

    /** The cenotaph of a transaction: burn, etching, mint. */
    method ApplyCenotaphParts(c: Cenotaph, db: Database)
      returns (ghost head: seq<Action>, ghost etch: seq<Action>, ghost mint: seq<Action>)
      requires Valid(db) && Open() && Unetched() && Now().tx.nextEvent == 0
      modifies this`blockOutputCache, this`log, this`runeCache, this`runeTotalMintsCache, txCache, dbCache, db
      ensures Valid(db) && Open() && SameSpends(old(Now()), Now())
      ensures log == old(log) + head + etch + mint
      ensures forall begin, end :: FollowsArtifact(TxRun(begin, head, etch, mint, [], end), Some(CenotaphArtifact(c)))
      ensures old(SuppliesFit(Now().runes)) ==> SuppliesFit(Now().runes)
    {
      hide Valid, Open, Now, Unetched, Unminted, SuppliesFit, SameRune, FromCenotaphEtching;
      ghost var s := Now();
      ghost var burn := ApplyCenotaph(db);
      head, etch, mint := [burn], [], [];
      if c.etching.Some? {
        ApplyCenotaphEtching(c.etching.value, db);
        etch := [DoEtchCenotaph(c.etching.value)];
        if SuppliesFit(s.runes) {
          CenotaphSupplyFits(s.runes, c.etching.value, s.tx.loc);
        }
      }
      if c.mint.Some? {
        if c.etching.None? {
          UnetchedIsUnminted();
        }
        ghost var act := ApplyCenotaphMint(c.mint.value, db);
        mint := [act];
      }
    }

    method ApplyArtifact(tx: TxData, artifact: Option<Artifact>, db: Database)
      returns (ghost head: seq<Action>, ghost etch: seq<Action>, ghost mint: seq<Action>, ghost edicts: seq<Action>)
      requires Valid(db) && Open() && Unetched()
      requires |tx.outputs| <= U32_MAX && artifact == Runestones.DecipherOf(tx.Scripts()) && Now().tx.nextEvent == 0
      modifies this`blockOutputCache, this`log, this`runeCache, this`runeTotalMintsCache, txCache, dbCache, db
      ensures Valid(db) && Open() && SameSpends(old(Now()), Now())
      ensures log == old(log) + head + etch + mint + edicts
      ensures forall begin, end :: FollowsArtifact(TxRun(begin, head, etch, mint, edicts, end), artifact)
      ensures old(SuppliesFit(Now().runes)) ==> SuppliesFit(Now().runes)
    {
      hide Valid, Open, Now, Unetched, Unminted, SuppliesFit, FollowsArtifact, Runestones.DecipherOf, Etching.Supply;
      head, etch, mint, edicts := [], [], [], [];
      NoArtifact();
      if artifact.Some? {
        match artifact.value {
          case RunestoneArtifact(runestone) =>
            if runestone.etching.Some? {
              DecipheredHasSupply(tx, runestone);
            }
            head, etch, mint, edicts := ApplyRunestoneParts(runestone, db);
          case CenotaphArtifact(cenotaph) =>
            head, etch, mint := ApplyCenotaphParts(cenotaph, db);
        }
      }
    }

    /** One transaction, in the order of src/db/index.rs:109-146. */
    method IndexTransaction(blockHeight: u64, tx: TxData, db: Database) returns (ghost run: TxRun)
      requires blockHeight == height && Ready(db)
      requires FreshSpend(Now().spent, Now().txIds, tx.txId, tx.inputs) && |tx.outputs| <= U32_MAX
      requires LocationOf(blockHeight, tx).Id() !in Now().runes.Keys + {SELF_ID}
      modifies this`txCache, this`log, this`blockOutputCache, this`runeCache, this`runeTotalMintsCache, dbCache, db
      ensures Valid(db) && Ready(db) && fresh(txCache)
      ensures Follows(run, blockHeight, tx) && log == old(log) + run.All()
      ensures Now().spent == old(Now().spent) + (set o | o in tx.inputs) && Now().txIds == old(Now().txIds) + {tx.txId}
      ensures Now().runes.Keys <= old(Now().runes.Keys) + {LocationOf(blockHeight, tx).Id()}
      ensures old(SuppliesFit(Now().runes)) ==> SuppliesFit(Now().runes)
      ensures EndsAsTold(old(Now()), run, tx.outputs, Runestones.DecipherOf(tx.Scripts()))
      ensures WroteRows(old(Now()), Now(), Location(blockHeight, tx.index, tx.txId))
    {
      hide Valid, Ready, Open, EndsAsTold, WroteRows, FreshSpend, RunFrom, AreEligible, FollowsArtifact, SuppliesFit,
        Runestones.DecipherOf;
      var eligible, first, total := TxOutputs(tx.outputs);
      ghost var begin := BeginTransaction(LocationOf(blockHeight, tx), tx.inputs, eligible, first, total, db);
      var artifact := Runestones.Decipher(tx.Scripts());
      ghost var head, etch, mint, edicts := ApplyArtifact(tx, artifact, db);
      ghost var end := EndTransaction(db);
      run := TxRun(begin, head, etch, mint, edicts, end);
      LegalNow(db);
      assert log == old(log) + run.All();
      TransactionEndsAsTold(start, old(log), run, blockHeight, tx);
      TransactionWritesItsRows(old(Now()), run, blockHeight, tx);
      RunAppend(Init(start), old(log), run.All());
    }

    lemma LegalNow(db: Database)
      requires Valid(db)
      ensures Legal(Init(start), log)
    {
    }

    lemma NoArtifact()
      ensures forall begin, end :: FollowsArtifact(TxRun(begin, [], [], [], [], end), None)
    {
    }

    /** Between blocks the caches hold nothing that the tables do not. */
    lemma IdleParts(db: Database)
      requires Idle(db)
      ensures OutputsOk(Now().hist, db.ledger, past, pastIds, Now().txIds, map[], outputCache)
      ensures LedgerOk(Now().hist, db.View(), NOTHING_PENDING, height)
    {
    }

    /** Starts a block: all rows so far are of earlier or equal height. */
    lemma HeightRises(hist: seq<Entry>, t: Tables, h: u64, k: u64)
      requires LedgerOk(hist, t, NOTHING_PENDING, h) && h <= k
      ensures LedgerOk(hist, t, NOTHING_PENDING, k)
    {
      hide Consistent;
    }

    /** After a block its outputs are those of the past. */
    lemma BlockIsPast(hist: seq<Entry>, ledger: seq<Entry>, past: seq<Entry>, pastIds: set<string>, txIds: set<string>,
                      blockCache: OutputCache, lru: OutputCache, merged: OutputCache)
      requires OutputsOk(hist, ledger, past, pastIds, txIds, blockCache, lru)
      requires forall o :: o in merged ==>
                 || (o in lru && o !in blockCache && merged[o] == lru[o])
                 || (o in blockCache && merged[o] == blockCache[o])
                 || (o in lru && o in blockCache && merged[o] == Extend(lru[o], blockCache[o]))
      ensures OutputsOk(hist, hist, hist, txIds, txIds, map[], merged)
    {
      hide Complete, Faithful;
      var new_ := hist[|past|..];
      assert hist == past + new_;
      MergedIsFaithful(lru, blockCache, merged, past, new_, pastIds);
      assert hist[|hist|..] == [];
      NothingCached();
    }

    lemma NothingCached()
      ensures Complete(map[], [])
    {
    }

    method IndexTransactions(blockHeight: u64, txs: seq<TxData>, db: Database) returns (ghost runs: seq<TxRun>)
      requires blockHeight == height && Ready(db)
      requires FreshBlock(blockHeight, txs, Now().spent, Now().txIds, Now().runes.Keys)
      modifies this`txCache, this`log, this`blockOutputCache, this`runeCache, this`runeTotalMintsCache, dbCache, db
      ensures Ready(db) && (txCache == old(txCache) || fresh(txCache))
      ensures |runs| == |txs| && (forall i :: 0 <= i < |txs| ==> Follows(runs[i], blockHeight, txs[i])) && log == old(log) + Flat(runs)
      ensures old(SuppliesFit(Now().runes)) ==> SuppliesFit(Now().runes)
    {
      hide RunFrom, Core, RunesKnown, CountsKnown, FreshSpend, FreshBlock, Follows, SuppliesFit, TxRun.All, EndsAsTold, WroteRows,
        Runestones.DecipherOf;
      ghost var known := Now().runes.Keys;
      runs := [];
      assert txs[0..] == txs;
      for i := 0 to |txs|
        invariant Ready(db) && (txCache == old(txCache) || fresh(txCache))
        invariant Now().runes.Keys <= known && FreshBlock(blockHeight, txs[i..], Now().spent, Now().txIds, known)
        invariant |runs| == i && (forall k :: 0 <= k < i ==> Follows(runs[k], blockHeight, txs[k])) && log == old(log) + Flat(runs)
        invariant old(SuppliesFit(Now().runes)) ==> SuppliesFit(Now().runes)
      {
        FreshFirst(blockHeight, txs, i, Now().spent, Now().txIds, known);
        ghost var run := IndexTransaction(blockHeight, txs[i], db);
        assert DropLast(runs + [run]) == runs;
        runs := runs + [run];
        known := known + {LocationOf(blockHeight, txs[i]).Id()};
      }
    }

    lemma FreshFirst(h: u64, txs: seq<TxData>, i: nat, spent: set<Outpoint>, txIds: set<string>, known: set<RuneId>)
      requires i < |txs| && FreshBlock(h, txs[i..], spent, txIds, known)
      ensures FreshSpend(spent, txIds, txs[i].txId, txs[i].inputs) && |txs[i].outputs| <= U32_MAX
      ensures LocationOf(h, txs[i]).Id() !in known + {SELF_ID}
      ensures FreshBlock(h, txs[i + 1..], spent + (set o | o in txs[i].inputs), txIds + {txs[i].txId},
                         known + {LocationOf(h, txs[i]).Id()})
    {
      hide FreshSpend;
      assert txs[i..][1..] == txs[i + 1..];
    }

    /** The end of a block: its outputs move to the LRU cache, then everything is flushed (src/db/index.rs:148-153). */
    method EndBlock(db: Database)
      requires Ready(db)
      modifies this`outputCache, this`blockOutputCache, this`past, this`pastIds, dbCache, db
      ensures Idle(db)
    {
      hide RunFrom, RunesKnown, CountsKnown, LedgerOk, OutputsOk, Legal;
      ghost var block, lru, ledger := blockOutputCache, outputCache, db.ledger;
      MoveBlockOutputCacheToOutputCache();
      BlockIsPast(Now().hist, ledger, past, pastIds, Now().txIds, block, lru, outputCache);
      FlushDbCache(db);
      past, pastIds := Now().hist, Now().txIds;
    }

    /** One block: its transactions, then its end. The run grows by the actions of these transactions, and by nothing else. */
    method IndexBlock(blockHeight: u64, txs: seq<TxData>, db: Database) returns (ghost runs: seq<TxRun>)
      requires Idle(db) && height <= blockHeight
      requires FreshBlock(blockHeight, txs, Now().spent, Now().txIds, Now().runes.Keys)
      modifies this, dbCache, db
      ensures Idle(db) && height == blockHeight && (txCache == old(txCache) || fresh(txCache))
      ensures |runs| == |txs| && (forall i :: 0 <= i < |txs| ==> Follows(runs[i], blockHeight, txs[i])) && log == old(log) + Flat(runs)
      ensures old(SuppliesFit(Now().runes)) ==> SuppliesFit(Now().runes)
    {
      hide RunFrom, RunesKnown, CountsKnown, LedgerOk, OutputsOk, Legal, FreshBlock, Follows, Flat, SuppliesFit;
      IdleParts(db);
      HeightRises(Now().hist, db.View(), height, blockHeight);
      height := blockHeight;
      runs := IndexTransactions(blockHeight, txs, db);
      EndBlock(db);
    }

    /** What the tables say between blocks, whatever has been evicted and wherever flushes were forced: the ledger is that of a
        legal run of the reference machine, so it conserves every rune; the cumulative tables are the totals of the ledger; and
        the stored balance of every address is what it holds on unspent outpoints and what was burned from it. */
    lemma TablesTellTheRun(db: Database)
      requires Idle(db)
      ensures Consistent(db.View()) && db.ledger == Now().hist
      ensures forall r :: Conserved(start, Now(), r)
      ensures forall r :: SupplyTells(LatestSupply(db.supply, r), db.ledger, r)
      ensures forall r, a ::
          LatestHolding(db.balances, r, a).balance ==
          Unspent(db.ledger, Now().spent, r, Owner(a)) + RowSum(db.ledger, Burn, r, Owner(a)) >= 0
    {
      hide RunFrom, Legal, OutputsOk, SupplyConsistent, BalancesConsistent, RunesOk, CountsNear, LatestHolding, Conserved,
        OwnerConserved, Unspent, RowSum, UpToHeight, SupplyTells, LatestSupply;
      forall r ensures SupplyTells(LatestSupply(db.supply, r), db.ledger, r) {
        SupplyRowsTell(db.supply, db.ledger, r, height);
      }
      forall r ensures Conserved(start, Now(), r) {
        RunConserves(start, log, r);
      }
      forall r, a
        ensures LatestHolding(db.balances, r, a).balance ==
                Unspent(db.ledger, Now().spent, r, Owner(a)) + RowSum(db.ledger, Burn, r, Owner(a)) >= 0
      {
        RunConservesOwner(start, log, r, a);
        StoredBalanceIsHeld(db.balances, Now(), r, a, height);
      }
    }

    /** Caps are respected by the ledger and by the stored totals. If the supplies the tables started with fit u128, so does
        every amount in circulation of a rune that can be minted out. */
    lemma TablesRespectTheCaps(db: Database)
      requires Idle(db)
      ensures forall r :: r != SELF_ID && r in Now().runes && Now().runes[r].termsCap.Some? ==>
                MintCount(db.ledger, r) <= Now().runes[r].termsCap.value
                && LatestSupply(db.supply, r).totalMints <= Now().runes[r].termsCap.value
      ensures SuppliesFit(Now().runes) ==>
                forall r :: r != SELF_ID && r in Now().runes && IsBounded(Now().runes[r]) ==>
                  Unspent(db.ledger, Now().spent, r, Anyone) <= U128_MAX
    {
      hide RunFrom, Legal, OutputsOk, SupplyConsistent, BalancesConsistent, RunesOk, CountsNear, MintCount, LatestSupply,
        Unspent, IsBounded, MaxSupply;
      forall r | r != SELF_ID && r in Now().runes && Now().runes[r].termsCap.Some?
        ensures MintCount(db.ledger, r) <= Now().runes[r].termsCap.value
        ensures LatestSupply(db.supply, r).totalMints <= Now().runes[r].termsCap.value
      {
        MintCap(start, log, r);
        StoredCountIsTrue(db.supply, db.ledger, r, height);
      }
      forall r | r != SELF_ID && r in Now().runes && IsBounded(Now().runes[r])
        ensures Unspent(db.ledger, Now().spent, r, Anyone) <= MaxSupply(Now().runes[r])
      {
        SupplyBound(start, log, r);
      }
    }

    /** What the latest transactions dropped, exactly: the mints that stood behind a premine of zero of their own transaction. */
    lemma TransactionsDropExactly(db: Database, history: seq<Action>, runs: seq<TxRun>, h: u64, txs: seq<TxData>, rune: RuneId)
      requires Idle(db) && log == history + Flat(runs) && rune != SELF_ID
      requires |runs| == |txs| && forall i :: 0 <= i < |txs| ==> Follows(runs[i], h, txs[i])
      ensures (forall r :: r in runs ==> Shaped(r))
              && DroppedSum(Now().lost, rune) == DroppedSum(RunFrom(Init(start), history).lost, rune) + RunDrop(runs, rune)
    {
      hide RunFrom, Legal, OutputsOk, LedgerOk, RunesOk, CountsNear, Follows, Shaped, Flat, RunDrop, DroppedSum;
      forall r | r in runs ensures Shaped(r) {
        var i :| 0 <= i < |runs| && runs[i] == r;
        FollowsIsShaped(r, h, txs[i]);
      }
      MoreDropsExactly(start, history, runs, rune);
    }

    /** Every mint in the run this index has followed took its true step, if its rune was the first of its name and no cenotaph had
        minted it: it was not skipped, and it wrote its row if and only if the cap was not reached and the windows were open. */
    lemma MintsWereHonoured(db: Database, i: nat, rune: RuneId, cenotaph: bool)
      requires Idle(db) && FlaggedHaveNoTerms(start)
      requires i < |log| && IsMintAttempt(log[i], rune, cenotaph)
      requires var s := RunFrom(Init(start), log[..i]); rune !in s.late && CenotaphMintCount(s.issued, rune) == 0
      ensures var s, t := RunFrom(Init(start), log[..i]), RunFrom(Init(start), log[..i + 1]);
              && StepOf(s.tx, log[i]) == TrueMint(s, rune, cenotaph)
              && (!cenotaph && rune != SELF_ID ==>
                    MintCount(t.hist, rune) == MintCount(s.hist, rune)
                    + if rune in s.runes && IsRuneMintable(s.runes[rune], MintCount(s.hist, rune), s.tx.loc.height) then 1 else 0)
    {
      hide RunFrom, Legal, OutputsOk, LedgerOk, RunesOk, CountsNear, MintCount, CenotaphMintCount, FlaggedHaveNoTerms, IsRuneMintable,
        TrueMint, StepOf;
      MintIsHonoured(start, log, i, rune, cenotaph);
    }

    /** And every edict was followed if its rune was the first of its name. */
    lemma EdictsWereFollowed(db: Database, i: nat, edict: Edict)
      requires Idle(db) && i < |log| && IsEdictAttempt(log[i], edict)
      requires edict.id !in RunFrom(Init(start), log[..i]).late
      ensures log[i] == if CanBeFound(RunFrom(Init(start), log[..i]), edict.id) then DoEdict(edict) else SkipEdict(edict)
    {
      hide RunFrom, Legal, OutputsOk, LedgerOk, RunesOk, CountsNear;
      EdictIsFollowed(start, log, i, edict);
    }

    /** Between blocks the table has exactly the runes that were first to their names. */
    lemma TableHasFirstRunes(db: Database, rune: RuneId)
      requires Idle(db)
      ensures rune in db.runes <==> rune in Now().runes && !CameLater(start, log, rune)
      ensures rune in db.runes ==> SameRune(db.runes[rune], Now().runes[rune])
    {
      hide RunFrom, Legal, OutputsOk, LedgerOk, CountsNear, CameLater, Stored, SameRune;
      StoredRunes(Now().runes, Now().late, db.runes, rune);
      if rune in Now().runes {
        LateExactly(start, log, rune);
      }
    }
  }
}
