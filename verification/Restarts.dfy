/** Dropping blocks and going on: a new process reads everything from the tables (src/scan/bitcoin.rs:23-27,
    src/db/cache/index_cache.rs:50-76), the running one keeps its caches (src/service.rs:153-180). */
module Restarts {
  import opened Basics
  import opened Ledger
  import opened Artifacts
  import opened Transactions
  import opened TransactionLaws
  import opened Outputs
  import opened Machine
  import opened TxRuns
  import opened NameLaws
  import opened Conservation
  import opened Tables
  import opened TableLaws
  import opened CacheLaws
  import opened RollBacks
  import opened Databases
  import opened IndexCaches

  // ----- What part of a run adds -----

  /** All transactions are of heights from `lo` on and below `hi`. */
  ghost predicate BetweenHeights(actions: seq<Action>, lo: nat, hi: nat) {
    && (actions != [] ==> actions[0].Begin?)
    && forall a :: a in actions && a.Begin? ==> lo <= a.loc.height < hi
  }

  /** From one state to another only rows and runes of these heights came, the latter perhaps too late for their names. */
  ghost predicate Adds(s: State, t: State, lo: nat, hi: nat) {
    && s.hist <= t.hist && s.txIds <= t.txIds
    && (forall e :: e in t.hist[|s.hist|..] ==> lo <= e.height < hi && e.txId in t.txIds)
    && (forall r :: r in s.runes ==> r in t.runes && t.runes[r] == s.runes[r])
    && (forall r :: r in t.runes && r !in s.runes ==> lo <= t.runes[r].height < hi)
    && (forall r :: r in s.runes ==> (r in t.late <==> r in s.late))
  }

  ghost predicate InTx(t: State, lo: nat, hi: nat) {
    lo <= t.tx.loc.height < hi && t.tx.loc.txId in t.txIds
  }

  lemma AddsNothing(s: State, lo: nat, hi: nat)
    ensures Adds(s, s, lo, hi)
  {
  }

  lemma ActionAdds(s: State, t: State, a: Action, lo: nat, hi: nat)
    requires Adds(s, t, lo, hi) && Enabled(t, a)
    requires if a.Begin? then lo <= a.loc.height < hi else InTx(t, lo, hi)
    ensures Adds(s, Apply(t, a), lo, hi) && InTx(Apply(t, a), lo, hi)
  {
    hide StepOf, IsLookup, Gather, HasName, RunesAfter, LateAfter, FreshSpend;
    var u := Apply(t, a);
    ApplyNames(t, a);
    if !a.Begin? {
      StepRows(t.tx, a);
      var rows := StepOf(t.tx, a).entries;
      RowsOfTx(rows, t.tx.loc, t.tx.nextEvent);
      assert u.hist[|s.hist|..] == t.hist[|s.hist|..] + rows;
    }
    if a.DoEtch? || a.DoEtchCenotaph? {
      var rune := EtchingIs(t, a);
      EtchedHeight(t, a, rune);
    }
  }

  lemma EtchedHeight(s: State, a: Action, rune: DbRune)
    requires Etches(s, a, rune)
    ensures rune.height == s.tx.loc.height
  {
  }

  lemma {:induction false} RunAdds(s: State, actions: seq<Action>, lo: nat, hi: nat)
    requires Legal(s, actions) && BetweenHeights(actions, lo, hi)
    ensures Adds(s, RunFrom(s, actions), lo, hi)
    ensures actions != [] ==> InTx(RunFrom(s, actions), lo, hi)
  {
    hide Enabled, Apply, Adds, InTx;
    if actions == [] {
      AddsNothing(s, lo, hi);
    } else {
      var init := DropLast(actions);
      assert init != [] ==> init[0] == actions[0];
      assert init == [] ==> Last(actions) == actions[0];
      assert Last(actions) in actions;
      RunAdds(s, init, lo, hi);
      ActionAdds(s, RunFrom(s, init), Last(actions), lo, hi);
    }
  }

  // ----- The tables of a run cut at a height -----

  /** The heights `lo` to `hi` - 1. */
  ghost predicate CoversFrom(hs: set<u64>, lo: nat, hi: nat) {
    forall k: u64 :: k in hs <==> lo <= k < hi
  }

  lemma CutLedger(s: State, t: State, hs: set<u64>, lo: nat, hi: nat)
    requires Adds(s, t, lo, hi) && CoversFrom(hs, lo, hi) && forall e :: e in s.hist ==> e.height < lo
    ensures LedgerWithout(t.hist, hs) == s.hist && UpwardClosed(t.hist, hs)
  {
    hide LedgerWithout;
    var more := t.hist[|s.hist|..];
    assert t.hist == s.hist + more;
    AddedRows(s, t, hs, lo, hi);
    CutRows(s.hist, more, hs);
    LaterIsUpward(s.hist, more, hs, lo, hi);
  }

  lemma AddedRows(s: State, t: State, hs: set<u64>, lo: nat, hi: nat)
    requires Adds(s, t, lo, hi) && CoversFrom(hs, lo, hi) && forall e :: e in s.hist ==> e.height < lo
    ensures forall e :: e in t.hist[|s.hist|..] ==> e.height in hs
    ensures forall e :: e in s.hist ==> e.height !in hs
  {
  }

  lemma CutRows(rest: seq<Entry>, more: seq<Entry>, hs: set<u64>)
    requires (forall e :: e in more ==> e.height in hs) && forall e :: e in rest ==> e.height !in hs
    ensures LedgerWithout(rest + more, hs) == rest
  {
    hide LedgerWithout;
    LedgerAppend(rest, more, hs);
    LedgerAllOf(rest, hs);
    LedgerAllOf(more, hs);
  }

  lemma LaterIsUpward(rest: seq<Entry>, more: seq<Entry>, hs: set<u64>, lo: nat, hi: nat)
    requires CoversFrom(hs, lo, hi)
    requires (forall e :: e in more ==> e.height in hs) && forall e :: e in rest ==> e.height < lo
    ensures UpwardClosed(rest + more, hs)
  {
  }

  lemma CutRunes(s: State, t: State, table: map<RuneId, DbRune>, hs: set<u64>, lo: nat, hi: nat)
    requires Adds(s, t, lo, hi) && CoversFrom(hs, lo, hi) && forall r :: r in s.runes ==> s.runes[r].height < lo
    requires s.late <= s.runes.Keys && AllHaveHolders(s.runes, s.late) && Stored(t.runes, t.late, table, [])
    ensures Stored(s.runes, s.late, map r | r in table && table[r].height !in hs :: table[r], [])
  {
    hide AllHaveHolders, InsertRunes;
    var cut := map r | r in table && table[r].height !in hs :: table[r];
    NoRows(table);
    NoRows(cut);
    forall r ensures r in cut <==> r in s.runes && r !in s.late {
      if r in table {
        assert SameRune(table[r], t.runes[r]) && table[r].height == t.runes[r].height;
      }
    }
  }

  /** Tables that tell a run, once the heights from some point on are dropped, tell the run up to that point: no rune known from
      the start may be of a dropped height. */
  lemma CutTables(start: map<RuneId, DbRune>, kept: seq<Action>, dropped: seq<Action>, t: Tables, height: u64,
                  hs: set<u64>, lo: u64, hi: nat)
    requires Legal(Init(start), kept + dropped) && TablesOf(t, RunFrom(Init(start), kept + dropped), height)
    requires BetweenHeights(kept, 0, lo) && BetweenHeights(dropped, lo, hi) && RunFrom(Init(start), kept).tx.inputs == map[]
    requires CoversFrom(hs, lo, hi) && forall r :: r in start ==> start[r].height < lo
    requires Consistent(Without(t, hs))
    ensures Legal(Init(start), kept)
    ensures TablesOf(Without(t, hs), RunFrom(Init(start), kept), if lo == 0 then 0 else lo - 1)
  {
    hide Legal, RunFrom, Adds, CoversFrom, LedgerWithout, Consistent, Stored, AllHaveHolders;
    var s := RunFrom(Init(start), kept);
    RunAppend(Init(start), kept, dropped);
    RunAdds(Init(start), kept, 0, lo);
    RunAdds(s, dropped, lo, hi);
    KeptIsEarlier(start, s, lo);
    RunKeepsNames(start, kept);
    CutLedger(s, RunFrom(s, dropped), hs, lo, hi);
    CutRunes(s, RunFrom(s, dropped), t.runes, hs, lo, hi);
  }

  lemma KeptIsEarlier(start: map<RuneId, DbRune>, s: State, lo: nat)
    requires Adds(Init(start), s, 0, lo) && forall r :: r in start ==> start[r].height < lo
    ensures forall e :: e in s.hist ==> e.height < lo && e.txId in s.txIds
    ensures forall r :: r in s.runes ==> s.runes[r].height < lo
  {
    assert s.hist[0..] == s.hist;
  }

  // ----- A new process -----

  function Heights(lo: u64, hi: nat): (hs: seq<u64>)
    requires hi <= U64_MAX + 1
    decreases hi
  {
    if lo < hi then Heights(lo, hi - 1) + [hi - 1] else []
  }

  lemma {:induction false} HeightsCover(lo: u64, hi: nat)
    requires hi <= U64_MAX + 1
    ensures CoversFrom(Members(Heights(lo, hi)), lo, hi)
    decreases hi
  {
    var hs := Heights(lo, hi);
    if lo < hi {
      HeightsCover(lo, hi - 1);
      forall k: u64 ensures k in Members(hs) <==> lo <= k < hi {
        assert k in Members(hs) <==> k in Heights(lo, hi - 1) || k == hi - 1;
        assert k in Members(Heights(lo, hi - 1)) <==> k in Heights(lo, hi - 1);
      }
    }
  }

  /** `drop_blocks`, up to and including the last block. */
  method DropBlocks(startBlock: u64, endBlock: u64, db: Database)
    modifies db
    ensures db.View() == RollBackAll(old(db.View()), Heights(startBlock, endBlock + 1))
  {
    hide RollBack;
    var block: nat := startBlock;
    while block <= endBlock
      invariant block <= endBlock + 1 || block == startBlock
      invariant db.View() == RollBackAll(old(db.View()), Heights(startBlock, block))
    {
      db.PgRollBackBlock(block);
      block := block + 1;
    }
  }

  lemma DropTables(start: map<RuneId, DbRune>, kept: seq<Action>, dropped: seq<Action>, t: Tables, height: u64, lo: u64, hi: nat)
    requires Legal(Init(start), kept + dropped) && TablesOf(t, RunFrom(Init(start), kept + dropped), height)
    requires BetweenHeights(kept, 0, lo) && BetweenHeights(dropped, lo, hi) && RunFrom(Init(start), kept).tx.inputs == map[]
    requires hi <= U64_MAX + 1 && forall r :: r in start ==> start[r].height < lo
    ensures Legal(Init(start), kept)
    ensures TablesOf(RollBackAll(t, Heights(lo, hi)), RunFrom(Init(start), kept), if lo == 0 then 0 else lo - 1)
  {
    hide Legal, RunFrom, LedgerWithout, Consistent, Stored, CoversFrom, RollBackAll, Adds;
    var hs := Members(Heights(lo, hi));
    HeightsCover(lo, hi);
    RollBackAllIs(t, Heights(lo, hi));
    RunIsUpward(start, kept, dropped, hs, lo, hi);
    RollBackIsConsistent(t, Heights(lo, hi));
    CutTables(start, kept, dropped, t, height, hs, lo, hi);
  }

  lemma RunIsUpward(start: map<RuneId, DbRune>, kept: seq<Action>, dropped: seq<Action>, hs: set<u64>, lo: u64, hi: nat)
    requires Legal(Init(start), kept + dropped) && BetweenHeights(kept, 0, lo) && BetweenHeights(dropped, lo, hi)
    requires CoversFrom(hs, lo, hi) && forall r :: r in start ==> start[r].height < lo
    ensures UpwardClosed(RunFrom(Init(start), kept + dropped).hist, hs)
  {
    hide Legal, RunFrom, CoversFrom, Adds, LedgerWithout;
    var s := RunFrom(Init(start), kept);
    RunAppend(Init(start), kept, dropped);
    RunAdds(Init(start), kept, 0, lo);
    RunAdds(s, dropped, lo, hi);
    KeptIsEarlier(start, s, lo);
    CutLedger(s, RunFrom(s, dropped), hs, lo, hi);
  }

  /** A new process over the tables another index left between two blocks carries on that one's run. */
  method Resume(db: Database, ghost other: IndexCache) returns (index: IndexCache)
    requires other.Idle(db)
    ensures index.Idle(db) && index.log == other.log && index.start == other.start && index.height == other.height
    ensures fresh(index) && fresh(index.txCache) && fresh(index.dbCache)
  {
    hide Legal, RunFrom, TablesOf;
    other.IdleTables(db);
    index := new IndexCache.Over(db, other.start, other.log, other.height);
  }

  /** A new process over tables from which all blocks from one on were dropped carries on the run as it was before that block. */
  method ResumeBefore(startBlock: u64, endBlock: u64, db: Database,
                      ghost other: IndexCache, ghost kept: seq<Action>, ghost dropped: seq<Action>)
    returns (index: IndexCache)
    requires other.Idle(db) && other.log == kept + dropped && RunFrom(Init(other.start), kept).tx.inputs == map[]
    requires BetweenHeights(kept, 0, startBlock) && BetweenHeights(dropped, startBlock, endBlock + 1)
    requires forall r :: r in other.start ==> other.start[r].height < startBlock
    modifies db
    ensures index.Idle(db) && index.log == kept && index.start == other.start
    ensures fresh(index) && fresh(index.txCache) && fresh(index.dbCache)
  {
    hide Legal, RunFrom, TablesOf, RollBackAll, BetweenHeights, Heights;
    other.IdleTables(db);
    DropTables(other.start, kept, dropped, db.View(), other.height, startBlock, endBlock + 1);
    DropBlocks(startBlock, endBlock, db);
    index := new IndexCache.Over(db, other.start, kept, if startBlock == 0 then 0 else startBlock - 1);
  }

  // ----- The running process -----

  /** An LRU cache that is kept while blocks are dropped is right about the rest if and only if it holds nothing received in
      them. */
  lemma KeptCacheIsFaithful(lru: OutputCache, rest: seq<Entry>, dropped: seq<Entry>)
    requires Faithful(lru, rest + dropped)
    ensures Faithful(lru, rest) <==> forall o, r :: o in lru ==> ReceivesAt(dropped, o, r) == []
  {
    hide ReceivesAt;
    if Faithful(lru, rest) {
      forall o, r | o in lru ensures ReceivesAt(dropped, o, r) == [] {
        KeptEntry(lru, rest, dropped, o, r);
        assert Queue(lru[o], r) == ReceivesAt(rest, o, r);
      }
    } else {
      var o, r :| o in lru && Queue(lru[o], r) != ReceivesAt(rest, o, r);
      KeptEntry(lru, rest, dropped, o, r);
    }
  }

  lemma KeptEntry(lru: OutputCache, rest: seq<Entry>, dropped: seq<Entry>, o: Outpoint, r: RuneId)
    requires Faithful(lru, rest + dropped) && o in lru
    ensures Queue(lru[o], r) == ReceivesAt(rest, o, r) <==> ReceivesAt(dropped, o, r) == []
  {
    hide ReceivesAt;
    ReceivesAppend(rest, dropped, o, r);
    SamePlusNothing(ReceivesAt(rest, o, r), ReceivesAt(dropped, o, r));
  }

  lemma SamePlusNothing<T>(a: seq<T>, b: seq<T>)
    ensures a + b == a <==> b == []
  {
    assert |a + b| == |a| + |b|;
  }

  /** When a dropped transaction is mined again and its outpoint is still in the LRU cache, the end of the block extends the old
      entry by the new one (src/db/cache/utils.rs:89-96): every balance on the outpoint is there twice. */
  lemma MinedAgainDoubles(lru: OutputCache, rest: seq<Entry>, rows: seq<Entry>, restIds: set<string>, block: OutputCache,
                          o: Outpoint, r: RuneId)
    requires Split(rest, rows, restIds) && Faithful(lru, rest + rows) && Complete(block, rows)
    requires o in lru && o in block && o.txId !in restIds
    ensures var once, merged := ReceivesAt(rest + rows, o, r), Extend(lru[o], block[o]);
            Queue(merged, r) == once + once && Total(Queue(merged, r)) == 2 * Total(once)
  {
    hide ReceivesAt;
    OldOutpoint(rest, rows, restIds, o, r);
    assert Queue(CachedAt(block, o), r) == ReceivesAt(rows, o, r);
    var once := ReceivesAt(rest + rows, o, r);
    assert Queue(lru[o], r) == once;
    SumAppend(once, once, HeldBy(Anyone));
  }
}
