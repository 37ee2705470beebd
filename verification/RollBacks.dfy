/** Rolling blocks back undoes indexing them, in whatever order the heights are dropped. */
module RollBacks {
  import opened Basics
  import opened Ledger
  import opened Transactions
  import opened Tables
  import opened TableLaws

  /** Everything in a batch of pending rows is of one height. */
  ghost predicate PendingAt(p: Pending, h: u64) {
    && AtHeight(p.entries, h)
    && (forall r :: r in p.runes ==> r.height == h)
    && (forall r :: r in p.supply ==> p.supply[r].height == h)
    && (forall k :: k in p.increases ==> p.increases[k].height == h)
    && (forall k :: k in p.deductions ==> p.deductions[k].height == h)
  }

  lemma {:induction false} FoldsAtHeight(runes: seq<DbRune>, es: seq<Entry>, h: u64)
    requires AtHeight(es, h) && forall r :: r in runes ==> r.height == h
    ensures PendingAt(PendingOf(runes, es), h)
  {
    if es != [] {
      FoldsAtHeight(runes, DropLast(es), h);
      assert Last(es) in es;
    }
  }

  lemma {:induction false} LedgerAppend(a: seq<Entry>, b: seq<Entry>, hs: set<u64>)
    ensures LedgerWithout(a + b, hs) == LedgerWithout(a, hs) + LedgerWithout(b, hs)
  {
    if b == [] {
      assert a + b == a;
    } else {
      assert DropLast(a + b) == a + DropLast(b);
      LedgerAppend(a, DropLast(b), hs);
      var last := if Last(b).height in hs then [] else [Last(b)];
      var front, back := LedgerWithout(a, hs), LedgerWithout(DropLast(b), hs);
      assert LedgerWithout(b, hs) == back + last;
      assert LedgerWithout(a + b, hs) == (front + back) + last;
      assert (front + back) + last == front + (back + last);
    }
  }

  lemma {:induction false} LedgerAllOf(es: seq<Entry>, hs: set<u64>)
    ensures (forall e :: e in es ==> e.height in hs) ==> LedgerWithout(es, hs) == []
    ensures (forall e :: e in es ==> e.height !in hs) ==> LedgerWithout(es, hs) == es
  {
    if es != [] {
      LedgerAllOf(DropLast(es), hs);
      assert es == DropLast(es) + [Last(es)];
      assert Last(es) in es;
    }
  }

  lemma {:induction false} LedgerTwice(es: seq<Entry>, a: set<u64>, b: set<u64>)
    ensures LedgerWithout(LedgerWithout(es, a), b) == LedgerWithout(es, a + b)
  {
    if es != [] {
      LedgerTwice(DropLast(es), a, b);
      if Last(es).height !in a {
        LedgerAppend(LedgerWithout(DropLast(es), a), [Last(es)], b);
        assert DropLast([Last(es)]) == [];
      } else {
        assert LedgerWithout(es, a) == LedgerWithout(DropLast(es), a);
      }
    }
  }

  lemma {:induction false} RunesUntouched(t: map<RuneId, DbRune>, rows: seq<DbRune>, hs: set<u64>)
    requires forall r :: r in rows ==> r.height in hs
    ensures var u := InsertRunes(t, rows);
            (map r | r in u && u[r].height !in hs :: u[r]) == (map r | r in t && t[r].height !in hs :: t[r])
  {
    if rows != [] {
      RunesUntouched(t, DropLast(rows), hs);
      assert Last(rows) in rows;
    }
  }

  lemma SupplyUntouched(t: map<(RuneId, u64), Supply>, changes: SupplyChanges, hs: set<u64>)
    requires forall r :: r in changes ==> changes[r].height in hs
    ensures var u := InsertSupply(t, changes);
            (map k | k in u && k.1 !in hs :: u[k]) == (map k | k in t && k.1 !in hs :: t[k])
  {
    hide LatestSupply;
  }

  lemma BalancesUntouched(t: map<(RuneId, u64, Address), Holding>, changes: BalanceChanges, increase: bool, hs: set<u64>)
    requires forall k :: k in changes ==> changes[k].height in hs
    ensures var u := InsertBalances(t, changes, increase);
            (map k | k in u && k.1 !in hs :: u[k]) == (map k | k in t && k.1 !in hs :: t[k])
  {
    hide LatestHolding;
  }

  /** A flush touches only rows of its own height. */
  lemma FlushUntouched(t: Tables, p: Pending, h: u64, hs: set<u64>)
    requires PendingAt(p, h) && h in hs
    ensures Without(Flushed(t, p), hs) == Without(t, hs)
  {
    hide InsertSupply, InsertBalances, InsertRunes;
    RunesUntouched(t.runes, p.runes, hs);
    SupplyUntouched(t.supply, p.supply, hs);
    BalancesUntouched(t.balances, p.increases, true, hs);
    BalancesUntouched(InsertBalances(t.balances, p.increases, true), p.deductions, false, hs);
    LedgerAppend(t.ledger, p.entries, hs);
    LedgerAllOf(p.entries, hs);
  }

  lemma WithoutTwice(t: Tables, a: set<u64>, b: set<u64>)
    ensures Without(Without(t, a), b) == Without(t, a + b)
  {
    LedgerTwice(t.ledger, a, b);
  }

  /** Rows of some heights are absent. */
  ghost predicate Absent(t: Tables, hs: set<u64>) {
    && (forall r :: r in t.runes ==> t.runes[r].height !in hs)
    && (forall e :: e in t.ledger ==> e.height !in hs)
    && (forall k :: k in t.supply ==> k.1 !in hs)
    && (forall k :: k in t.balances ==> k.1 !in hs)
  }

  lemma WithoutAbsent(t: Tables, hs: set<u64>)
    requires Absent(t, hs)
    ensures Without(t, hs) == t
  {
    hide LedgerWithout;
    LedgerAllOf(t.ledger, hs);
    var u := Without(t, hs);
    assert u.runes == t.runes;
    assert u.supply == t.supply;
    assert u.balances == t.balances;
  }

  /** A block: its height and what is indexed between its flushes. */
  datatype Block = Block(height: u64, segments: seq<Segment>)

  ghost predicate BlockAt(b: Block) {
    forall s :: s in b.segments ==> AtHeight(s.entries, b.height) && forall r :: r in s.runes ==> r.height == b.height
  }

  ghost function IndexBlocks(t: Tables, blocks: seq<Block>): Tables {
    if blocks == [] then t else FlushAll(IndexBlocks(t, DropLast(blocks)), Last(blocks).segments)
  }

  function Members(heights: seq<u64>): set<u64> {
    set h | h in heights
  }

  /** `drop_blocks`, for any list of heights. */
  function RollBackAll(t: Tables, heights: seq<u64>): Tables {
    if heights == [] then t else RollBack(RollBackAll(t, DropLast(heights)), Last(heights))
  }

  lemma {:induction false} SegmentsUntouched(t: Tables, b: Block, hs: set<u64>)
    requires BlockAt(b) && b.height in hs
    ensures Without(FlushAll(t, b.segments), hs) == Without(t, hs)
    decreases |b.segments|
  {
    hide Without, Flushed, PendingOf;
    if b.segments != [] {
      var init, last := Block(b.height, DropLast(b.segments)), Last(b.segments);
      assert last in b.segments;
      SegmentsUntouched(t, init, hs);
      FoldsAtHeight(last.runes, last.entries, b.height);
      FlushUntouched(FlushAll(t, init.segments), PendingOf(last.runes, last.entries), b.height, hs);
    }
  }

  lemma {:induction false} BlocksUntouched(t: Tables, blocks: seq<Block>, hs: set<u64>)
    requires forall b :: b in blocks ==> BlockAt(b) && b.height in hs
    ensures Without(IndexBlocks(t, blocks), hs) == Without(t, hs)
  {
    hide Without, FlushAll, BlockAt;
    if blocks != [] {
      assert Last(blocks) in blocks;
      BlocksUntouched(t, DropLast(blocks), hs);
      SegmentsUntouched(IndexBlocks(t, DropLast(blocks)), Last(blocks), hs);
    }
  }

  lemma {:induction false} RollBackAllIs(t: Tables, heights: seq<u64>)
    ensures RollBackAll(t, heights) == Without(t, Members(heights))
  {
    hide Without, Absent;
    if heights == [] {
      var none := Members(heights);
      assert none == {};
      NothingAbsent(t);
      WithoutAbsent(t, none);
    } else {
      var init, last := DropLast(heights), Last(heights);
      RollBackAllIs(t, init);
      var some, all := Members(init), Members(heights);
      WithoutTwice(t, some, {last});
      assert heights == init + [last];
      assert all == some + {last};
      assert RollBackAll(t, init) == Without(t, some);
    }
  }

  lemma NothingAbsent(t: Tables)
    ensures Absent(t, {})
  {
  }

  /** Index any blocks, with flushes anywhere inside them, then drop their heights in any order, possibly more than once: all four
      tables are exactly what they were if and only if they had no row at a dropped height. */
  lemma RollBackIsInverse(t: Tables, blocks: seq<Block>, heights: seq<u64>)
    requires forall b :: b in blocks ==> BlockAt(b) && b.height in heights
    ensures RollBackAll(IndexBlocks(t, blocks), heights) == t <==> Absent(t, Members(heights))
  {
    hide Without, Absent, BlockAt;
    var hs := Members(heights);
    RollBackAllIs(IndexBlocks(t, blocks), heights);
    BlocksUntouched(t, blocks, hs);
    NothingRemains(t, hs);
    if Absent(t, hs) {
      WithoutAbsent(t, hs);
    }
  }

  lemma NothingRemains(t: Tables, hs: set<u64>)
    ensures Absent(Without(t, hs), hs)
  {
    KeptAreOthers(t.ledger, hs);
  }

  lemma {:induction false} KeptAreOthers(es: seq<Entry>, hs: set<u64>)
    ensures forall e :: e in LedgerWithout(es, hs) ==> e in es && e.height !in hs
  {
    if es != [] {
      KeptAreOthers(DropLast(es), hs);
    }
  }

  // ----- The tables as they are shipped -----

  /** The one rune that the migration inserts (migrations/V1__runes.sql:26-36). */
  const UNCOMMON_GOODS := DbRune(RuneId(1, 0), 2055900680524219742, 0, Some(1), Some(U128_MAX), Some(840000), Some(1050000),
                                 None, None, 840000, false)
  const SHIPPED := Tables(map[RuneId(1, 0) := UNCOMMON_GOODS], [], map[], map[])

  /** That rune has the height of a block that can be dropped, and then it is gone for good. */
  lemma UncommonGoodsIsDropped(blocks: seq<Block>, heights: seq<u64>)
    requires 840000 in heights && forall b :: b in blocks ==> BlockAt(b) && b.height in heights
    ensures RollBackAll(IndexBlocks(SHIPPED, blocks), heights) == Tables(map[], [], map[], map[])
  {
    hide RollBackAll, IndexBlocks, BlockAt;
    RollBackAllIs(IndexBlocks(SHIPPED, blocks), heights);
    BlocksUntouched(SHIPPED, blocks, Members(heights));
  }

  /** Whoever drops a height drops all later ones that have rows. */
  ghost predicate UpwardClosed(es: seq<Entry>, hs: set<u64>) {
    forall e, h :: e in es && h in hs && h <= e.height ==> e.height in hs
  }

  /** Dropping heights from some point on, in any order, leaves tables that are again a function of their ledger, so later
      cumulative rows restart from the right totals. */
  lemma RollBackIsConsistent(t: Tables, heights: seq<u64>)
    requires Consistent(t) && UpwardClosed(t.ledger, Members(heights))
    ensures Consistent(RollBackAll(t, heights))
  {
    hide SupplyUpTo, NetUpTo, Sum, UpwardClosed, RollBackAll;
    RollBackAllIs(t, heights);
    var hs := Members(heights);
    var u := Without(t, hs);
    forall r, k: u64
      ensures (r, k) in u.supply <==> Sum(u.ledger, RowAt(r, k)) > 0
      ensures (r, k) in u.supply ==> u.supply[(r, k)] == SupplyUpTo(u.ledger, r, k)
    {
      CutSupply(t.ledger, hs, r, k);
      if (r, k) in u.supply {
        RowAtPositive(t.ledger, r, k);
        DroppedLater(t.ledger, hs, k);
      }
    }
    forall r, k: u64, a
      ensures (r, k, a) in u.balances <==> Sum(u.ledger, TransferAt(r, k, a)) > 0
      ensures (r, k, a) in u.balances ==> u.balances[(r, k, a)].balance == NetUpTo(u.ledger, r, a, k)
    {
      CutNet(t.ledger, hs, r, k, a);
      if (r, k, a) in u.balances {
        TransferAtPositive(t.ledger, r, k, a);
        DroppedLater(t.ledger, hs, k);
      }
    }
  }

  /** Rows that are dropped are later than a row that stays. */
  lemma DroppedLater(es: seq<Entry>, hs: set<u64>, k: u64)
    requires UpwardClosed(es, hs) && k !in hs && exists e :: e in es && e.height == k
    ensures CutAbove(es, hs, k)
  {
    var e :| e in es && e.height == k;
    forall d | d in es && d.height in hs ensures d.height > k {
      assert d.height <= e.height ==> e.height in hs;
    }
  }

  ghost predicate CutAbove(es: seq<Entry>, hs: set<u64>, k: u64) {
    forall e :: e in es && e.height in hs ==> e.height > k
  }

  lemma EmptyCut(r: RuneId, k: u64, a: Address)
    ensures Sum([], RowAt(r, k)) == 0 && Sum([], TransferAt(r, k, a)) == 0 && NetUpTo([], r, a, k) == 0
  {
  }

  lemma NetSnoc(es: seq<Entry>, e: Entry, r: RuneId, a: Address, k: u64)
    ensures NetUpTo(es + [e], r, a, k) == NetUpTo(es, r, a, k) + if IsTransfer(e, r, a) && e.height <= k then Signed(e) else 0
  {
    assert DropLast(es + [e]) == es;
  }

  lemma {:induction false} CutSupply(es: seq<Entry>, hs: set<u64>, r: RuneId, k: u64)
    ensures Sum(LedgerWithout(es, hs), RowAt(r, k)) == if k in hs then 0 else Sum(es, RowAt(r, k))
    ensures CutAbove(es, hs, k) ==> SupplyUpTo(LedgerWithout(es, hs), r, k) == SupplyUpTo(es, r, k)
  {
    hide Sum, SupplyUpTo, Plus, RowSupply;
    if es == [] {
      EmptyCut(r, k, "");
    } else {
      assert Last(es) in es;
      CutSupply(DropLast(es), hs, r, k);
      var cut := LedgerWithout(DropLast(es), hs);
      assert es == DropLast(es) + [Last(es)];
      SumSnoc(DropLast(es), Last(es), RowAt(r, k));
      SupplySnoc(DropLast(es), Last(es), r, k);
      PlusZero(SupplyUpTo(DropLast(es), r, k));
      SumSnoc(cut, Last(es), RowAt(r, k));
      SupplySnoc(cut, Last(es), r, k);
      assert LedgerWithout(es, hs) == if Last(es).height in hs then cut else cut + [Last(es)];
    }
  }

  lemma {:induction false} CutNet(es: seq<Entry>, hs: set<u64>, r: RuneId, k: u64, a: Address)
    ensures Sum(LedgerWithout(es, hs), TransferAt(r, k, a)) == if k in hs then 0 else Sum(es, TransferAt(r, k, a))
    ensures CutAbove(es, hs, k) ==> NetUpTo(LedgerWithout(es, hs), r, a, k) == NetUpTo(es, r, a, k)
  {
    hide Sum, NetUpTo, Signed, IsTransfer;
    if es == [] {
      EmptyCut(r, k, a);
    } else {
      assert Last(es) in es;
      CutNet(DropLast(es), hs, r, k, a);
      var cut := LedgerWithout(DropLast(es), hs);
      assert es == DropLast(es) + [Last(es)];
      SumSnoc(DropLast(es), Last(es), TransferAt(r, k, a));
      NetSnoc(DropLast(es), Last(es), r, a, k);
      SumSnoc(cut, Last(es), TransferAt(r, k, a));
      NetSnoc(cut, Last(es), r, a, k);
      assert LedgerWithout(es, hs) == if Last(es).height in hs then cut else cut + [Last(es)];
    }
  }
}
