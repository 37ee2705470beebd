/** What the operation count of a balance counts: the flush sides that touched it (src/db/mod.rs:218-282,
    src/db/cache/db_cache.rs:39-91). */
module FlushCounts {
  import opened Basics
  import opened Ledger
  import opened Transactions
  import opened Tables
  import opened TableLaws

  /** Some row of this operation moves this rune from or to this address. */
  ghost predicate HasRow(es: seq<Entry>, op: Operation, rune: RuneId, a: Address) {
    exists e :: e in es && e.operation == op && e.rune == rune && e.address == Some(a)
  }

  lemma {:induction false} FoldHasRow(es: seq<Entry>, op: Operation, rune: RuneId, a: Address)
    ensures (rune, a) in BalanceFold(es, op) <==> HasRow(es, op, rune, a)
  {
    if es != [] {
      FoldHasRow(DropLast(es), op, rune, a);
      assert es == DropLast(es) + [Last(es)];
    }
  }

  /** The flushes with a Receive row of the key, and those with a Send row of it. */
  ghost function Flushes(segments: seq<Segment>, rune: RuneId, a: Address): nat {
    if segments == [] then 0
    else
      Flushes(DropLast(segments), rune, a)
      + (if HasRow(Last(segments).entries, Receive, rune, a) then 1 else 0)
      + (if HasRow(Last(segments).entries, Send, rune, a) then 1 else 0)
  }

  ghost predicate NoneLater(t: map<(RuneId, u64, Address), Holding>, h: u64) {
    forall k :: k in t ==> k.1 <= h
  }

  /** One side of a flush counts once for each key it touches. */
  lemma InsertCounts(t: map<(RuneId, u64, Address), Holding>, changes: BalanceChanges, increase: bool, h: u64, r: RuneId, a: Address)
    requires NoneLater(t, h) && forall k :: k in changes ==> changes[k].height == h
    ensures NoneLater(InsertBalances(t, changes, increase), h)
    ensures LatestHolding(InsertBalances(t, changes, increase), r, a).totalOperations
         == LatestHolding(t, r, a).totalOperations + if (r, a) in changes then 1 else 0
  {
    var u := InsertBalances(t, changes, increase);
    if (r, a) in changes {
      assert (r, h, a) in u && u[(r, h, a)].totalOperations == LatestHolding(t, r, a).totalOperations + 1;
      LatestAt(u, h, r, a);
    } else {
      forall k ensures k in BalanceHeights(u, r, a) <==> k in BalanceHeights(t, r, a) {
        KeyHeight(u, r, a, k);
        KeyHeight(t, r, a, k);
      }
      assert BalanceHeights(u, r, a) == BalanceHeights(t, r, a);
    }
  }

  lemma KeyHeight(t: map<(RuneId, u64, Address), Holding>, r: RuneId, a: Address, k: u64)
    ensures k in BalanceHeights(t, r, a) <==> (r, k, a) in t
  {
  }

  lemma LatestAt(t: map<(RuneId, u64, Address), Holding>, h: u64, r: RuneId, a: Address)
    requires NoneLater(t, h) && (r, h, a) in t
    ensures LatestHolding(t, r, a) == t[(r, h, a)]
  {
    assert (r, h, a).1 in BalanceHeights(t, r, a);
    KeyHeight(t, r, a, Greatest(BalanceHeights(t, r, a)));
  }

  lemma FlushCountsOnce(t: Tables, s: Segment, h: u64, r: RuneId, a: Address)
    requires NoneLater(t.balances, h) && AtHeight(s.entries, h)
    ensures var u := Flushed(t, PendingOf(s.runes, s.entries)).balances;
            && NoneLater(u, h)
            && LatestHolding(u, r, a).totalOperations
               == LatestHolding(t.balances, r, a).totalOperations
                  + (if HasRow(s.entries, Receive, r, a) then 1 else 0) + (if HasRow(s.entries, Send, r, a) then 1 else 0)
  {
    hide InsertBalances, BalanceFold, NoneLater, HasRow, LatestHolding;
    FoldHeights(s.entries, Receive, h);
    FoldHeights(s.entries, Send, h);
    FoldHasRow(s.entries, Receive, r, a);
    FoldHasRow(s.entries, Send, r, a);
    InsertCounts(t.balances, BalanceFold(s.entries, Receive), true, h, r, a);
    InsertCounts(InsertBalances(t.balances, BalanceFold(s.entries, Receive), true), BalanceFold(s.entries, Send), false, h, r, a);
  }

  lemma {:induction false} FoldHeights(es: seq<Entry>, op: Operation, h: u64)
    requires AtHeight(es, h)
    ensures forall k :: k in BalanceFold(es, op) ==> BalanceFold(es, op)[k].height == h
  {
    if es != [] {
      assert Last(es) in es;
      FoldHeights(DropLast(es), op, h);
    }
  }

  /** The operation count after any flushes inside a block: the old count, one for each flush with a Receive row of the key,
      and one for each with a Send row of it. */
  lemma {:induction false} CountsFlushes(t: Tables, segments: seq<Segment>, h: u64, r: RuneId, a: Address)
    requires NoneLater(t.balances, h) && AtHeight(SegmentEntries(segments), h)
    ensures var u := FlushAll(t, segments).balances;
            && NoneLater(u, h)
            && LatestHolding(u, r, a).totalOperations == LatestHolding(t.balances, r, a).totalOperations + Flushes(segments, r, a)
  {
    hide Flushed, LatestHolding, HasRow, NoneLater;
    if segments != [] {
      CountsFlushes(t, DropLast(segments), h, r, a);
      FlushCountsOnce(FlushAll(t, DropLast(segments)), Last(segments), h, r, a);
    }
  }

  lemma InsertKeepsOlder(t: map<(RuneId, u64, Address), Holding>, changes: BalanceChanges, increase: bool, h: u64,
                         key: (RuneId, u64, Address))
    requires key.1 != h && forall k :: k in changes ==> changes[k].height == h
    ensures key in InsertBalances(t, changes, increase) <==> key in t
    ensures key in t ==> InsertBalances(t, changes, increase)[key] == t[key]
  {
    var (r, k, a) := key;
    InsertedBalanceRow(t, changes, increase, r, a, k, h);
  }

  /** Balance rows of other heights are left alone. */
  lemma {:induction false} FlushesKeepOlder(t: Tables, segments: seq<Segment>, h: u64, key: (RuneId, u64, Address))
    requires key.1 != h && AtHeight(SegmentEntries(segments), h)
    ensures var u := FlushAll(t, segments).balances; (key in u <==> key in t.balances) && (key in t.balances ==> u[key] == t.balances[key])
  {
    hide InsertBalances, BalanceFold;
    if segments != [] {
      FlushesKeepOlder(t, DropLast(segments), h, key);
      var before, s := FlushAll(t, DropLast(segments)), Last(segments);
      FoldHeights(s.entries, Receive, h);
      FoldHeights(s.entries, Send, h);
      InsertKeepsOlder(before.balances, BalanceFold(s.entries, Receive), true, h, key);
      InsertKeepsOlder(InsertBalances(before.balances, BalanceFold(s.entries, Receive), true), BalanceFold(s.entries, Send), false, h, key);
    }
  }

  lemma ConsistentNoneLater(t: Tables, h: u64)
    requires Consistent(t) && UpToHeight(t.ledger, h)
    ensures NoneLater(t.balances, h)
  {
    forall k | k in t.balances ensures k.1 <= h {
      assert (k.0, k.1, k.2) in t.balances;
      TransferAtPositive(t.ledger, k.0, k.1, k.2);
    }
  }

  lemma SameCountsSameRow(t: Tables, p: seq<Segment>, q: seq<Segment>, h: u64, key: (RuneId, u64, Address))
    requires Consistent(t) && UpToHeight(t.ledger, h)
    requires AtHeight(SegmentEntries(p), h) && SegmentEntries(p) == SegmentEntries(q)
    requires Flushes(p, key.0, key.2) == Flushes(q, key.0, key.2)
    requires key in FlushAll(t, p).balances && key in FlushAll(t, q).balances
    ensures FlushAll(t, p).balances[key].totalOperations == FlushAll(t, q).balances[key].totalOperations
  {
    hide FlushAll, Flushes, LatestHolding, Consistent, NoneLater, SegmentEntries;
    ConsistentNoneLater(t, h);
    CountsFlushes(t, p, h, key.0, key.2);
    CountsFlushes(t, q, h, key.0, key.2);
    if key.1 == h {
      assert key == (key.0, h, key.2);
      LatestAt(FlushAll(t, p).balances, h, key.0, key.2);
      LatestAt(FlushAll(t, q).balances, h, key.0, key.2);
    } else {
      FlushesKeepOlder(t, p, h, key);
      FlushesKeepOlder(t, q, h, key);
    }
  }

  ghost predicate SameFlushes(p: seq<Segment>, q: seq<Segment>) {
    forall r, a :: Flushes(p, r, a) == Flushes(q, r, a)
  }

  lemma SameBalancesSameFlushes(t: Tables, p: seq<Segment>, q: seq<Segment>, h: u64)
    requires NoneLater(t.balances, h) && AtHeight(SegmentEntries(p), h) && SegmentEntries(p) == SegmentEntries(q)
    requires FlushAll(t, p).balances == FlushAll(t, q).balances
    ensures SameFlushes(p, q)
  {
    hide FlushAll, Flushes, LatestHolding, NoneLater, SegmentEntries;
    forall r, a ensures Flushes(p, r, a) == Flushes(q, r, a) {
      CountsFlushes(t, p, h, r, a);
      CountsFlushes(t, q, h, r, a);
    }
  }

  lemma SameFlushesSameBalances(t: Tables, p: seq<Segment>, q: seq<Segment>, h: u64)
    requires Consistent(t) && UpToHeight(t.ledger, h)
    requires AtHeight(SegmentEntries(p), h) && SegmentEntries(p) == SegmentEntries(q)
    requires SameFlushes(p, q)
    ensures FlushAll(t, p).balances == FlushAll(t, q).balances
  {
    hide FlushAll, Flushes, LatestHolding, Consistent, SegmentEntries;
    var u, v := FlushAll(t, p).balances, FlushAll(t, q).balances;
    FlushAllIs(t, p, h);
    FlushAllIs(t, q, h);
    ConsistentIsUnique(FlushAll(t, p), FlushAll(t, q));
    forall k | k in u ensures u[k] == v[k] {
      SameCountsSameRow(t, p, q, h, k);
      assert u[k].balance == v[k].balance;
    }
    assert u == v;
  }

  /** Two ways of flushing a block leave the same balance rows, counts included, exactly when they flush the sides of every key
      equally often. */
  lemma WaysOfFlushingAgree(t: Tables, p: seq<Segment>, q: seq<Segment>, h: u64)
    requires Consistent(t) && UpToHeight(t.ledger, h)
    requires AtHeight(SegmentEntries(p), h) && SegmentEntries(p) == SegmentEntries(q)
    ensures FlushAll(t, p).balances == FlushAll(t, q).balances <==> SameFlushes(p, q)
  {
    hide FlushAll, SameFlushes, Consistent, NoneLater, SegmentEntries;
    if FlushAll(t, p).balances == FlushAll(t, q).balances {
      ConsistentNoneLater(t, h);
      SameBalancesSameFlushes(t, p, q, h);
    }
    if SameFlushes(p, q) {
      SameFlushesSameBalances(t, p, q, h);
    }
  }

  /** So counts do depend on where flushes fall: two Receive rows of one address in one block count once when they are flushed
      together and twice when a flush comes between them. */
  lemma OperationCountDependsOnFlushes(t: Tables, a: Entry, b: Entry, x: Address)
    requires a.operation == b.operation == Receive && a.address == b.address == Some(x)
    requires a.rune == b.rune && a.height == b.height && NoneLater(t.balances, a.height)
    ensures var one := Flushed(t, PendingOf([], [a, b])).balances;
            var two := Flushed(Flushed(t, PendingOf([], [a])), PendingOf([], [b])).balances;
            && LatestHolding(one, a.rune, x).totalOperations == LatestHolding(t.balances, a.rune, x).totalOperations + 1
            && LatestHolding(two, a.rune, x).totalOperations == LatestHolding(t.balances, a.rune, x).totalOperations + 2
  {
    hide Flushed, LatestHolding, NoneLater, PendingOf;
    FlushCountsOnce(t, Segment([], [a, b]), a.height, a.rune, x);
    FlushCountsOnce(t, Segment([], [a]), a.height, a.rune, x);
    FlushCountsOnce(Flushed(t, PendingOf([], [a])), Segment([], [b]), a.height, a.rune, x);
    assert a in [a, b] && a in [a] && b in [b];
  }
}
