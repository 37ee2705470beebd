/** The cumulative tables are a function of the ledger: wherever the flushes fell, and after any roll-back. */
module TableLaws {
  import opened Basics
  import opened Ledger
  import opened Transactions
  import opened Tables

  // ----- The reference: what the tables must say, from the ledger alone -----

  /** The totals of a rune over all ledger rows up to a height. */
  ghost function SupplyUpTo(es: seq<Entry>, rune: RuneId, h: u64): Supply {
    if es == [] then NO_SUPPLY
    else Plus(SupplyUpTo(DropLast(es), rune, h),
              if Last(es).rune == rune && Last(es).height <= h then RowSupply(Last(es)) else NO_SUPPLY)
  }

  function RowAt(rune: RuneId, h: u64): Entry -> nat {
    (e: Entry) => if e.rune == rune && e.height == h then 1 else 0
  }

  /** One supply row for each rune and height with a ledger row, holding the totals up to that height. */
  ghost predicate SupplyConsistent(t: map<(RuneId, u64), Supply>, es: seq<Entry>) {
    forall r, h: u64 ::
      && ((r, h) in t <==> Sum(es, RowAt(r, h)) > 0)
      && ((r, h) in t ==> t[(r, h)] == SupplyUpTo(es, r, h))
  }

  predicate IsTransfer(e: Entry, rune: RuneId, a: Address) {
    (e.operation == Receive || e.operation == Send) && e.rune == rune && e.address == Some(a)
  }

  function Signed(e: Entry): int {
    if e.operation == Receive then e.Amount() else -(e.Amount() as int)
  }

  /** Received minus sent by an address over all ledger rows up to a height. */
  ghost function NetUpTo(es: seq<Entry>, rune: RuneId, a: Address, h: u64): int {
    if es == [] then 0
    else NetUpTo(DropLast(es), rune, a, h)
         + if IsTransfer(Last(es), rune, a) && Last(es).height <= h then Signed(Last(es)) else 0
  }

  function TransferAt(rune: RuneId, h: u64, a: Address): Entry -> nat {
    (e: Entry) => if IsTransfer(e, rune, a) && e.height == h then 1 else 0
  }

  /** One balance row for each rune, height and address with a Send or Receive row, holding the net amount up to that height. */
  ghost predicate BalancesConsistent(t: map<(RuneId, u64, Address), Holding>, es: seq<Entry>) {
    forall r, h: u64, a ::
      && ((r, h, a) in t <==> Sum(es, TransferAt(r, h, a)) > 0)
      && ((r, h, a) in t ==> t[(r, h, a)].balance == NetUpTo(es, r, a, h))
  }

  ghost predicate Consistent(t: Tables) {
    SupplyConsistent(t.supply, t.ledger) && BalancesConsistent(t.balances, t.ledger)
  }

  ghost predicate UpToHeight(es: seq<Entry>, h: u64) {
    forall e :: e in es ==> e.height <= h
  }

  ghost predicate AtHeight(es: seq<Entry>, h: u64) {
    forall e :: e in es ==> e.height == h
  }

  // ----- Supply -----

  lemma {:induction false} SupplyAppend(a: seq<Entry>, b: seq<Entry>, rune: RuneId, h: u64)
    ensures SupplyUpTo(a + b, rune, h) == Plus(SupplyUpTo(a, rune, h), SupplyUpTo(b, rune, h))
  {
    if b == [] {
      assert a + b == a;
    } else {
      assert DropLast(a + b) == a + DropLast(b);
      SupplyAppend(a, DropLast(b), rune, h);
    }
  }

  /** Heights between which a rune has no row do not matter. */
  lemma {:induction false} SupplySame(es: seq<Entry>, rune: RuneId, h: u64, k: u64)
    requires forall e :: e in es && e.rune == rune ==> (e.height <= h <==> e.height <= k)
    ensures SupplyUpTo(es, rune, h) == SupplyUpTo(es, rune, k)
  {
    if es != [] {
      SupplySame(DropLast(es), rune, h, k);
    }
  }

  lemma {:induction false} SupplyNone(es: seq<Entry>, rune: RuneId, h: u64)
    requires forall e :: e in es && e.rune == rune ==> e.height > h
    ensures SupplyUpTo(es, rune, h) == NO_SUPPLY
  {
    if es != [] {
      SupplyNone(DropLast(es), rune, h);
    }
  }

  lemma RowAtPositive(es: seq<Entry>, rune: RuneId, h: u64)
    ensures Sum(es, RowAt(rune, h)) > 0 <==> exists e :: e in es && e.rune == rune && e.height == h
  {
    SumPositive(es, RowAt(rune, h));
    if e :| e in es && e.rune == rune && e.height == h {
      assert RowAt(rune, h)(e) > 0;
    }
    if e :| e in es && RowAt(rune, h)(e) > 0 {
      assert e.rune == rune && e.height == h;
    }
  }

  /** The latest stored row is the total so far. */
  lemma LatestSupplyIsTotal(t: map<(RuneId, u64), Supply>, es: seq<Entry>, rune: RuneId, h: u64)
    requires SupplyConsistent(t, es) && UpToHeight(es, h)
    ensures LatestSupply(t, rune) == SupplyUpTo(es, rune, h)
  {
    var hs := SupplyHeights(t, rune);
    forall e | e in es && e.rune == rune ensures e.height in hs {
      RowAtPositive(es, rune, e.height);
      assert (rune, e.height) in t;
    }
    if hs == {} {
      SupplyNone(es, rune, h);
    } else {
      SupplySame(es, rune, Greatest(hs), h);
      var g := Greatest(hs);
      assert (rune, g) in t;
    }
  }

  // ----- What the totals are, in terms of rows -----

  /** The rows up to a height. */
  function Until(es: seq<Entry>, h: u64): seq<Entry> {
    if es == [] then [] else Until(DropLast(es), h) + if Last(es).height <= h then [Last(es)] else []
  }

  function RowOf(rune: RuneId): Entry -> nat {
    (e: Entry) => if e.rune == rune then 1 else 0
  }

  function RowWith(op: Operation, rune: RuneId): Entry -> nat {
    (e: Entry) => if e.operation == op && e.rune == rune then 1 else 0
  }

  /** The five totals of a supply row: what was minted and burned, and how many rows did so, and how many there are in all. */
  ghost predicate SupplyTells(s: Supply, es: seq<Entry>, rune: RuneId) {
    && s.minted == RowSum(es, Mint, rune, Anyone) && s.totalMints == Sum(es, RowWith(Mint, rune))
    && s.burned == RowSum(es, Burn, rune, Anyone) && s.totalBurns == Sum(es, RowWith(Burn, rune))
    && s.totalOperations == Sum(es, RowOf(rune))
  }

  lemma NothingToTell(rune: RuneId)
    ensures SupplyTells(NO_SUPPLY, [], rune)
  {
  }

  lemma OneMoreToTell(s: Supply, es: seq<Entry>, e: Entry, rune: RuneId)
    requires SupplyTells(s, es, rune)
    ensures SupplyTells(Plus(s, if e.rune == rune then RowSupply(e) else NO_SUPPLY), es + [e], rune)
  {
    hide Sum;
    SumSnoc(es, e, RowWeight(Mint, rune, Anyone));
    SumSnoc(es, e, RowWeight(Burn, rune, Anyone));
    SumSnoc(es, e, RowWith(Mint, rune));
    SumSnoc(es, e, RowWith(Burn, rune));
    SumSnoc(es, e, RowOf(rune));
  }

  lemma {:induction false} SupplyUpToTells(es: seq<Entry>, rune: RuneId, h: u64)
    ensures SupplyTells(SupplyUpTo(es, rune, h), Until(es, h), rune)
  {
    hide SupplyTells, Plus, RowSupply;
    NothingToTell(rune);
    if es != [] {
      SupplyUpToTells(DropLast(es), rune, h);
      var before := SupplyUpTo(DropLast(es), rune, h);
      if Last(es).height <= h {
        OneMoreToTell(before, Until(DropLast(es), h), Last(es), rune);
      } else {
        PlusZero(before);
        assert Until(es, h) == Until(DropLast(es), h);
      }
    }
  }

  lemma {:induction false} UntilAll(es: seq<Entry>, h: u64)
    requires UpToHeight(es, h)
    ensures Until(es, h) == es
  {
    if es != [] {
      UntilAll(DropLast(es), h);
      assert Last(es) in es;
    }
  }

  /** Every stored supply row tells, from the ledger rows up to its height alone, what was minted and burned, how many mints and
      burns there were, and how many rows; and the latest row tells it of the whole ledger. */
  lemma SupplyRowsTell(t: map<(RuneId, u64), Supply>, es: seq<Entry>, rune: RuneId, h: u64)
    requires SupplyConsistent(t, es)
    ensures (rune, h) in t ==> SupplyTells(t[(rune, h)], Until(es, h), rune)
    ensures UpToHeight(es, h) ==> SupplyTells(LatestSupply(t, rune), es, rune)
  {
    hide SupplyTells, LatestSupply, Until;
    SupplyUpToTells(es, rune, h);
    if UpToHeight(es, h) {
      UntilAll(es, h);
      LatestSupplyIsTotal(t, es, rune, h);
    }
  }

  /** The pending change of a rune, given the height of its rows. */
  ghost predicate IsChange(m: SupplyChanges, es: seq<Entry>, h: u64, rune: RuneId) {
    && (rune in m <==> Sum(es, RowAt(rune, h)) > 0)
    && (rune in m ==> m[rune] == SupplyChange(h, SupplyUpTo(es, rune, h)))
    && (rune !in m ==> SupplyUpTo(es, rune, h) == NO_SUPPLY)
  }

  lemma {:induction false} SupplyFoldIs(es: seq<Entry>, h: u64, rune: RuneId)
    requires AtHeight(es, h)
    ensures IsChange(SupplyFold(es), es, h, rune)
  {
    hide IsChange;
    if es == [] {
      NoChange(h, rune);
    } else {
      SupplyFoldIs(DropLast(es), h, rune);
      assert Last(es) in es;
      SupplyFoldStep(SupplyFold(DropLast(es)), DropLast(es), Last(es), h, rune);
      assert es == DropLast(es) + [Last(es)];
    }
  }

  lemma NoChange(h: u64, rune: RuneId)
    ensures IsChange(map[], [], h, rune)
  {
  }

  lemma SupplyFoldStep(m: SupplyChanges, es: seq<Entry>, e: Entry, h: u64, rune: RuneId)
    requires IsChange(m, es, h, rune) && e.height == h
    ensures IsChange(AddSupply(m, e), es + [e], h, rune)
  {
    hide Sum, RowSupply, SupplyUpTo, Plus;
    SumSnoc(es, e, RowAt(rune, h));
    SupplySnoc(es, e, rune, h);
    PlusZero(SupplyUpTo(es, rune, h));
    PlusZero(RowSupply(e));
  }

  lemma SupplySnoc(es: seq<Entry>, e: Entry, rune: RuneId, h: u64)
    ensures SupplyUpTo(es + [e], rune, h)
         == Plus(SupplyUpTo(es, rune, h), if e.rune == rune && e.height <= h then RowSupply(e) else NO_SUPPLY)
  {
    assert DropLast(es + [e]) == es;
  }

  lemma InsertSupplyConsistent(t: map<(RuneId, u64), Supply>, old_: seq<Entry>, es: seq<Entry>, h: u64)
    requires SupplyConsistent(t, old_) && UpToHeight(old_, h) && AtHeight(es, h)
    ensures SupplyConsistent(InsertSupply(t, SupplyFold(es)), old_ + es)
  {
    hide LatestSupply, SupplyFold, SupplyUpTo, Sum;
    var t' := InsertSupply(t, SupplyFold(es));
    forall r, k: u64
      ensures (r, k) in t' <==> Sum(old_ + es, RowAt(r, k)) > 0
      ensures (r, k) in t' ==> t'[(r, k)] == SupplyUpTo(old_ + es, r, k)
    {
      SumAppend(old_, es, RowAt(r, k));
      SupplyAppend(old_, es, r, k);
      SupplyFoldIs(es, h, r);
      LatestSupplyIsTotal(t, old_, r, h);
      RowAtPositive(es, r, k);
      RowAtPositive(old_, r, k);
      InsertedSupplyRow(t, SupplyFold(es), r, k, h);
      if k < h {
        SupplyNone(es, r, k);
      }
      PlusZero(SupplyUpTo(old_, r, k));
    }
  }

  lemma PlusZero(s: Supply)
    ensures Plus(s, NO_SUPPLY) == s == Plus(NO_SUPPLY, s)
  {
  }

  lemma InsertedSupplyRow(t: map<(RuneId, u64), Supply>, changes: SupplyChanges, r: RuneId, k: u64, h: u64)
    requires r in changes ==> changes[r].height == h
    ensures var t' := InsertSupply(t, changes);
            && ((r, k) in t' <==> (r, k) in t || (r in changes && k == h))
            && (r in changes && k == h ==> t'[(r, k)] == Plus(LatestSupply(t, r), changes[r].change))
            && (!(r in changes && k == h) && (r, k) in t ==> t'[(r, k)] == t[(r, k)])
  {
  }

  // ----- Balances -----

  lemma {:induction false} NetAppend(a: seq<Entry>, b: seq<Entry>, rune: RuneId, addr: Address, h: u64)
    ensures NetUpTo(a + b, rune, addr, h) == NetUpTo(a, rune, addr, h) + NetUpTo(b, rune, addr, h)
  {
    if b == [] {
      assert a + b == a;
    } else {
      assert DropLast(a + b) == a + DropLast(b);
      NetAppend(a, DropLast(b), rune, addr, h);
    }
  }

  lemma {:induction false} NetSame(es: seq<Entry>, rune: RuneId, a: Address, h: u64, k: u64)
    requires forall e :: e in es && IsTransfer(e, rune, a) ==> (e.height <= h <==> e.height <= k)
    ensures NetUpTo(es, rune, a, h) == NetUpTo(es, rune, a, k)
  {
    if es != [] {
      NetSame(DropLast(es), rune, a, h, k);
    }
  }

  lemma {:induction false} NetNone(es: seq<Entry>, rune: RuneId, a: Address, h: u64)
    requires forall e :: e in es && IsTransfer(e, rune, a) ==> e.height > h
    ensures NetUpTo(es, rune, a, h) == 0
  {
    if es != [] {
      NetNone(DropLast(es), rune, a, h);
    }
  }

  lemma TransferAtPositive(es: seq<Entry>, rune: RuneId, h: u64, a: Address)
    ensures Sum(es, TransferAt(rune, h, a)) > 0 <==> exists e :: e in es && IsTransfer(e, rune, a) && e.height == h
  {
    SumPositive(es, TransferAt(rune, h, a));
    if e :| e in es && IsTransfer(e, rune, a) && e.height == h {
      assert TransferAt(rune, h, a)(e) > 0;
    }
    if e :| e in es && TransferAt(rune, h, a)(e) > 0 {
      assert IsTransfer(e, rune, a) && e.height == h;
    }
  }

  lemma LatestHoldingIsNet(t: map<(RuneId, u64, Address), Holding>, es: seq<Entry>, rune: RuneId, a: Address, h: u64)
    requires BalancesConsistent(t, es) && UpToHeight(es, h)
    ensures LatestHolding(t, rune, a).balance == NetUpTo(es, rune, a, h)
  {
    var hs := BalanceHeights(t, rune, a);
    forall e | e in es && IsTransfer(e, rune, a) ensures e.height in hs {
      TransferAtPositive(es, rune, e.height, a);
      assert (rune, e.height, a) in t;
    }
    if hs == {} {
      NetNone(es, rune, a, h);
    } else {
      NetSame(es, rune, a, Greatest(hs), h);
      var g := Greatest(hs);
      assert (rune, g, a) in t;
    }
  }

  /** The rows one side of the balance changes comes from. */
  ghost function Only(es: seq<Entry>, op: Operation): seq<Entry> {
    if es == [] then [] else Only(DropLast(es), op) + if Last(es).operation == op then [Last(es)] else []
  }

  lemma {:induction false} OnlyOf(es: seq<Entry>, op: Operation)
    ensures forall e :: e in Only(es, op) ==> e in es && e.operation == op
  {
    if es != [] {
      OnlyOf(DropLast(es), op);
    }
  }

  ghost predicate IsBalanceChange(m: BalanceChanges, rows: seq<Entry>, op: Operation, h: u64, rune: RuneId, a: Address) {
    && ((rune, a) in m <==> Sum(rows, TransferAt(rune, h, a)) > 0)
    && ((rune, a) in m ==>
          && m[(rune, a)].height == h
          && NetUpTo(rows, rune, a, h) == (if op == Receive then m[(rune, a)].amount else -(m[(rune, a)].amount as int)))
    && ((rune, a) !in m ==> NetUpTo(rows, rune, a, h) == 0)
  }

  lemma {:induction false} BalanceFoldIs(es: seq<Entry>, op: Operation, h: u64, rune: RuneId, a: Address)
    requires AtHeight(es, h) && (op == Receive || op == Send)
    ensures IsBalanceChange(BalanceFold(es, op), Only(es, op), op, h, rune, a)
  {
    hide IsBalanceChange;
    if es == [] {
      NoBalanceChange(op, h, rune, a);
    } else {
      var rows := Only(DropLast(es), op);
      BalanceFoldIs(DropLast(es), op, h, rune, a);
      assert Last(es) in es;
      BalanceFoldStep(BalanceFold(DropLast(es), op), rows, Last(es), op, h, rune, a);
    }
  }

  lemma NoBalanceChange(op: Operation, h: u64, rune: RuneId, a: Address)
    ensures IsBalanceChange(map[], [], op, h, rune, a)
  {
  }

  lemma BalanceFoldStep(m: BalanceChanges, rows: seq<Entry>, e: Entry, op: Operation, h: u64, rune: RuneId, a: Address)
    requires IsBalanceChange(m, rows, op, h, rune, a) && e.height == h && (op == Receive || op == Send)
    ensures IsBalanceChange(AddBalance(m, e, op), rows + if e.operation == op then [e] else [], op, h, rune, a)
  {
    hide Sum;
    if e.operation == op {
      SumSnoc(rows, e, TransferAt(rune, h, a));
      assert DropLast(rows + [e]) == rows;
    } else {
      assert rows + [] == rows;
    }
  }

  lemma InsertedBalanceRow(t: map<(RuneId, u64, Address), Holding>, changes: BalanceChanges, increase: bool,
                           r: RuneId, a: Address, k: u64, h: u64)
    requires (r, a) in changes ==> changes[(r, a)].height == h
    ensures var t' := InsertBalances(t, changes, increase);
            && ((r, k, a) in t' <==> (r, k, a) in t || ((r, a) in changes && k == h))
            && ((r, a) in changes && k == h ==>
                  t'[(r, k, a)].balance == LatestHolding(t, r, a).balance
                                           + if increase then changes[(r, a)].amount else -(changes[(r, a)].amount as int))
            && (!((r, a) in changes && k == h) && (r, k, a) in t ==> t'[(r, k, a)] == t[(r, k, a)])
  {
  }

  lemma InsertBalancesConsistent(t: map<(RuneId, u64, Address), Holding>, old_: seq<Entry>, es: seq<Entry>, op: Operation, h: u64)
    requires BalancesConsistent(t, old_) && UpToHeight(old_, h) && AtHeight(es, h) && (op == Receive || op == Send)
    ensures BalancesConsistent(InsertBalances(t, BalanceFold(es, op), op == Receive), old_ + Only(es, op))
  {
    hide LatestHolding, BalanceFold, NetUpTo, Only, Sum, InsertBalances;
    var news := Only(es, op);
    var t' := InsertBalances(t, BalanceFold(es, op), op == Receive);
    OnlyOf(es, op);
    forall r, k: u64, a
      ensures (r, k, a) in t' <==> Sum(old_ + news, TransferAt(r, k, a)) > 0
      ensures (r, k, a) in t' ==> t'[(r, k, a)].balance == NetUpTo(old_ + news, r, a, k)
    {
      SumAppend(old_, news, TransferAt(r, k, a));
      NetAppend(old_, news, r, a, k);
      BalanceFoldIs(es, op, h, r, a);
      LatestHoldingIsNet(t, old_, r, a, h);
      TransferAtPositive(news, r, k, a);
      TransferAtPositive(old_, r, k, a);
      InsertedBalanceRow(t, BalanceFold(es, op), op == Receive, r, a, k, h);
      if k < h {
        NetNone(news, r, a, k);
      }
    }
  }

  /** Receives first, then sends, is as good as the order of the ledger. */
  lemma {:induction false} OnlyPartition(es: seq<Entry>, rune: RuneId, a: Address, h: u64)
    ensures Sum(es, TransferAt(rune, h, a))
         == Sum(Only(es, Receive), TransferAt(rune, h, a)) + Sum(Only(es, Send), TransferAt(rune, h, a))
    ensures NetUpTo(es, rune, a, h) == NetUpTo(Only(es, Receive), rune, a, h) + NetUpTo(Only(es, Send), rune, a, h)
  {
    if es != [] {
      OnlyPartition(DropLast(es), rune, a, h);
      OnlyStep(es, Receive, rune, a, h);
      OnlyStep(es, Send, rune, a, h);
    }
  }

  lemma OnlyStep(es: seq<Entry>, op: Operation, rune: RuneId, a: Address, h: u64)
    requires es != []
    ensures var last := if Last(es).operation == op then [Last(es)] else [];
            && Sum(Only(es, op), TransferAt(rune, h, a))
               == Sum(Only(DropLast(es), op), TransferAt(rune, h, a)) + Sum(last, TransferAt(rune, h, a))
            && NetUpTo(Only(es, op), rune, a, h) == NetUpTo(Only(DropLast(es), op), rune, a, h) + NetUpTo(last, rune, a, h)
            && (last != [] ==> Sum(last, TransferAt(rune, h, a)) == TransferAt(rune, h, a)(Last(es)))
            && (last != [] ==>
                  NetUpTo(last, rune, a, h) == if IsTransfer(Last(es), rune, a) && Last(es).height <= h then Signed(Last(es)) else 0)
            && (last == [] ==> Sum(last, TransferAt(rune, h, a)) == 0 && NetUpTo(last, rune, a, h) == 0)
  {
    var last := if Last(es).operation == op then [Last(es)] else [];
    SumAppend(Only(DropLast(es), op), last, TransferAt(rune, h, a));
    NetAppend(Only(DropLast(es), op), last, rune, a, h);
    if last != [] {
      SumOne(Last(es), TransferAt(rune, h, a));
      assert DropLast([Last(es)]) == [];
    }
  }

  // ----- A flush -----

  /** A flush keeps the tables a function of the ledger. */
  lemma FlushIsConsistent(t: Tables, runes: seq<DbRune>, es: seq<Entry>, h: u64)
    requires Consistent(t) && UpToHeight(t.ledger, h) && AtHeight(es, h)
    ensures Consistent(Flushed(t, PendingOf(runes, es)))
    ensures UpToHeight(Flushed(t, PendingOf(runes, es)).ledger, h)
  {
    hide InsertSupply, InsertBalances, InsertRunes, SupplyFold, BalanceFold, SupplyConsistent, BalancesConsistent;
    InsertSupplyConsistent(t.supply, t.ledger, es, h);
    InsertBalancesConsistent(t.balances, t.ledger, es, Receive, h);
    OnlyOf(es, Receive);
    var b := InsertBalances(t.balances, BalanceFold(es, Receive), true);
    InsertBalancesConsistent(b, t.ledger + Only(es, Receive), es, Send, h);
    var b' := InsertBalances(b, BalanceFold(es, Send), false);
    ReorderTransfers(b', t.ledger, es);
  }

  lemma ReorderTransfers(t: map<(RuneId, u64, Address), Holding>, old_: seq<Entry>, es: seq<Entry>)
    requires BalancesConsistent(t, old_ + Only(es, Receive) + Only(es, Send))
    ensures BalancesConsistent(t, old_ + es)
  {
    hide NetUpTo, Only, Sum;
    forall r, h: u64, a
      ensures (r, h, a) in t <==> Sum(old_ + es, TransferAt(r, h, a)) > 0
      ensures (r, h, a) in t ==> t[(r, h, a)].balance == NetUpTo(old_ + es, r, a, h)
    {
      OnlyPartition(es, r, a, h);
      SumAppend(old_, es, TransferAt(r, h, a));
      SumAppend(old_, Only(es, Receive), TransferAt(r, h, a));
      SumAppend(old_ + Only(es, Receive), Only(es, Send), TransferAt(r, h, a));
      NetAppend(old_, es, r, a, h);
      NetAppend(old_, Only(es, Receive), r, a, h);
      NetAppend(old_ + Only(es, Receive), Only(es, Send), r, a, h);
    }
  }

  /** Consistent tables with the same ledger are the same, except for the operation count of balances. */
  lemma ConsistentIsUnique(t: Tables, u: Tables)
    requires Consistent(t) && Consistent(u) && t.ledger == u.ledger
    ensures t.supply == u.supply && SameBalances(t.balances, u.balances)
  {
    hide SupplyUpTo, NetUpTo, Sum;
    forall k | k in t.supply ensures k in u.supply && t.supply[k] == u.supply[k] {
      assert (k.0, k.1) in u.supply;
    }
    forall k | k in u.supply ensures k in t.supply {
      assert (k.0, k.1) in t.supply;
    }
    forall k | k in t.balances ensures k in u.balances && t.balances[k].balance == u.balances[k].balance {
      assert (k.0, k.1, k.2) in u.balances;
    }
    forall k | k in u.balances ensures k in t.balances {
      assert (k.0, k.1, k.2) in t.balances;
    }
  }

  ghost predicate SameBalances(a: map<(RuneId, u64, Address), Holding>, b: map<(RuneId, u64, Address), Holding>) {
    a.Keys == b.Keys && forall k :: k in a ==> a[k].balance == b[k].balance
  }

  /** What is indexed between two flushes. */
  datatype Segment = Segment(runes: seq<DbRune>, entries: seq<Entry>)

  ghost function FlushAll(t: Tables, segments: seq<Segment>): Tables {
    if segments == [] then t
    else Flushed(FlushAll(t, DropLast(segments)), PendingOf(Last(segments).runes, Last(segments).entries))
  }

  function AllRunes(segments: seq<Segment>): seq<DbRune> {
    if segments == [] then [] else AllRunes(DropLast(segments)) + Last(segments).runes
  }

  function SegmentEntries(segments: seq<Segment>): seq<Entry> {
    if segments == [] then [] else SegmentEntries(DropLast(segments)) + Last(segments).entries
  }

  lemma {:induction false} InsertRunesAppend(t: map<RuneId, DbRune>, a: seq<DbRune>, b: seq<DbRune>)
    ensures InsertRunes(t, a + b) == InsertRunes(InsertRunes(t, a), b)
  {
    if b == [] {
      assert a + b == a;
    } else {
      assert DropLast(a + b) == a + DropLast(b);
      InsertRunesAppend(t, a, DropLast(b));
    }
  }

  lemma {:induction false} FlushAllIs(t: Tables, segments: seq<Segment>, h: u64)
    requires Consistent(t) && UpToHeight(t.ledger, h) && AtHeight(SegmentEntries(segments), h)
    ensures var u := FlushAll(t, segments);
            && Consistent(u) && UpToHeight(u.ledger, h)
            && u.ledger == t.ledger + SegmentEntries(segments)
            && u.runes == InsertRunes(t.runes, AllRunes(segments))
  {
    hide Consistent, PendingOf, InsertSupply, InsertBalances, InsertRunes;
    NoRunes(t.runes);
    if segments == [] {
      assert t.ledger + [] == t.ledger;
    } else {
      var init, last := DropLast(segments), Last(segments);
      FlushAllIs(t, init, h);
      FlushIsConsistent(FlushAll(t, init), last.runes, last.entries, h);
      InsertRunesAppend(t.runes, AllRunes(init), last.runes);
      PendingParts(last.runes, last.entries);
      assert t.ledger + SegmentEntries(init) + last.entries == t.ledger + SegmentEntries(segments);
    }
  }

  lemma NoRunes(t: map<RuneId, DbRune>)
    ensures InsertRunes(t, []) == t
  {
  }

  lemma PendingParts(runes: seq<DbRune>, es: seq<Entry>)
    ensures PendingOf(runes, es).runes == runes && PendingOf(runes, es).entries == es
  {
  }

  /** Wherever flushes are forced inside a block, the tables end up as with a single flush at the end of the block. */
  lemma FlushPointIndependence(t: Tables, segments: seq<Segment>, h: u64)
    requires Consistent(t) && UpToHeight(t.ledger, h) && AtHeight(SegmentEntries(segments), h)
    ensures var many := FlushAll(t, segments);
            var one := Flushed(t, PendingOf(AllRunes(segments), SegmentEntries(segments)));
            && many.runes == one.runes && many.ledger == one.ledger && many.supply == one.supply
            && SameBalances(many.balances, one.balances)
  {
    hide Consistent, InsertSupply, InsertBalances, InsertRunes, SupplyFold, BalanceFold;
    FlushAllIs(t, segments, h);
    FlushIsConsistent(t, AllRunes(segments), SegmentEntries(segments), h);
    ConsistentIsUnique(FlushAll(t, segments), Flushed(t, PendingOf(AllRunes(segments), SegmentEntries(segments))));
  }
}
