/** Owned pieces stand in front of ownerless ones and are worth something, so no owner ever loses a unit without a row
    (src/db/cache/utils.rs:192-248, src/db/cache/transaction_cache.rs:79-221). */
module Owners {
  import opened Basics
  import opened Ledger
  import opened Moves
  import opened MoveLaws
  import opened Artifacts
  import opened Edicts
  import opened EdictLaws
  import opened Transactions
  import opened TransactionLaws
  import opened Outputs
  import opened Machine

  /** Whatever stands ahead of an owned piece is owned, and owned pieces are positive. */
  predicate OwnedFirst(q: seq<Balance>) {
    forall i, j :: 0 <= i <= j < |q| && q[j].address.Some? ==> q[i].address.Some? && q[i].amount > 0
  }

  predicate AllOwned(q: seq<Balance>) {
    forall b :: b in q ==> b.address.Some? && b.amount > 0
  }

  lemma AllOwnedIsOwnedFirst(q: seq<Balance>)
    requires AllOwned(q)
    ensures OwnedFirst(q)
  {
    forall i | 0 <= i < |q| ensures q[i].address.Some? && q[i].amount > 0 {
      assert q[i] in q;
    }
  }

  lemma {:induction false} TakeKeepsOwned(q: seq<Balance>, amount: nat, sent: nat)
    requires amount == 0 || sent < amount
    ensures OwnedFirst(q) ==> OwnedFirst(Take(q, amount, sent).rest)
    ensures AllOwned(q) ==> AllOwned(Take(q, amount, sent).rest)
  {
    if q != [] {
      var taken := if amount == 0 then q[0].amount else Min(q[0].amount, amount - sent);
      assert q[0] in q;
      FrontAndBack(q, q[0].amount - taken);
      if taken == q[0].amount && sent + taken != amount {
        TakeKeepsOwned(q[1..], amount, sent + taken);
      }
    }
  }

  lemma FrontAndBack(q: seq<Balance>, left: nat)
    requires q != []
    ensures OwnedFirst(q) ==> OwnedFirst(q[1..]) && (left > 0 ==> OwnedFirst([Balance(q[0].address, left)] + q[1..]))
    ensures AllOwned(q) ==> AllOwned(q[1..]) && (left > 0 ==> AllOwned([Balance(q[0].address, left)] + q[1..]))
  {
    if OwnedFirst(q) && left > 0 {
      var p := [Balance(q[0].address, left)] + q[1..];
      forall i, j | 0 <= i <= j < |p| && p[j].address.Some? ensures p[i].address.Some? && p[i].amount > 0 {
        assert q[j].address.Some? && q[i].address.Some?;
      }
    }
    if AllOwned(q) {
      assert q[0] in q;
    }
  }

  lemma {:induction false} RunKeepsOwned(loc: Location, rune: RuneId, q: seq<Balance>, outputs: map<u32, Option<Address>>,
                                         orders: seq<Order>, ev: nat)
    ensures OwnedFirst(q) ==> OwnedFirst(RunOrders(loc, rune, q, outputs, orders, ev).rest)
    ensures AllOwned(q) ==> AllOwned(RunOrders(loc, rune, q, outputs, orders, ev).rest)
    decreases |orders|
  {
    hide MoveBalance, OwnedFirst, AllOwned, Move.Entries, Take;
    if orders != [] {
      var m := MoveBalance(loc, orders[0].output, rune, q, outputs, orders[0].amount, ev);
      MoveRows(loc, orders[0].output, rune, q, outputs, orders[0].amount, ev);
      TakeKeepsOwned(q, orders[0].amount, 0);
      RunKeepsOwned(loc, rune, m.rest, outputs, orders[1..], ev + |m.Entries()|);
    }
  }

  lemma AddKeepsOwnedFirst(q: seq<Balance>, amount: nat)
    requires OwnedFirst(q)
    ensures OwnedFirst(q + [Balance(None, amount)])
  {
    var p := q + [Balance(None, amount)];
    forall i, j | 0 <= i <= j < |p| && p[j].address.Some? ensures p[i].address.Some? && p[i].amount > 0 {
      assert q[j].address.Some?;
    }
  }

  // ----- What the queues hold when a transaction begins -----

  ghost predicate ReceivesAreOwned(hist: seq<Entry>) {
    forall e :: e in hist && e.operation == Receive ==> e.Amount() > 0 && e.address.Some?
  }

  lemma {:induction false} ReceivesOwned(hist: seq<Entry>, o: Outpoint, rune: RuneId)
    requires ReceivesAreOwned(hist)
    ensures AllOwned(ReceivesAt(hist, o, rune))
  {
    if hist != [] {
      ReceivesOwned(DropLast(hist), o, rune);
      assert Last(hist) in hist;
    }
  }

  lemma {:induction false} GatherOwned(hist: seq<Entry>, ins: seq<Outpoint>, parts: seq<map<RuneId, seq<Balance>>>, rune: RuneId)
    requires IsLookup(hist, ins, parts) && ReceivesAreOwned(hist)
    ensures AllOwned(Queue(Gather(parts), rune))
  {
    if parts != [] {
      var n := |parts| - 1;
      forall i, r | 0 <= i < n ensures IsOneLookup(hist, DropLast(ins)[i], DropLast(parts)[i], r) {
        assert IsOneLookup(hist, ins[i], parts[i], r);
      }
      GatherOwned(hist, DropLast(ins), DropLast(parts), rune);
      assert IsOneLookup(hist, ins[n], parts[n], rune);
      ReceivesOwned(hist, ins[n], rune);
      forall b | b in Queue(parts[n], rune) ensures b.address.Some? && b.amount > 0 {
        assert b in multiset(ReceivesAt(hist, ins[n], rune));
      }
    }
  }

  // ----- What one step keeps -----

  /** The queues of the open transaction, of which nothing is ownerless before the first row. */
  ghost predicate QueuesOwned(tx: Tx) {
    forall r :: OwnedFirst(Queue(tx.inputs, r)) && (tx.nextEvent == 0 ==> AllOwned(Queue(tx.inputs, r)))
  }

  lemma StepKeepsOwned(tx: Tx, a: Action, rune: RuneId)
    requires !a.Begin? && QueuesOwned(tx)
    ensures var t := StepOf(tx, a).tx;
            OwnedFirst(Queue(t.inputs, rune)) && (t.nextEvent == 0 ==> AllOwned(Queue(t.inputs, rune)))
  {
    hide OwnedFirst, AllOwned, RunOrders, EdictOrders, IsRuneMintable, AllocateAll, BurnAll, FromEtching;
    NothingQueuedOwned();
    assert OwnedFirst(Queue(tx.inputs, rune));
    match a
    case DoEtch(etching) =>
      EtchedRune(etching, tx.loc);
      AddKeepsOwnedFirst(Queue(tx.inputs, rune), OrZero(etching.premine));
    case DoMint(r, totalMints, dbRune) =>
      AddKeepsOwnedFirst(Queue(tx.inputs, rune), OrZero(dbRune.termsAmount));
      MintableAmount(dbRune, totalMints, tx.loc.height);
    case DoEdict(edict) =>
      var id := EdictRune(tx, edict);
      if id == Some(rune) && rune in tx.inputs {
        var q := tx.inputs[rune];
        RunKeepsOwned(tx.loc, rune, q, tx.outputs, EdictOrders(edict, Total(q), tx.outputs, tx.totalOutputs), tx.nextEvent);
      }
    case _ =>
  }

  lemma MintableAmount(dbRune: DbRune, totalMints: nat, height: u64)
    ensures IsRuneMintable(dbRune, totalMints, height) ==> dbRune.termsAmount.Some?
  {
  }

  lemma NothingQueuedOwned()
    ensures OwnedFirst([]) && AllOwned([])
  {
  }

  // ----- No owner loses a unit -----

  lemma NothingHeldBehindOwnerless(q: seq<Balance>, who: Address)
    requires OwnedFirst(q) && q != [] && q[0].amount == 0
    ensures Held(q[1..], Owner(who)) == 0
  {
    forall b | b in q[1..] ensures HeldBy(Owner(who))(b) == 0 {
      var j :| 0 <= j < |q[1..]| && q[1..][j] == b;
      assert q[j + 1].address.None?;
    }
    SumZero(q[1..], HeldBy(Owner(who)));
  }

  lemma LostByKeepsOwners(loc: Location, pointer: Option<u32>, rune: RuneId, q: seq<Balance>, outputs: map<u32, Option<Address>>,
                          ev: nat, r: RuneId, who: Address)
    requires OwnedFirst(q)
    ensures LossSum(LostBy(rune, MoveBalance(loc, pointer, rune, q, outputs, 0, ev)), r, Owner(who)) == 0
  {
    hide MoveBalance, Dropping, OwnedFirst, Take;
    var m := MoveBalance(loc, pointer, rune, q, outputs, 0, ev);
    var unrecorded := Loss(rune, Balance(None, m.unrecorded), Unrecorded);
    MoveRows(loc, pointer, rune, q, outputs, 0, ev);
    TakeAll(q);
    LossAppend([unrecorded], Dropping(rune, m.rest), r, Owner(who));
    OneLoss(unrecorded, r, Owner(who));
    DroppingSum(rune, m.rest, r, Owner(who));
    LossEmpty(r, Owner(who));
    if q != [] && q[0].amount == 0 {
      NothingHeldBehindOwnerless(q, who);
    }
  }

  lemma {:induction false} AllocateAllKeepsOwners(tx: Tx, order: seq<RuneId>, r: RuneId, who: Address)
    requires QueuesOwned(tx)
    ensures LossSum(AllocateAll(tx, order).1, r, Owner(who)) == 0
  {
    hide MoveBalance, Move.Entries, LostBy, Queue, OwnedFirst, AllOwned, LossSum;
    LossEmpty(r, Owner(who));
    if order != [] {
      var (rows, lost) := AllocateAll(tx, DropLast(order));
      var rune := Last(order);
      var q := Queue(tx.inputs, rune);
      AllocateAllKeepsOwners(tx, DropLast(order), r, who);
      assert OwnedFirst(q);
      LostByKeepsOwners(tx.loc, tx.pointer, rune, q, tx.outputs, tx.nextEvent + |rows|, r, who);
      LossAppend(lost, LostBy(rune, MoveBalance(tx.loc, tx.pointer, rune, q, tx.outputs, 0, tx.nextEvent + |rows|)), r, Owner(who));
    }
  }

  lemma StepKeepsOwners(tx: Tx, a: Action, r: RuneId, who: Address)
    requires !a.Begin? && QueuesOwned(tx)
    ensures LossSum(StepOf(tx, a).lost, r, Owner(who)) == 0
  {
    hide RunOrders, EdictOrders, IsRuneMintable, AllocateAll, BurnAll, FromEtching, QueuesOwned, LossSum;
    LossEmpty(r, Owner(who));
    match a
    case DoEnd(order) => AllocateAllKeepsOwners(tx, order, r, who);
    case DoEdict(edict) =>
      var lost := StepOf(tx, a).lost;
      if lost != [] {
        assert lost == [lost[0]];
        OneLoss(lost[0], r, Owner(who));
      }
    case _ =>
  }

  // ----- Whole runs -----

  /** What every legal run keeps about owners. */
  ghost predicate OwnersSafe(s: State) {
    && ReceivesAreOwned(s.hist)
    && QueuesOwned(s.tx)
    && forall r, a :: LossSum(s.lost, r, Owner(a)) == 0
  }

  lemma RowsAreOwned(rows: seq<Entry>, loc: Location, ev: nat)
    requires AreRows(rows, loc, ev)
    ensures ReceivesAreOwned(rows)
  {
    forall e | e in rows ensures IsRow(e, loc) {
      var i :| 0 <= i < |rows| && rows[i] == e;
    }
  }
}
