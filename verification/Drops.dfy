/** When the end of a transaction drops units: the closing move of everything stops at a zero piece in front, and `clear()`
    drops the rest. Exactly when this happens, and who receives the rest when it does not. */
module Drops {
  import opened Basics
  import opened Ledger
  import opened Moves
  import opened MoveLaws
  import opened Artifacts
  import opened Edicts
  import opened EdictLaws
  import opened Transactions
  import opened TransactionLaws
  import opened Outputs
  import opened Machine
  import opened Conservation
  import opened SupplyBounds

  function DropWeight(rune: RuneId): Loss -> nat {
    (l: Loss) => if l.rune == rune && l.fate == Dropped then l.balance.amount else 0
  }

  /** The units of a rune that were dropped. */
  ghost function DroppedSum(lost: seq<Loss>, rune: RuneId): nat {
    Sum(lost, DropWeight(rune))
  }

  lemma DroppedAppend(a: seq<Loss>, b: seq<Loss>, rune: RuneId)
    ensures DroppedSum(a + b, rune) == DroppedSum(a, rune) + DroppedSum(b, rune) && DroppedSum([], rune) == 0
  {
    SumAppend(a, b, DropWeight(rune));
  }

  lemma {:induction false} DroppingTotal(rune: RuneId, q: seq<Balance>, r: RuneId)
    ensures DroppedSum(Dropping(rune, q), r) == if r == rune then Total(q) else 0
  {
    if q != [] {
      DroppingTotal(rune, DropLast(q), r);
      assert DropLast(Dropping(rune, q)) == Dropping(rune, DropLast(q));
    }
  }

  lemma LostByMove(loc: Location, pointer: Option<u32>, rune: RuneId, q: seq<Balance>, outputs: map<u32, Option<Address>>,
                   ev: nat, r: RuneId)
    ensures DroppedSum(LostBy(rune, MoveBalance(loc, pointer, rune, q, outputs, 0, ev)), r)
         == if r == rune && Stalls(q) then Total(q) else 0
  {
    hide MoveBalance, Dropping, Total, Take;
    var m := MoveBalance(loc, pointer, rune, q, outputs, 0, ev);
    var unrecorded := Loss(rune, Balance(None, m.unrecorded), Unrecorded);
    DroppedAppend([unrecorded], Dropping(rune, m.rest), r);
    SumOne(unrecorded, DropWeight(r));
    DroppingTotal(rune, m.rest, r);
    MoveRows(loc, pointer, rune, q, outputs, 0, ev);
    TakeTotal(q, 0);
  }

  lemma {:induction false} AllocateAllDrops(tx: Tx, order: seq<RuneId>, r: RuneId)
    requires Distinct(order)
    ensures DroppedSum(AllocateAll(tx, order).1, r)
         == if r in order && Stalls(Queue(tx.inputs, r)) then Total(Queue(tx.inputs, r)) else 0
  {
    hide MoveBalance, Move.Entries, LostBy, Stalls, Total, Queue, DroppedSum;
    DroppedAppend([], [], r);
    if order != [] {
      var (rows, lost) := AllocateAll(tx, DropLast(order));
      var rune := Last(order);
      var q := Queue(tx.inputs, rune);
      DistinctInit(order);
      AllocateAllDrops(tx, DropLast(order), r);
      LostByMove(tx.loc, tx.pointer, rune, q, tx.outputs, tx.nextEvent + |rows|, r);
      DroppedAppend(lost, LostBy(rune, MoveBalance(tx.loc, tx.pointer, rune, q, tx.outputs, 0, tx.nextEvent + |rows|)), r);
    }
  }

  /** The end of a transaction drops units of a rune if and only if its queue starts with a zero piece and is not worth zero;
      then it drops all of it. Otherwise the closing `clear()` finds nothing. */
  lemma EndDrops(tx: Tx, order: seq<RuneId>, rune: RuneId)
    requires Enumerates(order, tx.inputs)
    ensures DroppedSum(AllocateRemaining(tx, order).lost, rune)
         == if Stalls(Queue(tx.inputs, rune)) then Total(Queue(tx.inputs, rune)) else 0
  {
    hide AllocateAll, DroppedSum;
    AllocateAllDrops(tx, order, rune);
  }

  // ----- Who receives the rest -----

  lemma {:induction false} AllocateAllReceives(tx: Tx, order: seq<RuneId>, r: RuneId, a: Address)
    requires Distinct(order)
    ensures RowSum(AllocateAll(tx, order).0, Receive, r, Owner(a))
         == if r in order && Receiver(tx.outputs, tx.pointer) == Some(a) then Moved(Queue(tx.inputs, r), 0) else 0
  {
    hide MoveBalance, Move.Entries, LostBy, Moved, Queue, RowSum, Receiver;
    RowSumEmpty(Receive, r, Owner(a));
    if order != [] {
      var (rows, lost) := AllocateAll(tx, DropLast(order));
      var rune := Last(order);
      var q := Queue(tx.inputs, rune);
      DistinctInit(order);
      AllocateAllReceives(tx, DropLast(order), r, a);
      ReceivedByMove(tx.loc, tx.pointer, rune, q, tx.outputs, 0, tx.nextEvent + |rows|, r, a);
      RowSumAppend(rows, MoveBalance(tx.loc, tx.pointer, rune, q, tx.outputs, 0, tx.nextEvent + |rows|).Entries(), Receive, r, Owner(a));
    }
  }

  /** What is left at the end of a transaction goes to the address of its pointer (or of its first eligible output), and to
      nobody else: all of it, unless the queue stalls. */
  lemma EndReceives(tx: Tx, order: seq<RuneId>, rune: RuneId, a: Address)
    requires Enumerates(order, tx.inputs)
    ensures RowSum(AllocateRemaining(tx, order).entries, Receive, rune, Owner(a))
         == if Receiver(tx.outputs, tx.pointer) != Some(a) || Stalls(Queue(tx.inputs, rune)) then 0 else Total(Queue(tx.inputs, rune))
  {
    hide AllocateAll, RowSum, Receiver;
    AllocateAllReceives(tx, order, rune, a);
    NothingOfNothing();
  }

  lemma NothingOfNothing()
    ensures Total([]) == 0
  {
  }

  // ----- Queues that never stall -----

  /** No positive piece stands behind a zero one. */
  predicate ZerosLast(q: seq<Balance>) {
    forall i, j :: 0 <= i < j < |q| && q[i].amount == 0 ==> q[j].amount == 0
  }

  lemma {:induction false} ZeroTotal(q: seq<Balance>)
    requires forall b :: b in q ==> b.amount == 0
    ensures Total(q) == 0
  {
    SumZero(q, HeldBy(Anyone));
  }

  lemma ZerosLastNeverStalls(q: seq<Balance>)
    requires ZerosLast(q)
    ensures !Stalls(q)
  {
    if q != [] && q[0].amount == 0 {
      ZeroTotal(q);
    }
  }

  lemma {:induction false} TakeKeepsZerosLast(q: seq<Balance>, amount: nat, sent: nat)
    requires ZerosLast(q) && (amount == 0 || sent < amount)
    ensures ZerosLast(Take(q, amount, sent).rest)
  {
    if q != [] {
      var taken := if amount == 0 then q[0].amount else Min(q[0].amount, amount - sent);
      if taken == q[0].amount && sent + taken != amount {
        TakeKeepsZerosLast(q[1..], amount, sent + taken);
      }
    }
  }

  lemma {:induction false} RunKeepsZerosLast(loc: Location, rune: RuneId, q: seq<Balance>, outputs: map<u32, Option<Address>>,
                                             orders: seq<Order>, ev: nat)
    requires ZerosLast(q)
    ensures ZerosLast(RunOrders(loc, rune, q, outputs, orders, ev).rest)
    decreases |orders|
  {
    hide MoveBalance, ZerosLast, Move.Entries, Take;
    if orders != [] {
      var m := MoveBalance(loc, orders[0].output, rune, q, outputs, orders[0].amount, ev);
      MoveRows(loc, orders[0].output, rune, q, outputs, orders[0].amount, ev);
      TakeKeepsZerosLast(q, orders[0].amount, 0);
      RunKeepsZerosLast(loc, rune, m.rest, outputs, orders[1..], ev + |m.Entries()|);
    }
  }
}
