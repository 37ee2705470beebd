/** Every step of a transaction accounts for every unit. */
module TransactionLaws {
  import opened Basics
  import opened Ledger
  import opened Moves
  import opened MoveLaws
  import opened Artifacts
  import opened Edicts
  import opened EdictLaws
  import opened Transactions

  /** Units of a rune: queued before or issued = queued after, received, burned on a row, or lost. */
  ghost predicate Balanced(before: Tx, s: Step, rune: RuneId) {
    Total(Queue(s.tx.inputs, rune))
    + RowSum(s.entries, Receive, rune, Anyone) + RowSum(s.entries, Burn, rune, Anyone) + LossSum(s.lost, rune, Anyone)
    == Total(Queue(before.inputs, rune)) + IssueSum(s.issued, rune)
  }

  /** One owner's units of a rune: queued before = queued after, sent, burned, or lost. */
  ghost predicate OwnerBalanced(before: Tx, s: Step, rune: RuneId, a: Address) {
    Held(Queue(s.tx.inputs, rune), Owner(a))
    + RowSum(s.entries, Send, rune, Owner(a)) + RowSum(s.entries, Burn, rune, Owner(a)) + LossSum(s.lost, rune, Owner(a))
    == Held(Queue(before.inputs, rune), Owner(a))
  }

  lemma AddInputHeld(inputs: map<RuneId, seq<Balance>>, rune: RuneId, b: Balance, r: RuneId, who: Who)
    ensures Held(Queue(AddInput(inputs, rune, b), r), who)
         == Held(Queue(inputs, r), who) + if r == rune then HeldBy(who)(b) else 0
  {
    SumSnoc(Queue(inputs, rune), b, HeldBy(who));
  }

  lemma LossEmpty(rune: RuneId, who: Who)
    ensures LossSum([], rune, who) == 0 && IssueSum([], rune) == 0 && Held([], who) == 0
  {
  }

  lemma LossAppend(a: seq<Loss>, b: seq<Loss>, rune: RuneId, who: Who)
    ensures LossSum(a + b, rune, who) == LossSum(a, rune, who) + LossSum(b, rune, who)
  {
    SumAppend(a, b, LossWeight(rune, who));
  }

  lemma OneLoss(l: Loss, rune: RuneId, who: Who)
    ensures LossSum([l], rune, who) == LossWeight(rune, who)(l)
  {
    SumOne(l, LossWeight(rune, who));
  }

  lemma {:induction false} DroppingSum(rune: RuneId, q: seq<Balance>, r: RuneId, who: Who)
    ensures LossSum(Dropping(rune, q), r, who) == if r == rune then Held(q, who) else 0
  {
    if q != [] {
      DroppingSum(rune, DropLast(q), r, who);
      assert DropLast(Dropping(rune, q)) == Dropping(rune, DropLast(q));
    }
  }

  lemma {:induction false} BurnRowsSum(loc: Location, rune: RuneId, q: seq<Balance>, ev: nat, op: Operation, r: RuneId, who: Who)
    ensures RowSum(BurnRows(loc, rune, q, ev), op, r, who) == if op == Burn && r == rune then Held(q, who) else 0
  {
    if q != [] {
      BurnRowsSum(loc, rune, DropLast(q), ev, op, r, who);
      assert DropLast(BurnRows(loc, rune, q, ev)) == BurnRows(loc, rune, DropLast(q), ev);
    }
  }

  ghost predicate Distinct(order: seq<RuneId>) {
    forall i, j :: 0 <= i < j < |order| ==> order[i] != order[j]
  }

  lemma DistinctInit(order: seq<RuneId>)
    requires order != [] && Distinct(order)
    ensures Distinct(DropLast(order)) && Last(order) !in DropLast(order)
    ensures forall r :: r in order <==> r in DropLast(order) || r == Last(order)
  {
    assert order == DropLast(order) + [Last(order)];
  }

  lemma {:induction false} BurnAllSum(loc: Location, inputs: map<RuneId, seq<Balance>>, order: seq<RuneId>, ev: nat,
                                      op: Operation, r: RuneId, who: Who)
    requires Distinct(order)
    ensures RowSum(BurnAll(loc, inputs, order, ev), op, r, who)
         == if op == Burn && r in order then Held(Queue(inputs, r), who) else 0
  {
    hide RowSum, Held, BurnRows, Queue;
    if order == [] {
      RowSumEmpty(op, r, who);
    } else {
      var rows := BurnAll(loc, inputs, DropLast(order), ev);
      DistinctInit(order);
      BurnAllSum(loc, inputs, DropLast(order), ev, op, r, who);
      BurnRowsSum(loc, Last(order), Queue(inputs, Last(order)), ev + |rows|, op, r, who);
      RowSumAppend(rows, BurnRows(loc, Last(order), Queue(inputs, Last(order)), ev + |rows|), op, r, who);
    }
  }

  lemma BurnInputsBalanced(tx: Tx, order: seq<RuneId>, rune: RuneId)
    requires Enumerates(order, tx.inputs)
    ensures Balanced(tx, BurnInputs(tx, order), rune)
    ensures forall a :: OwnerBalanced(tx, BurnInputs(tx, order), rune, a)
  {
    hide RowSum, Held, BurnAll;
    BurnAllSum(tx.loc, tx.inputs, order, tx.nextEvent, Burn, rune, Anyone);
    BurnAllSum(tx.loc, tx.inputs, order, tx.nextEvent, Receive, rune, Anyone);
    LossEmpty(rune, Anyone);
    forall a ensures OwnerBalanced(tx, BurnInputs(tx, order), rune, a) {
      BurnAllSum(tx.loc, tx.inputs, order, tx.nextEvent, Burn, rune, Owner(a));
      BurnAllSum(tx.loc, tx.inputs, order, tx.nextEvent, Send, rune, Owner(a));
      LossEmpty(rune, Owner(a));
    }
  }

  /** The move that ends a transaction for one rune, together with what `clear()` drops afterwards. */
  lemma AllocateOne(loc: Location, pointer: Option<u32>, rune: RuneId, q: seq<Balance>, outputs: map<u32, Option<Address>>,
                    ev: nat, r: RuneId)
    ensures var m := MoveBalance(loc, pointer, rune, q, outputs, 0, ev);
            var lost := LostBy(rune, m);
            && RowSum(m.Entries(), Receive, r, Anyone) + RowSum(m.Entries(), Burn, r, Anyone) + LossSum(lost, r, Anyone)
               == (if r == rune then Total(q) else 0)
            && forall a ::
                 RowSum(m.Entries(), Send, r, Owner(a)) + RowSum(m.Entries(), Burn, r, Owner(a)) + LossSum(lost, r, Owner(a))
                 == if r == rune then Held(q, Owner(a)) else 0
  {
    hide MoveBalance, RowSum, Held, LossSum, Dropping, Move.Entries;
    var m := MoveBalance(loc, pointer, rune, q, outputs, 0, ev);
    var unrecorded := Loss(rune, Balance(None, m.unrecorded), Unrecorded);
    EntriesOfMove(loc, pointer, rune, q, outputs, 0, ev, r);
    LossAppend([unrecorded], Dropping(rune, m.rest), r, Anyone);
    OneLoss(unrecorded, r, Anyone);
    DroppingSum(rune, m.rest, r, Anyone);
    MoveKeepsUnits(loc, pointer, rune, q, outputs, 0, ev);
    forall a ensures RowSum(m.Entries(), Send, r, Owner(a)) + RowSum(m.Entries(), Burn, r, Owner(a))
                     + LossSum(LostBy(rune, m), r, Owner(a))
                     == (if r == rune then Held(q, Owner(a)) else 0)
    {
      LossAppend([unrecorded], Dropping(rune, m.rest), r, Owner(a));
      OneLoss(unrecorded, r, Owner(a));
      DroppingSum(rune, m.rest, r, Owner(a));
      MoveKeepsOwner(loc, pointer, rune, q, outputs, 0, ev, a);
    }
  }

  /** A move writes no row of another rune. */
  lemma EntriesOfMove(loc: Location, output: Option<u32>, rune: RuneId, q: seq<Balance>, outputs: map<u32, Option<Address>>,
                      amount: nat, ev: nat, r: RuneId)
    ensures var m := MoveBalance(loc, output, rune, q, outputs, amount, ev);
            r != rune ==> forall op, who :: RowSum(m.Entries(), op, r, who) == 0
  {
    var m := MoveBalance(loc, output, rune, q, outputs, amount, ev);
    MoveShape(loc, output, rune, q, outputs, amount, ev);
    if r != rune {
      forall op, who ensures RowSum(m.Entries(), op, r, who) == 0 {
        RowSumOther(m.Entries(), op, r, who);
      }
    }
  }

  lemma {:induction false} AllocateAllSum(tx: Tx, order: seq<RuneId>, r: RuneId)
    requires Distinct(order)
    ensures var (rows, lost) := AllocateAll(tx, order);
            && RowSum(rows, Receive, r, Anyone) + RowSum(rows, Burn, r, Anyone) + LossSum(lost, r, Anyone)
               == (if r in order then Total(Queue(tx.inputs, r)) else 0)
            && forall a ::
                 RowSum(rows, Send, r, Owner(a)) + RowSum(rows, Burn, r, Owner(a)) + LossSum(lost, r, Owner(a))
                 == if r in order then Held(Queue(tx.inputs, r), Owner(a)) else 0
  {
    hide MoveBalance, RowSum, Held, Total, LossSum, LostBy, Move.Entries, Queue;
    if order == [] {
      AllocateNothing(r);
    } else {
      var (rows, lost) := AllocateAll(tx, DropLast(order));
      var rune := Last(order);
      var q := Queue(tx.inputs, rune);
      var m := MoveBalance(tx.loc, tx.pointer, rune, q, tx.outputs, 0, tx.nextEvent + |rows|);
      DistinctInit(order);
      AllocateAllSum(tx, DropLast(order), r);
      AllocateOne(tx.loc, tx.pointer, rune, q, tx.outputs, tx.nextEvent + |rows|, r);
      AllocateAppend(rows, m.Entries(), lost, LostBy(rune, m), r);
    }
  }

  lemma AllocateNothing(r: RuneId)
    ensures forall op, who :: RowSum([], op, r, who) == 0
    ensures forall who :: LossSum([], r, who) == 0
  {
  }

  lemma AllocateAppend(rows: seq<Entry>, more: seq<Entry>, lost: seq<Loss>, last: seq<Loss>, r: RuneId)
    ensures forall op, who :: RowSum(rows + more, op, r, who) == RowSum(rows, op, r, who) + RowSum(more, op, r, who)
    ensures forall who :: LossSum(lost + last, r, who) == LossSum(lost, r, who) + LossSum(last, r, who)
  {
    hide RowSum, LossSum;
    forall op, who {
      RowSumAppend(rows, more, op, r, who);
    }
    forall who {
      LossAppend(lost, last, r, who);
    }
  }

  lemma AllocateRemainingBalanced(tx: Tx, order: seq<RuneId>, rune: RuneId)
    requires Enumerates(order, tx.inputs)
    ensures Balanced(tx, AllocateRemaining(tx, order), rune)
    ensures forall a :: OwnerBalanced(tx, AllocateRemaining(tx, order), rune, a)
  {
    hide RowSum, Held, LossSum, AllocateAll;
    AllocateAllSum(tx, order, rune);
    LossEmpty(rune, Anyone);
    forall a ensures OwnerBalanced(tx, AllocateRemaining(tx, order), rune, a) {
      LossEmpty(rune, Owner(a));
    }
  }

  lemma EtchedRune(etching: Etching, loc: Location)
    ensures var rune := FromEtching(etching, loc); rune.id == loc.Id() && rune.premine == OrZero(etching.premine)
  {
  }

  /** The name of a rune: the one it was etched with, or the one reserved for its place; in a cenotaph the one the cenotaph has. */
  lemma NameIs(etching: Etching, name: u128, loc: Location)
    ensures var rune := FromEtching(etching, loc);
            && rune.id == RuneId(loc.height, loc.txIndex) && rune.height == loc.height
            && rune.name == if etching.rune.Some? then etching.rune.value
                            else 6402364363415443603228541259936211926 + 4294967296 * loc.height + loc.txIndex
    ensures FromCenotaphEtching(name, loc).id == RuneId(loc.height, loc.txIndex) && FromCenotaphEtching(name, loc).name == name
  {
  }

  /** A mint of a rune pays the amount of the terms it was etched with, once, into the queue of the transaction. */
  lemma MintPaysItsTerms(tx: Tx, id: RuneId, totalMints: nat, etching: Etching, loc: Location)
    requires IsRuneMintable(FromEtching(etching, loc), totalMints, tx.loc.height)
    ensures etching.terms.Some? && etching.terms.value.amount.Some?
    ensures var amount, s := etching.terms.value.amount.value, MintRune(tx, id, totalMints, FromEtching(etching, loc));
            && Queue(s.tx.inputs, id) == Queue(tx.inputs, id) + [Balance(None, amount)]
            && |s.entries| == 1 && s.entries[0].operation == Mint && s.entries[0].amount == Some(amount)
            && (forall r :: r != id ==> Queue(s.tx.inputs, r) == Queue(tx.inputs, r))
  {
  }

  /** An etching puts its premine, if it says one, into the queue of the transaction. */
  lemma EtchQueuesItsPremine(tx: Tx, etching: Etching)
    ensures var s := Etch(tx, etching);
            && Queue(s.tx.inputs, RuneId(tx.loc.height, tx.loc.txIndex))
               == Queue(tx.inputs, RuneId(tx.loc.height, tx.loc.txIndex))
                  + (if etching.premine.Some? then [Balance(None, etching.premine.value)] else [])
            && (forall r :: r != RuneId(tx.loc.height, tx.loc.txIndex) ==> Queue(s.tx.inputs, r) == Queue(tx.inputs, r))
  {
  }

  /** Within an optional window, both ends included. */
  predicate Within(h: u64, from: Option<u64>, to: Option<u64>) {
    (from.Some? ==> from.value <= h) && (to.Some? ==> h <= to.value)
  }

  function OffsetFrom(base: u64, offset: Option<u64>): Option<u64> {
    if offset.Some? then Some((base + offset.value) % 0x1_0000_0000_0000_0000) else None
  }

  /** When a rune that was etched can be minted: it has terms with an amount, the cap is not reached, and the height lies in
      the window of heights and in the window of offsets from the etching. A rune etched in a cenotaph never can. */
  lemma MintableExactly(etching: Etching, name: u128, loc: Location, totalMints: nat, h: u64)
    ensures IsRuneMintable(FromEtching(etching, loc), totalMints, h) <==>
            && etching.terms.Some? && etching.terms.value.amount.Some?
            && (etching.terms.value.cap.Some? ==> totalMints < etching.terms.value.cap.value)
            && Within(h, etching.terms.value.height.0, etching.terms.value.height.1)
            && Within(h, OffsetFrom(loc.height, etching.terms.value.offset.0), OffsetFrom(loc.height, etching.terms.value.offset.1))
    ensures !IsRuneMintable(FromCenotaphEtching(name, loc).(cenotaph := false), totalMints, h)
  {
  }

  lemma EtchBalanced(tx: Tx, etching: Etching, rune: RuneId)
    ensures Balanced(tx, Etch(tx, etching), rune)
    ensures forall a :: OwnerBalanced(tx, Etch(tx, etching), rune, a)
  {
    hide FromEtching, AddInput, Held, RowSum, LossSum, IssueSum;
    EtchedRune(etching, tx.loc);
    var s := Etch(tx, etching);
    OneRow(s.entries, rune);
    OneIssue(s.issued[0], rune);
    var premine := Balance(None, OrZero(etching.premine));
    AddInputHeld(tx.inputs, tx.loc.Id(), premine, rune, Anyone);
    forall a ensures OwnerBalanced(tx, s, rune, a) {
      AddInputHeld(tx.inputs, tx.loc.Id(), premine, rune, Owner(a));
    }
  }

  lemma OneIssue(i: Issue, rune: RuneId)
    ensures IssueSum([i], rune) == if i.rune == rune then i.amount else 0
  {
    SumOne(i, IssueWeight(rune));
  }

  /** The sums over a single row. */
  lemma OneRow(rows: seq<Entry>, rune: RuneId)
    requires |rows| == 1
    ensures forall op, who :: RowSum(rows, op, rune, who) == RowWeight(op, rune, who)(rows[0])
    ensures forall who :: LossSum([], rune, who) == 0
    ensures IssueSum([], rune) == 0
  {
    assert rows == [rows[0]];
    forall op, who {
      SumOne(rows[0], RowWeight(op, rune, who));
    }
  }

  lemma EtchCenotaphBalanced(tx: Tx, name: u128, rune: RuneId)
    ensures Balanced(tx, EtchCenotaph(tx, name), rune)
    ensures forall a :: OwnerBalanced(tx, EtchCenotaph(tx, name), rune, a)
  {
    OneRow(EtchCenotaph(tx, name).entries, rune);
  }

  lemma MintBalanced(tx: Tx, minted: RuneId, totalMints: nat, dbRune: DbRune, rune: RuneId)
    ensures Balanced(tx, MintRune(tx, minted, totalMints, dbRune), rune)
    ensures forall a :: OwnerBalanced(tx, MintRune(tx, minted, totalMints, dbRune), rune, a)
  {
    hide IsRuneMintable;
    var s := MintRune(tx, minted, totalMints, dbRune);
    if s.entries == [] {
      NoRow(tx, rune);
    } else {
      OneRow(s.entries, rune);
      SumOne(s.issued[0], IssueWeight(rune));
      AddInputHeld(tx.inputs, minted, Balance(None, s.issued[0].amount), rune, Anyone);
      forall a ensures OwnerBalanced(tx, s, rune, a) {
        AddInputHeld(tx.inputs, minted, Balance(None, s.issued[0].amount), rune, Owner(a));
      }
    }
  }

  lemma NoRow(tx: Tx, rune: RuneId)
    ensures Balanced(tx, Step(tx, [], [], []), rune)
    ensures forall a :: OwnerBalanced(tx, Step(tx, [], [], []), rune, a)
  {
    AllocateNothing(rune);
    LossEmpty(rune, Anyone);
  }

  lemma MintInCenotaphBalanced(tx: Tx, minted: RuneId, totalMints: nat, dbRune: DbRune, rune: RuneId)
    ensures Balanced(tx, MintInCenotaph(tx, minted, totalMints, dbRune), rune)
    ensures forall a :: OwnerBalanced(tx, MintInCenotaph(tx, minted, totalMints, dbRune), rune, a)
  {
    hide IsRuneMintable;
    var s := MintInCenotaph(tx, minted, totalMints, dbRune);
    if s.entries == [] {
      NoRow(tx, rune);
    } else {
      OneRow(s.entries, rune);
      SumOne(s.issued[0], IssueWeight(rune));
    }
  }

  lemma MoveEdictBalanced(tx: Tx, edict: Edict, rune: RuneId)
    ensures Balanced(tx, MoveEdict(tx, edict), rune)
    ensures forall a :: OwnerBalanced(tx, MoveEdict(tx, edict), rune, a)
  {
    hide RunOrders, EdictOrders, RowSum, LossSum, Held;
    var id := EdictRune(tx, edict);
    if id.None? || id.value !in tx.inputs {
      NoRow(tx, rune);
    } else {
      var q := tx.inputs[id.value];
      var orders := EdictOrders(edict, Total(q), tx.outputs, tx.totalOutputs);
      var r := RunOrders(tx.loc, id.value, q, tx.outputs, orders, tx.nextEvent);
      var unrecorded := Loss(id.value, Balance(None, r.unrecorded), Unrecorded);
      OneLoss(unrecorded, rune, Anyone);
      LossEmpty(rune, Anyone);
      RunKeepsUnits(tx.loc, id.value, q, tx.outputs, orders, tx.nextEvent);
      RunShape(tx.loc, id.value, q, tx.outputs, orders, tx.nextEvent);
      NoOtherRune(r.entries, id.value, rune);
      forall a ensures OwnerBalanced(tx, MoveEdict(tx, edict), rune, a) {
        OneLoss(unrecorded, rune, Owner(a));
        RunKeepsOwner(tx.loc, id.value, q, tx.outputs, orders, tx.nextEvent, a);
      }
    }
  }

  lemma NoOtherRune(rows: seq<Entry>, rune: RuneId, r: RuneId)
    requires forall e :: e in rows ==> e.rune == rune
    ensures r != rune ==> forall op, who :: RowSum(rows, op, r, who) == 0
  {
    if r != rune {
      forall op, who {
        RowSumOther(rows, op, r, who);
      }
    }
  }

  // ----- The shape of the rows -----

  /** A row as this transaction writes it. */
  ghost predicate IsRow(e: Entry, loc: Location) {
    && e.height == loc.height && e.txIndex == loc.txIndex && e.txId == loc.txId
    && (e.amount.None? <==> e.operation == Operation.Etching)
    && (e.operation == Receive ==> e.address.Some? && e.output.Some? && e.Amount() > 0)
  }

  /** Rows of one transaction, numbered from `ev` on. */
  ghost predicate AreRows(rows: seq<Entry>, loc: Location, ev: nat) {
    forall i :: 0 <= i < |rows| ==> IsRow(rows[i], loc) && rows[i].eventIndex == ev + i
  }

  lemma RowsAppend(a: seq<Entry>, b: seq<Entry>, loc: Location, ev: nat)
    requires AreRows(a, loc, ev) && AreRows(b, loc, ev + |a|)
    ensures AreRows(a + b, loc, ev)
  {
  }

  lemma MoveAreRows(loc: Location, output: Option<u32>, rune: RuneId, q: seq<Balance>, outputs: map<u32, Option<Address>>,
                    amount: nat, ev: nat)
    ensures var m := MoveBalance(loc, output, rune, q, outputs, amount, ev);
            && AreRows(m.Entries(), loc, ev)
            && forall e :: e in m.Entries() ==>
                 e.rune == rune && (e.operation == Receive || e.operation == Send || e.operation == Burn)
  {
    var m := MoveBalance(loc, output, rune, q, outputs, amount, ev);
    assert AreRows(m.received, loc, ev);
    assert AreRows(m.sends, loc, ev + |m.received|);
    RowsAppend(m.received, m.sends, loc, ev);
    MoveShape(loc, output, rune, q, outputs, amount, ev);
  }

  lemma {:induction false} RunShape(loc: Location, rune: RuneId, q: seq<Balance>, outputs: map<u32, Option<Address>>,
                                    orders: seq<Order>, ev: nat)
    ensures var r := RunOrders(loc, rune, q, outputs, orders, ev);
            && AreRows(r.entries, loc, ev)
            && forall e :: e in r.entries ==>
                 e.rune == rune && (e.operation == Receive || e.operation == Send || e.operation == Burn)
    decreases |orders|
  {
    hide MoveBalance, Move.Entries, IsRow;
    if orders != [] {
      var m := MoveBalance(loc, orders[0].output, rune, q, outputs, orders[0].amount, ev);
      var r := RunOrders(loc, rune, m.rest, outputs, orders[1..], ev + |m.Entries()|);
      MoveAreRows(loc, orders[0].output, rune, q, outputs, orders[0].amount, ev);
      RunShape(loc, rune, m.rest, outputs, orders[1..], ev + |m.Entries()|);
      RowsAppend(m.Entries(), r.entries, loc, ev);
    }
  }

  lemma {:induction false} BurnAllAreRows(loc: Location, inputs: map<RuneId, seq<Balance>>, order: seq<RuneId>, ev: nat)
    ensures AreRows(BurnAll(loc, inputs, order, ev), loc, ev)
    ensures forall e :: e in BurnAll(loc, inputs, order, ev) ==> e.rune in order && e.operation == Burn
  {
    if order != [] {
      var rows := BurnAll(loc, inputs, DropLast(order), ev);
      BurnAllAreRows(loc, inputs, DropLast(order), ev);
      RowsAppend(rows, BurnRows(loc, Last(order), Queue(inputs, Last(order)), ev + |rows|), loc, ev);
    }
  }

  lemma {:induction false} AllocateAllAreRows(tx: Tx, order: seq<RuneId>)
    ensures AreRows(AllocateAll(tx, order).0, tx.loc, tx.nextEvent)
    ensures forall e :: e in AllocateAll(tx, order).0 ==>
              e.rune in order && (e.operation == Receive || e.operation == Send || e.operation == Burn)
  {
    hide MoveBalance, Move.Entries, IsRow, LostBy;
    if order != [] {
      var (rows, _) := AllocateAll(tx, DropLast(order));
      AllocateAllAreRows(tx, DropLast(order));
      MoveAreRows(tx.loc, tx.pointer, Last(order), Queue(tx.inputs, Last(order)), tx.outputs, 0, tx.nextEvent + |rows|);
      var m := MoveBalance(tx.loc, tx.pointer, Last(order), Queue(tx.inputs, Last(order)), tx.outputs, 0, tx.nextEvent + |rows|);
      RowsAppend(rows, m.Entries(), tx.loc, tx.nextEvent);
    }
  }
}
