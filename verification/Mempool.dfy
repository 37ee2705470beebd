/** The second edict engine (src/mempool.rs:626-877). It takes pieces off the end of a vector where the block engine takes them
    off the front of a deque; what each output receives is the same all the same. */
module Mempool {
  import opened Basics
  import opened Ledger
  import opened Moves
  import opened MoveLaws
  import opened Artifacts
  import opened Edicts
  import opened EdictLaws
  import opened Transactions
  import opened RowLaws

  datatype MempoolEntry = MempoolEntry(
    rune: RuneId, eventIndex: nat, txId: string, output: Option<u32>, address: Option<Address>,
    receiver: Option<Address>, amount: nat, operation: Operation)

  /** What the popping loop takes once `sent` units have been taken. */
  function TakeBack(q: seq<Balance>, amount: nat, sent: nat): Taken
    requires amount == 0 || sent < amount
  {
    if q == [] then
      Taken([], [])
    else
      var last := Last(q);
      var taken := if amount == 0 then last.amount else Min(last.amount, amount - sent);
      if taken < last.amount then
        Taken([Balance(last.address, taken)], DropLast(q) + [Balance(last.address, last.amount - taken)])
      else if sent + taken == amount then
        Taken([last], DropLast(q))
      else
        var t := TakeBack(DropLast(q), amount, sent + taken);
        Taken([last] + t.pieces, t.rest)
  }

  datatype BackMove = BackMove(rest: seq<Balance>, entries: seq<MempoolEntry>)

  function ReceivedRow(txId: string, output: Option<u32>, rune: RuneId, receiver: Option<Address>, sent: nat, ev: nat):
      seq<MempoolEntry> {
    if receiver.Some? && sent > 0 then [MempoolEntry(rune, ev, txId, output, receiver, None, sent, Receive)] else []
  }

  function SentRow(txId: string, output: Option<u32>, rune: RuneId, receiver: Option<Address>, sender: Balance, ev: nat): MempoolEntry {
    MempoolEntry(rune, ev, txId, output, sender.address, receiver, sender.amount, if receiver.Some? then Send else Burn)
  }

  function SentRows(txId: string, output: Option<u32>, rune: RuneId, receiver: Option<Address>, senders: seq<Balance>, ev: nat):
      (rows: seq<MempoolEntry>)
    ensures |rows| == |senders|
  {
    seq(|senders|, i requires 0 <= i < |senders| => SentRow(txId, output, rune, receiver, senders[i], ev + i))
  }

  function MoveBack(txId: string, output: Option<u32>, rune: RuneId, q: seq<Balance>, outputs: map<u32, Option<Address>>,
                    amount: nat, ev: nat): BackMove {
    var t := TakeBack(q, amount, 0);
    var receiver := Receiver(outputs, output);
    var received := ReceivedRow(txId, output, rune, receiver, Total(t.pieces), ev);
    BackMove(t.rest, received + SentRows(txId, output, rune, receiver, Owned(t.pieces), ev + |received|))
  }

  function RunBack(txId: string, rune: RuneId, q: seq<Balance>, outputs: map<u32, Option<Address>>, orders: seq<Order>, ev: nat): BackMove
    decreases |orders|
  {
    if orders == [] then BackMove(q, [])
    else
      var m := MoveBack(txId, orders[0].output, rune, q, outputs, orders[0].amount, ev);
      var r := RunBack(txId, rune, m.rest, outputs, orders[1..], ev + |m.entries|);
      BackMove(r.rest, m.entries + r.entries)
  }

  datatype Collected = Collected(inputs: map<RuneId, seq<Balance>>, entries: seq<MempoolEntry>, nextEvent: nat)

  /** One edict: the same moves as in a block, except that 0:0 means nothing here. */
  function CollectEdict(txId: string, edict: Edict, inputs: map<RuneId, seq<Balance>>, outputs: map<u32, Option<Address>>,
                        totalOutputs: u32, ev: nat): Collected {
    if edict.id == SELF_ID || edict.id !in inputs then
      Collected(inputs, [], ev)
    else
      var q := inputs[edict.id];
      var r := RunBack(txId, edict.id, q, outputs, EdictOrders(edict, Total(q), outputs, totalOutputs), ev);
      Collected(inputs[edict.id := r.rest], r.entries, ev + |r.entries|)
  }

  // ----- The loops -----

  lemma TakeBackStep(pieces: seq<Balance>, rest: seq<Balance>, amount: nat, sent: nat)
    requires rest != [] && (amount == 0 || sent < amount)
    ensures var taken := if amount == 0 then Last(rest).amount else Min(Last(rest).amount, amount - sent);
            var pieces' := pieces + [Balance(Last(rest).address, taken)];
            Prepend(pieces, TakeBack(rest, amount, sent)) ==
            if taken < Last(rest).amount then
              Taken(pieces', DropLast(rest) + [Balance(Last(rest).address, Last(rest).amount - taken)])
            else if sent + taken == amount then
              Taken(pieces', DropLast(rest))
            else
              Prepend(pieces', TakeBack(DropLast(rest), amount, sent + taken))
  {
    var taken := if amount == 0 then Last(rest).amount else Min(Last(rest).amount, amount - sent);
    if taken == Last(rest).amount && sent + taken != amount {
      var t := TakeBack(DropLast(rest), amount, sent + taken);
      assert pieces + ([Last(rest)] + t.pieces) == (pieces + [Last(rest)]) + t.pieces;
    }
  }

  lemma TakeBackNone(pieces: seq<Balance>, amount: nat, sent: nat)
    requires amount == 0 || sent < amount
    ensures Prepend(pieces, TakeBack([], amount, sent)) == Taken(pieces, [])
  {
    assert pieces + [] == pieces;
  }

  method TakeBalances(balances: seq<Balance>, amount: nat) returns (rest: seq<Balance>, sent: nat, senders: seq<Balance>)
    ensures var t := TakeBack(balances, amount, 0);
            rest == t.rest && sent == Total(t.pieces) && senders == Owned(t.pieces)
  {
    hide TakeBack, Owned, Total, Prepend;
    rest, sent, senders := balances, 0, [];
    ghost var goal := TakeBack(balances, amount, 0);
    ghost var pieces: seq<Balance> := [];
    var moving := true;
    TakeNothingYet(goal);
    while moving && rest != []
      invariant moving ==> (amount == 0 || sent < amount) && goal == Prepend(pieces, TakeBack(rest, amount, sent))
      invariant !moving ==> goal == Taken(pieces, rest)
      invariant sent == Total(pieces) && senders == Owned(pieces)
      decreases moving, |rest|
    {
      TakeBackStep(pieces, rest, amount, sent);
      var bal := Last(rest);
      rest := DropLast(rest);
      var taken := if amount == 0 then bal.amount else Min(bal.amount, amount - sent);
      OnePiece(pieces, Balance(bal.address, taken));
      pieces := pieces + [Balance(bal.address, taken)];
      sent := sent + taken;
      if bal.address.Some? {
        senders := senders + [Balance(bal.address, taken)];
      }
      if taken < bal.amount {
        rest := rest + [Balance(bal.address, bal.amount - taken)];
        moving := false;
      } else if sent == amount {
        moving := false;
      }
    }
    if moving {
      TakeBackNone(pieces, amount, sent);
    }
  }

  method MoveRuneBalanceToOutput(txId: string, output: Option<u32>, rune: RuneId, balances: seq<Balance>,
                                 outputs: map<u32, Option<Address>>, amount: nat, nextEvent: nat)
    returns (rest: seq<Balance>, results: seq<MempoolEntry>, nextEvent': nat)
    ensures var m := MoveBack(txId, output, rune, balances, outputs, amount, nextEvent);
            rest == m.rest && results == m.entries
    ensures nextEvent' == nextEvent + |results|
  {
    hide TakeBack, Owned, Total;
    var receiver := None;
    if output.Some? {
      if output.value in outputs {
        receiver := outputs[output.value];
      }
    }
    var operation := if receiver.Some? then Send else Burn;
    var sent, senders;
    rest, sent, senders := TakeBalances(balances, amount);
    results := [];
    nextEvent' := nextEvent;
    if receiver.Some? && sent > 0 {
      results := [MempoolEntry(rune, nextEvent', txId, output, receiver, None, sent, Receive)];
      nextEvent' := nextEvent' + 1;
    }
    var sends := [];
    for i := 0 to |senders|
      invariant nextEvent' == nextEvent + |results| + i
      invariant |sends| == i
      invariant forall k :: 0 <= k < i ==>
        sends[k] == SentRow(txId, output, rune, receiver, senders[k], nextEvent + |results| + k)
    {
      sends := sends + [MempoolEntry(rune, nextEvent', txId, output, senders[i].address, receiver, senders[i].amount, operation)];
      nextEvent' := nextEvent' + 1;
    }
    results := results + sends;
  }

  ghost predicate RemainingBack(goal: BackMove, done: seq<MempoolEntry>, txId: string, rune: RuneId, q: seq<Balance>,
                                outputs: map<u32, Option<Address>>, orders: seq<Order>, ev: nat) {
    var r := RunBack(txId, rune, q, outputs, orders, ev);
    goal.rest == r.rest && goal.entries == done + r.entries
  }

  lemma RemainingBackStep(goal: BackMove, done: seq<MempoolEntry>, txId: string, rune: RuneId, q: seq<Balance>,
                          outputs: map<u32, Option<Address>>, orders: seq<Order>, ev: nat)
    requires RemainingBack(goal, done, txId, rune, q, outputs, orders, ev)
    ensures orders != [] ==>
              var m := MoveBack(txId, orders[0].output, rune, q, outputs, orders[0].amount, ev);
              RemainingBack(goal, done + m.entries, txId, rune, m.rest, outputs, orders[1..], ev + |m.entries|)
    ensures orders == [] ==> goal == BackMove(q, done)
  {
    hide MoveBack;
    if orders == [] {
      assert done + [] == done;
    } else {
      var m := MoveBack(txId, orders[0].output, rune, q, outputs, orders[0].amount, ev);
      var r := RunBack(txId, rune, m.rest, outputs, orders[1..], ev + |m.entries|);
      assert done + (m.entries + r.entries) == done + m.entries + r.entries;
    }
  }

  lemma RemainingBackStart(txId: string, rune: RuneId, q: seq<Balance>, outputs: map<u32, Option<Address>>, orders: seq<Order>, ev: nat)
    ensures RemainingBack(RunBack(txId, rune, q, outputs, orders, ev), [], txId, rune, q, outputs, orders, ev)
  {
    assert [] + RunBack(txId, rune, q, outputs, orders, ev).entries == RunBack(txId, rune, q, outputs, orders, ev).entries;
  }

  method MoveOnceBack(txId: string, rune: RuneId, balances: seq<Balance>, outputs: map<u32, Option<Address>>,
                      order: Order, nextEvent: nat)
    returns (rest: seq<Balance>, results: seq<MempoolEntry>, nextEvent': nat)
    ensures BackMove(rest, results) == RunBack(txId, rune, balances, outputs, [order], nextEvent)
    ensures nextEvent' == nextEvent + |results|
  {
    hide RunBack, RemainingBack, MoveBack;
    RemainingBackStart(txId, rune, balances, outputs, [order], nextEvent);
    ghost var goal := RunBack(txId, rune, balances, outputs, [order], nextEvent);
    RemainingBackStep(goal, [], txId, rune, balances, outputs, [order], nextEvent);
    rest, results, nextEvent' := MoveRuneBalanceToOutput(txId, order.output, rune, balances, outputs, order.amount, nextEvent);
    assert [] + results == results && [order][1..] == [];
    RemainingBackStep(goal, results, txId, rune, rest, outputs, [], nextEvent');
  }

  /** The even split, with the source's `remainder` counting down. */
  method MoveSplitBack(txId: string, rune: RuneId, balances: seq<Balance>, outputs: map<u32, Option<Address>>,
                       keys: seq<u32>, perOutput: nat, rem: nat, nextEvent: nat)
    returns (rest: seq<Balance>, results: seq<MempoolEntry>, nextEvent': nat)
    ensures BackMove(rest, results) == RunBack(txId, rune, balances, outputs, SplitOrders(keys, perOutput, rem), nextEvent)
    ensures nextEvent' == nextEvent + |results|
  {
    hide RunBack, RemainingBack, MoveBack, SplitOrders;
    rest, results, nextEvent' := balances, [], nextEvent;
    var remainder := rem;
    ghost var goal := RunBack(txId, rune, balances, outputs, SplitOrders(keys, perOutput, rem), nextEvent);
    RemainingBackStart(txId, rune, balances, outputs, SplitOrders(keys, perOutput, rem), nextEvent);
    assert keys[0..] == keys;
    for i := 0 to |keys|
      invariant nextEvent' == nextEvent + |results|
      invariant RemainingBack(goal, results, txId, rune, rest, outputs, SplitOrders(keys[i..], perOutput, remainder), nextEvent')
    {
      var extra := 0;
      ghost var orders := SplitOrders(keys[i..], perOutput, remainder);
      SplitOrdersStep(keys[i..], perOutput, remainder);
      assert keys[i..][1..] == keys[i + 1..];
      if remainder > 0 {
        extra := 1;
        remainder := remainder - 1;
      }
      RemainingBackStep(goal, results, txId, rune, rest, outputs, orders, nextEvent');
      var rows;
      rest, rows, nextEvent' := MoveRuneBalanceToOutput(txId, Some(keys[i]), rune, rest, outputs, perOutput + extra, nextEvent');
      results := results + rows;
    }
    SplitOrdersEnd(perOutput, remainder);
    assert keys[|keys|..] == [];
    RemainingBackStep(goal, results, txId, rune, rest, outputs, [], nextEvent');
  }

  method MoveEqualBack(txId: string, rune: RuneId, balances: seq<Balance>, outputs: map<u32, Option<Address>>,
                       keys: seq<u32>, amount: nat, nextEvent: nat)
    returns (rest: seq<Balance>, results: seq<MempoolEntry>, nextEvent': nat)
    ensures BackMove(rest, results) == RunBack(txId, rune, balances, outputs, EqualOrders(keys, amount), nextEvent)
    ensures nextEvent' == nextEvent + |results|
  {
    hide RunBack, RemainingBack, MoveBack, EqualOrders;
    rest, results, nextEvent' := balances, [], nextEvent;
    ghost var goal := RunBack(txId, rune, balances, outputs, EqualOrders(keys, amount), nextEvent);
    RemainingBackStart(txId, rune, balances, outputs, EqualOrders(keys, amount), nextEvent);
    assert keys[0..] == keys;
    for i := 0 to |keys|
      invariant nextEvent' == nextEvent + |results|
      invariant RemainingBack(goal, results, txId, rune, rest, outputs, EqualOrders(keys[i..], amount), nextEvent')
    {
      ghost var orders := EqualOrders(keys[i..], amount);
      EqualOrdersStep(keys[i..], amount);
      assert keys[i..][1..] == keys[i + 1..];
      RemainingBackStep(goal, results, txId, rune, rest, outputs, orders, nextEvent');
      var rows;
      rest, rows, nextEvent' := MoveRuneBalanceToOutput(txId, Some(keys[i]), rune, rest, outputs, amount, nextEvent');
      results := results + rows;
    }
    SplitOrdersEnd(amount, 0);
    assert keys[|keys|..] == [];
    RemainingBackStep(goal, results, txId, rune, rest, outputs, [], nextEvent');
  }

  /** `collect_edicts`, in its shapes. */
  method CollectEdicts(txId: string, edict: Edict, inputs: map<RuneId, seq<Balance>>, outputs: map<u32, Option<Address>>,
                       totalOutputs: u32, nextEvent: nat)
    returns (inputs': map<RuneId, seq<Balance>>, results: seq<MempoolEntry>, nextEvent': nat)
    ensures Collected(inputs', results, nextEvent') == CollectEdict(txId, edict, inputs, outputs, totalOutputs, nextEvent)
  {
    hide RunBack, EdictOrders, SplitOrders, EqualOrders, Total, SortedKeys;
    inputs', results, nextEvent' := inputs, [], nextEvent;
    if edict.id == SELF_ID || edict.id !in inputs {
      return;
    }
    var rest := inputs[edict.id];
    var unallocated := Total(rest);
    if |outputs| == 0 {
      BurningOrders(edict, unallocated, outputs, totalOutputs);
      rest, results, nextEvent' := MoveOnceBack(txId, edict.id, rest, outputs, Order(None, edict.amount), nextEvent);
    } else if edict.output == totalOutputs {
      SplittingOrders(edict, unallocated, outputs, totalOutputs);
      var keys := SortedKeys(outputs.Keys);
      if edict.amount == 0 {
        rest, results, nextEvent' :=
          MoveSplitBack(txId, edict.id, rest, outputs, keys, unallocated / |outputs|, unallocated % |outputs|, nextEvent);
      } else {
        rest, results, nextEvent' := MoveEqualBack(txId, edict.id, rest, outputs, keys, Min(edict.amount, unallocated), nextEvent);
      }
    } else if edict.output < totalOutputs {
      var amount := edict.amount;
      if edict.amount == 0 {
        amount := unallocated;
      }
      SendingOrders(edict, unallocated, outputs, totalOutputs);
      rest, results, nextEvent' := MoveOnceBack(txId, edict.id, rest, outputs, Order(Some(edict.output), amount), nextEvent);
    } else {
      BurningOrders(edict, unallocated, outputs, totalOutputs);
      rest, results, nextEvent' := MoveOnceBack(txId, edict.id, rest, outputs, Order(None, edict.amount), nextEvent);
    }
    inputs' := inputs[edict.id := rest];
  }

  // ----- The two engines agree -----

  lemma {:induction false} ReverseTotal(q: seq<Balance>)
    ensures Total(Reversed(q)) == Total(q)
    ensures AllPositive(q) ==> AllPositive(Reversed(q))
  {
    if q != [] {
      ReverseTotal(DropLast(q));
      SumCons(Last(q), Reversed(DropLast(q)), HeldBy(Anyone));
    }
  }

  /** Popping from the back is popping from the front of the reversed queue. */
  lemma {:induction false} BackIsFrontReversed(q: seq<Balance>, amount: nat, sent: nat)
    requires amount == 0 || sent < amount
    ensures TakeBack(q, amount, sent).pieces == Take(Reversed(q), amount, sent).pieces
    ensures Reversed(TakeBack(q, amount, sent).rest) == Take(Reversed(q), amount, sent).rest
  {
    hide Reversed;
    if q == [] {
      ReverseEmpty();
    } else {
      var last := Last(q);
      var taken := if amount == 0 then last.amount else Min(last.amount, amount - sent);
      ReversedSnoc(DropLast(q), last);
      assert q == DropLast(q) + [last];
      assert Reversed(q)[0] == last && Reversed(q)[1..] == Reversed(DropLast(q));
      if taken < last.amount {
        ReversedSnoc(DropLast(q), Balance(last.address, last.amount - taken));
      } else if sent + taken != amount {
        BackIsFrontReversed(DropLast(q), amount, sent + taken);
      }
    }
  }

  lemma ReverseEmpty()
    ensures Reversed<Balance>([]) == []
  {
  }

  /** How many units a move from the back takes: as the front would take of the reversed queue. */
  lemma BackTotal(q: seq<Balance>, amount: nat)
    ensures var t := TakeBack(q, amount, 0);
            var n := Moved(Reversed(q), amount);
            Total(t.pieces) == n && Total(t.rest) == Total(q) - n && (AllPositive(q) ==> AllPositive(t.rest))
  {
    hide TakeBack, Take, Reversed, Total, AllPositive;
    var t := TakeBack(q, amount, 0);
    ReverseTotal(q);
    BackIsFrontReversed(q, amount, 0);
    TakeTotal(Reversed(q), amount);
    ReverseTotal(t.rest);
    if AllPositive(q) {
      TakeBackKeepsPositive(q, amount, 0);
    }
  }

  /** Positive pieces never stall, from either end. */
  lemma PositiveNeverStalls(q: seq<Balance>)
    requires AllPositive(q)
    ensures !Stalls(q) && !Stalls(Reversed(q))
  {
    ReverseTotal(q);
    var p := Reversed(q);
    assert q != [] ==> q[0] in q;
    assert p != [] ==> p[0] in p;
  }

  lemma {:induction false} TakeBackKeepsPositive(q: seq<Balance>, amount: nat, sent: nat)
    requires AllPositive(q) && (amount == 0 || sent < amount)
    ensures AllPositive(TakeBack(q, amount, sent).rest)
  {
    if q != [] {
      assert Last(q) in q;
      var taken := if amount == 0 then Last(q).amount else Min(Last(q).amount, amount - sent);
      if taken == Last(q).amount && sent + taken != amount {
        TakeBackKeepsPositive(DropLast(q), amount, sent + taken);
      }
    }
  }

  /** What an output receives. */
  datatype Receipt = Receipt(rune: RuneId, output: Option<u32>, address: Option<Address>, amount: nat)

  function Receipts(rows: seq<Entry>): seq<Receipt> {
    if rows == [] then []
    else Receipts(DropLast(rows))
         + if Last(rows).operation == Receive
           then [Receipt(Last(rows).rune, Last(rows).output, Last(rows).address, Last(rows).Amount())] else []
  }

  function MempoolReceipts(rows: seq<MempoolEntry>): seq<Receipt> {
    if rows == [] then []
    else MempoolReceipts(DropLast(rows))
         + if Last(rows).operation == Receive
           then [Receipt(Last(rows).rune, Last(rows).output, Last(rows).address, Last(rows).amount)] else []
  }

  lemma {:induction false} ReceiptsAppend(a: seq<Entry>, b: seq<Entry>)
    ensures Receipts(a + b) == Receipts(a) + Receipts(b)
  {
    if b == [] {
      assert a + b == a;
    } else {
      assert DropLast(a + b) == a + DropLast(b);
      ReceiptsAppend(a, DropLast(b));
    }
  }

  lemma {:induction false} MempoolReceiptsAppend(a: seq<MempoolEntry>, b: seq<MempoolEntry>)
    ensures MempoolReceipts(a + b) == MempoolReceipts(a) + MempoolReceipts(b)
  {
    if b == [] {
      assert a + b == a;
    } else {
      assert DropLast(a + b) == a + DropLast(b);
      MempoolReceiptsAppend(a, DropLast(b));
    }
  }

  lemma {:induction false} NoReceipts(rows: seq<Entry>)
    requires forall e :: e in rows ==> e.operation != Receive
    ensures Receipts(rows) == []
  {
    if rows != [] {
      NoReceipts(DropLast(rows));
    }
  }

  lemma {:induction false} NoMempoolReceipts(rows: seq<MempoolEntry>)
    requires forall e :: e in rows ==> e.operation != Receive
    ensures MempoolReceipts(rows) == []
  {
    if rows != [] {
      NoMempoolReceipts(DropLast(rows));
    }
  }

  function MoveReceipts(outputs: map<u32, Option<Address>>, order: Order, rune: RuneId, n: nat): seq<Receipt> {
    var receiver := Receiver(outputs, order.output);
    if receiver.Some? && n > 0 then [Receipt(rune, order.output, receiver, n)] else []
  }

  lemma FrontReceipts(loc: Location, order: Order, rune: RuneId, q: seq<Balance>, outputs: map<u32, Option<Address>>, ev: nat)
    ensures var m := MoveBalance(loc, order.output, rune, q, outputs, order.amount, ev);
            var n := Moved(q, order.amount);
            && Receipts(m.Entries()) == MoveReceipts(outputs, order, rune, n)
            && Total(m.rest) == Total(q) - n && (AllPositive(q) ==> AllPositive(m.rest))
  {
    hide Take, Total, SenderRows, AllPositive;
    var m := MoveBalance(loc, order.output, rune, q, outputs, order.amount, ev);
    MoveRows(loc, order.output, rune, q, outputs, order.amount, ev);
    MoveShape(loc, order.output, rune, q, outputs, order.amount, ev);
    TakeTotal(q, order.amount);
    if AllPositive(q) {
      TakeKeepsPositive(q, order.amount, 0);
    }
    ReceiptsAppend(m.received, m.sends);
    NoReceipts(m.sends);
    if m.received != [] {
      assert DropLast(m.received) == [];
    }
  }

  lemma BackReceipts(txId: string, order: Order, rune: RuneId, q: seq<Balance>, outputs: map<u32, Option<Address>>, ev: nat)
    ensures var m := MoveBack(txId, order.output, rune, q, outputs, order.amount, ev);
            var n := Moved(Reversed(q), order.amount);
            && MempoolReceipts(m.entries) == MoveReceipts(outputs, order, rune, n)
            && Total(m.rest) == Total(q) - n && (AllPositive(q) ==> AllPositive(m.rest))
  {
    hide TakeBack, Total, Owned, SentRows, MempoolReceipts, AllPositive, ReceivedRow, Receiver, MoveReceipts, Reversed, Moved;
    var t := TakeBack(q, order.amount, 0);
    var receiver := Receiver(outputs, order.output);
    BackTotal(q, order.amount);
    var received := ReceivedRow(txId, order.output, rune, receiver, Total(t.pieces), ev);
    var sends := SentRows(txId, order.output, rune, receiver, Owned(t.pieces), ev + |received|);
    MempoolReceiptsAppend(received, sends);
    SentRowsReceiveNothing(txId, order.output, rune, receiver, Owned(t.pieces), ev + |received|);
    ReceivedRowIsTheReceipt(txId, order, rune, outputs, Total(t.pieces), ev);
  }

  lemma SentRowsReceiveNothing(txId: string, output: Option<u32>, rune: RuneId, receiver: Option<Address>, senders: seq<Balance>, ev: nat)
    ensures MempoolReceipts(SentRows(txId, output, rune, receiver, senders, ev)) == []
  {
    NoMempoolReceipts(SentRows(txId, output, rune, receiver, senders, ev));
  }

  lemma ReceivedRowIsTheReceipt(txId: string, order: Order, rune: RuneId, outputs: map<u32, Option<Address>>, n: nat, ev: nat)
    ensures MempoolReceipts(ReceivedRow(txId, order.output, rune, Receiver(outputs, order.output), n, ev)) ==
            MoveReceipts(outputs, order, rune, n)
  {
    var received := ReceivedRow(txId, order.output, rune, Receiver(outputs, order.output), n, ev);
    if received != [] {
      assert DropLast(received) == [];
    }
  }

  /** Equal totals move in equal numbers, unless one end stalls and the other does not. */
  lemma MovedFromEitherEnd(q: seq<Balance>, p: seq<Balance>, amount: nat)
    requires Total(q) == Total(p)
    ensures Moved(q, amount) == Moved(Reversed(p), amount) <==> amount > 0 || (Stalls(q) <==> Stalls(Reversed(p)))
    ensures Total(q) == 0 || amount > 0 ==> Moved(q, amount) == Min(amount, Total(q)) == Moved(Reversed(p), amount)
  {
    hide Total, Reversed;
    ReverseTotal(p);
  }

  lemma {:induction false} RunsAgree(loc: Location, txId: string, rune: RuneId, q: seq<Balance>, p: seq<Balance>,
                                     outputs: map<u32, Option<Address>>, orders: seq<Order>, ev: nat, ev': nat)
    requires Total(q) == Total(p) && ((AllPositive(q) && AllPositive(p)) || Explicit(Total(q), orders))
    ensures var a, b := RunOrders(loc, rune, q, outputs, orders, ev), RunBack(txId, rune, p, outputs, orders, ev');
            && Receipts(a.entries) == MempoolReceipts(b.entries) && Total(a.rest) == Total(b.rest)
            && (AllPositive(q) && AllPositive(p) ==> AllPositive(a.rest) && AllPositive(b.rest))
    decreases |orders|
  {
    hide MoveBalance, MoveBack, Move.Entries, AllPositive, Total, MoveReceipts, Receipts, MempoolReceipts, Min, Moved, Stalls,
      Reversed;
    NoneReceived();
    if orders != [] {
      var m := MoveBalance(loc, orders[0].output, rune, q, outputs, orders[0].amount, ev);
      var n := MoveBack(txId, orders[0].output, rune, p, outputs, orders[0].amount, ev');
      if AllPositive(q) && AllPositive(p) {
        PositiveNeverStalls(q);
        PositiveNeverStalls(p);
      }
      MovedFromEitherEnd(q, p, orders[0].amount);
      FrontReceipts(loc, orders[0], rune, q, outputs, ev);
      BackReceipts(txId, orders[0], rune, p, outputs, ev');
      RunsAgree(loc, txId, rune, m.rest, n.rest, outputs, orders[1..], ev + |m.Entries()|, ev' + |n.entries|);
      ReceiptsAppend(m.Entries(), RunOrders(loc, rune, m.rest, outputs, orders[1..], ev + |m.Entries()|).entries);
      MempoolReceiptsAppend(n.entries, RunBack(txId, rune, n.rest, outputs, orders[1..], ev' + |n.entries|).entries);
    }
  }

  lemma NoneReceived()
    ensures Receipts([]) == [] && MempoolReceipts([]) == []
  {
  }

  /** Both engines hold the same total of every rune, in positive pieces. */
  ghost predicate SameTotals(a: map<RuneId, seq<Balance>>, b: map<RuneId, seq<Balance>>) {
    && a.Keys == b.Keys
    && forall r :: r in a ==> AllPositive(a[r]) && AllPositive(b[r]) && Total(a[r]) == Total(b[r])
  }

  /** All edicts of a transaction in the block engine. */
  function BlockEdicts(tx: Tx, edicts: seq<Edict>): (Tx, seq<Entry>) {
    if edicts == [] then (tx, [])
    else
      var (t, rows) := BlockEdicts(tx, DropLast(edicts));
      var s := MoveEdict(t, Last(edicts));
      (s.tx, rows + s.entries)
  }

  /** All edicts of a transaction in the mempool engine. */
  function MempoolEdicts(txId: string, edicts: seq<Edict>, inputs: map<RuneId, seq<Balance>>, outputs: map<u32, Option<Address>>,
                         totalOutputs: u32, ev: nat): Collected {
    if edicts == [] then Collected(inputs, [], ev)
    else
      var c := MempoolEdicts(txId, DropLast(edicts), inputs, outputs, totalOutputs, ev);
      var d := CollectEdict(txId, Last(edicts), c.inputs, outputs, totalOutputs, c.nextEvent);
      Collected(d.inputs, c.entries + d.entries, d.nextEvent)
  }

  lemma EdictsAgree(tx: Tx, inputs: map<RuneId, seq<Balance>>, edict: Edict, txId: string, ev: nat)
    requires SameTotals(tx.inputs, inputs) && edict.id != SELF_ID
    ensures var s := MoveEdict(tx, edict);
            var c := CollectEdict(txId, edict, inputs, tx.outputs, tx.totalOutputs, ev);
            Receipts(s.entries) == MempoolReceipts(c.entries) && SameTotals(s.tx.inputs, c.inputs)
  {
    hide RunOrders, RunBack, EdictOrders, AllPositive, Total, Receipts, MempoolReceipts;
    NoneReceived();
    if edict.id in inputs {
      var q := tx.inputs[edict.id];
      RunsAgree(tx.loc, txId, edict.id, q, inputs[edict.id], tx.outputs,
                EdictOrders(edict, Total(q), tx.outputs, tx.totalOutputs), tx.nextEvent, ev);
    }
  }

  /** The block engine and the mempool engine agree: for any edicts without the id 0:0, if their queues hold the same totals in
      positive pieces, whatever the pieces and their order, both write the same Receive rows in the same order, and both have
      the same totals left. */
  lemma {:induction false} EnginesAgree(tx: Tx, inputs: map<RuneId, seq<Balance>>, edicts: seq<Edict>, txId: string, ev: nat)
    requires SameTotals(tx.inputs, inputs) && forall e :: e in edicts ==> e.id != SELF_ID
    ensures var (tx', rows) := BlockEdicts(tx, edicts);
            var c := MempoolEdicts(txId, edicts, inputs, tx.outputs, tx.totalOutputs, ev);
            && Receipts(rows) == MempoolReceipts(c.entries) && SameTotals(tx'.inputs, c.inputs)
            && tx'.outputs == tx.outputs && tx'.totalOutputs == tx.totalOutputs
  {
    hide MoveEdict, CollectEdict, SameTotals, Receipts, MempoolReceipts;
    NoneReceived();
    if edicts != [] {
      assert Last(edicts) in edicts;
      EnginesAgree(tx, inputs, DropLast(edicts), txId, ev);
      var (t, rows) := BlockEdicts(tx, DropLast(edicts));
      var c := MempoolEdicts(txId, DropLast(edicts), inputs, tx.outputs, tx.totalOutputs, ev);
      EdictsAgree(t, c.inputs, Last(edicts), txId, c.nextEvent);
      EdictKeepsOutputs(t, Last(edicts));
      ReceiptsAppend(rows, MoveEdict(t, Last(edicts)).entries);
      MempoolReceiptsAppend(c.entries, CollectEdict(txId, Last(edicts), c.inputs, tx.outputs, tx.totalOutputs, c.nextEvent).entries);
    }
  }

  lemma EdictKeepsOutputs(tx: Tx, edict: Edict)
    ensures MoveEdict(tx, edict).tx.outputs == tx.outputs && MoveEdict(tx, edict).tx.totalOutputs == tx.totalOutputs
  {
    hide RunOrders, EdictOrders;
  }

  // ----- With pieces of zero -----

  ghost predicate EqualTotals(a: map<RuneId, seq<Balance>>, b: map<RuneId, seq<Balance>>) {
    a.Keys == b.Keys && forall r :: r in a ==> Total(a[r]) == Total(b[r])
  }

  /** The edict burns everything: its amount is 0, and no output receives. */
  predicate BurnsEverything(edict: Edict, outputs: map<u32, Option<Address>>, totalOutputs: u32) {
    edict.amount == 0 && (|outputs| == 0 || edict.output > totalOutputs)
  }

  lemma EdictIsExplicit(edict: Edict, total: nat, outputs: map<u32, Option<Address>>, totalOutputs: u32)
    ensures var orders := EdictOrders(edict, total, outputs, totalOutputs);
            if BurnsEverything(edict, outputs, totalOutputs) then orders == [Order(None, 0)] else Explicit(total, orders)
  {
    hide SplitOrders, EqualOrders, SortedKeys;
    if |outputs| > 0 && edict.output == totalOutputs {
      SumOne(Balance(None, total), HeldBy(Anyone));
      SplitEdict([Balance(None, total)], edict, outputs, totalOutputs, 0);
    }
  }

  /** Does one end of the queues stall, and not the other, when the edict burns everything? */
  ghost predicate PartsEngines(tx: Tx, inputs: map<RuneId, seq<Balance>>, edict: Edict) {
    && edict.id in tx.inputs && edict.id in inputs && BurnsEverything(edict, tx.outputs, tx.totalOutputs)
    && (Stalls(tx.inputs[edict.id]) <==> !Stalls(Reversed(inputs[edict.id])))
  }

  /** One edict, for queues with any pieces of equal totals: both engines write the same Receive rows, and the totals left are
      equal if and only if it is not a burn of everything that a piece of zero stalls at one end only. */
  lemma EdictsAgreeExactly(tx: Tx, inputs: map<RuneId, seq<Balance>>, edict: Edict, txId: string, ev: nat)
    requires EqualTotals(tx.inputs, inputs) && edict.id != SELF_ID
    ensures var s := MoveEdict(tx, edict);
            var c := CollectEdict(txId, edict, inputs, tx.outputs, tx.totalOutputs, ev);
            && Receipts(s.entries) == MempoolReceipts(c.entries)
            && (EqualTotals(s.tx.inputs, c.inputs) <==> !PartsEngines(tx, inputs, edict))
  {
    hide RunOrders, RunBack, EdictOrders, AllPositive, Total, Receipts, MempoolReceipts, Stalls, Reversed, BurnsEverything, Explicit;
    NoneReceived();
    if edict.id in inputs {
      var q, p := tx.inputs[edict.id], inputs[edict.id];
      var orders := EdictOrders(edict, Total(q), tx.outputs, tx.totalOutputs);
      EdictIsExplicit(edict, Total(q), tx.outputs, tx.totalOutputs);
      if BurnsEverything(edict, tx.outputs, tx.totalOutputs) {
        BurnsAgreeExactly(tx.loc, txId, edict.id, q, p, tx.outputs, tx.nextEvent, ev);
        OneQueueChanged(tx.inputs, inputs, edict.id, RunOrders(tx.loc, edict.id, q, tx.outputs, orders, tx.nextEvent).rest,
                        RunBack(txId, edict.id, p, tx.outputs, orders, ev).rest);
      } else {
        RunsAgree(tx.loc, txId, edict.id, q, p, tx.outputs, orders, tx.nextEvent, ev);
      }
    }
  }

  lemma OneQueueChanged(a: map<RuneId, seq<Balance>>, b: map<RuneId, seq<Balance>>, id: RuneId, q: seq<Balance>, p: seq<Balance>)
    requires EqualTotals(a, b) && id in a
    ensures EqualTotals(a[id := q], b[id := p]) <==> Total(q) == Total(p)
  {
    hide Total;
    var a', b' := a[id := q], b[id := p];
    assert a'[id] == q && b'[id] == p;
  }

  lemma BurnsAgreeExactly(loc: Location, txId: string, rune: RuneId, q: seq<Balance>, p: seq<Balance>,
                          outputs: map<u32, Option<Address>>, ev: nat, ev': nat)
    requires Total(q) == Total(p)
    ensures var orders := [Order(None, 0)];
            var a, b := RunOrders(loc, rune, q, outputs, orders, ev), RunBack(txId, rune, p, outputs, orders, ev');
            && Receipts(a.entries) == MempoolReceipts(b.entries)
            && (Total(a.rest) == Total(b.rest) <==> (Stalls(q) <==> Stalls(Reversed(p))))
  {
    hide MoveBalance, MoveBack, Move.Entries, Total, Receipts, MempoolReceipts, Stalls, Reversed, Moved;
    var order := Order(None, 0);
    OneOrder(loc, rune, q, outputs, order, ev);
    OneOrderBack(txId, rune, p, outputs, order, ev');
    FrontReceipts(loc, order, rune, q, outputs, ev);
    BackReceipts(txId, order, rune, p, outputs, ev');
    MovedFromEitherEnd(q, p, 0);
  }

  lemma OneOrderBack(txId: string, rune: RuneId, q: seq<Balance>, outputs: map<u32, Option<Address>>, order: Order, ev: nat)
    ensures var m, r := MoveBack(txId, order.output, rune, q, outputs, order.amount, ev), RunBack(txId, rune, q, outputs, [order], ev);
            r.rest == m.rest && r.entries == m.entries
  {
    hide MoveBack;
    var m := MoveBack(txId, order.output, rune, q, outputs, order.amount, ev);
    var rest := [order][1..];
    assert rest == [];
    assert RunBack(txId, rune, m.rest, outputs, rest, ev + |m.entries|) == BackMove(m.rest, []);
    assert m.entries + [] == m.entries;
  }

  /** No edict of these parts the engines. */
  ghost predicate NeverPart(tx: Tx, inputs: map<RuneId, seq<Balance>>, edicts: seq<Edict>, txId: string, ev: nat) {
    edicts == [] ||
    (&& NeverPart(tx, inputs, DropLast(edicts), txId, ev)
     && !PartsEngines(BlockEdicts(tx, DropLast(edicts)).0,
               MempoolEdicts(txId, DropLast(edicts), inputs, tx.outputs, tx.totalOutputs, ev).inputs, Last(edicts)))
  }

  /** After every one of these edicts both engines have the same totals left. */
  ghost predicate AlwaysEqual(tx: Tx, inputs: map<RuneId, seq<Balance>>, edicts: seq<Edict>, txId: string, ev: nat) {
    && EqualTotals(BlockEdicts(tx, edicts).0.inputs, MempoolEdicts(txId, edicts, inputs, tx.outputs, tx.totalOutputs, ev).inputs)
    && (edicts == [] || AlwaysEqual(tx, inputs, DropLast(edicts), txId, ev))
  }

  /** For queues with any pieces of equal totals and any edicts without the id 0:0, both engines keep the same totals throughout
      if and only if no edict parts them, and then they write the same Receive rows in the same order. */
  lemma {:induction false} EnginesAgreeExactly(tx: Tx, inputs: map<RuneId, seq<Balance>>, edicts: seq<Edict>, txId: string, ev: nat)
    requires EqualTotals(tx.inputs, inputs) && forall e :: e in edicts ==> e.id != SELF_ID
    ensures AlwaysEqual(tx, inputs, edicts, txId, ev) <==> NeverPart(tx, inputs, edicts, txId, ev)
    ensures NeverPart(tx, inputs, edicts, txId, ev) ==>
              Receipts(BlockEdicts(tx, edicts).1)
              == MempoolReceipts(MempoolEdicts(txId, edicts, inputs, tx.outputs, tx.totalOutputs, ev).entries)
    ensures BlockEdicts(tx, edicts).0.outputs == tx.outputs && BlockEdicts(tx, edicts).0.totalOutputs == tx.totalOutputs
  {
    hide MoveEdict, CollectEdict, EqualTotals, Receipts, MempoolReceipts, PartsEngines;
    NoneReceived();
    if edicts != [] {
      assert Last(edicts) in edicts;
      EnginesAgreeExactly(tx, inputs, DropLast(edicts), txId, ev);
      var (t, rows) := BlockEdicts(tx, DropLast(edicts));
      var c := MempoolEdicts(txId, DropLast(edicts), inputs, tx.outputs, tx.totalOutputs, ev);
      EdictKeepsOutputs(t, Last(edicts));
      if EqualTotals(t.inputs, c.inputs) {
        EdictsAgreeExactly(t, c.inputs, Last(edicts), txId, c.nextEvent);
      }
      ReceiptsAppend(rows, MoveEdict(t, Last(edicts)).entries);
      MempoolReceiptsAppend(c.entries, CollectEdict(txId, Last(edicts), c.inputs, tx.outputs, tx.totalOutputs, c.nextEvent).entries);
    }
  }

  // ----- Who a mempool row names -----

  /** What a row of a move says: the address of the output receives, or an address sends to it; without one an address burns. */
  predicate NamesOutput(e: MempoolEntry, output: Option<u32>, outputs: map<u32, Option<Address>>) {
    && e.output == output
    && if output.Some? && output.value in outputs && outputs[output.value].Some? then
         || (e.operation == Receive && e.address == outputs[output.value] && e.receiver == None)
         || (e.operation == Send && e.address.Some? && e.receiver == outputs[output.value])
       else e.operation == Burn && e.address.Some? && e.receiver == None
  }

  predicate IsOf(e: MempoolEntry, txId: string, rune: RuneId) {
    e.txId == txId && e.rune == rune
  }

  lemma MoveBackTells(txId: string, output: Option<u32>, rune: RuneId, q: seq<Balance>, outputs: map<u32, Option<Address>>,
                      amount: nat, ev: nat)
    ensures forall e :: e in MoveBack(txId, output, rune, q, outputs, amount, ev).entries ==>
              IsOf(e, txId, rune) && NamesOutput(e, output, outputs)
  {
    hide TakeBack, Owned, Total;
    var t := TakeBack(q, amount, 0);
    var receiver := Receiver(outputs, output);
    var received := ReceivedRow(txId, output, rune, receiver, Total(t.pieces), ev);
    var senders := Owned(t.pieces);
    var sends := SentRows(txId, output, rune, receiver, senders, ev + |received|);
    forall e | e in sends ensures IsOf(e, txId, rune) && NamesOutput(e, output, outputs) {
      var i :| 0 <= i < |sends| && sends[i] == e;
      assert senders[i] in senders;
    }
  }

  lemma {:induction false} RunBackTells(txId: string, rune: RuneId, q: seq<Balance>, outputs: map<u32, Option<Address>>,
                                        orders: seq<Order>, ev: nat)
    ensures forall e :: e in RunBack(txId, rune, q, outputs, orders, ev).entries ==>
              IsOf(e, txId, rune) && exists i :: 0 <= i < |orders| && NamesOutput(e, orders[i].output, outputs)
    decreases |orders|
  {
    hide MoveBack, NamesOutput, IsOf;
    if orders != [] {
      var m := MoveBack(txId, orders[0].output, rune, q, outputs, orders[0].amount, ev);
      var rest := RunBack(txId, rune, m.rest, outputs, orders[1..], ev + |m.entries|);
      MoveBackTells(txId, orders[0].output, rune, q, outputs, orders[0].amount, ev);
      RunBackTells(txId, rune, m.rest, outputs, orders[1..], ev + |m.entries|);
      forall e | e in m.entries + rest.entries
        ensures IsOf(e, txId, rune) && exists i :: 0 <= i < |orders| && NamesOutput(e, orders[i].output, outputs)
      {
        if e in m.entries {
          assert NamesOutput(e, orders[0].output, outputs);
        } else {
          assert e in rest.entries;
          var i :| 0 <= i < |orders[1..]| && NamesOutput(e, orders[1..][i].output, outputs);
          assert NamesOutput(e, orders[i + 1].output, outputs);
        }
      }
    }
  }

  /** Every row of a mempool edict goes where the edict says. */
  lemma CollectedRowsTell(txId: string, edict: Edict, inputs: map<RuneId, seq<Balance>>, outputs: map<u32, Option<Address>>,
                          totalOutputs: u32, ev: nat)
    ensures forall e :: e in CollectEdict(txId, edict, inputs, outputs, totalOutputs, ev).entries ==>
              && IsOf(e, txId, edict.id)
              && if |outputs| == 0 || edict.output > totalOutputs then NamesOutput(e, None, outputs)
                 else if edict.output == totalOutputs then
                   e.output.Some? && e.output.value in outputs && NamesOutput(e, e.output, outputs)
                 else NamesOutput(e, Some(edict.output), outputs)
  {
    hide RunBack, EdictOrders;
    if edict.id != SELF_ID && edict.id in inputs {
      var q := inputs[edict.id];
      var orders := EdictOrders(edict, Total(q), outputs, totalOutputs);
      RunBackTells(txId, edict.id, q, outputs, orders, ev);
      EdictOutputs(edict, Total(q), outputs, totalOutputs);
    }
  }

  // ----- The order of rows -----

  /** Event indices count up from `ev`. */
  predicate Numbered(rows: seq<MempoolEntry>, ev: nat) {
    forall i :: 0 <= i < |rows| ==> rows[i].eventIndex == ev + i
  }

  lemma NumberedAppend(a: seq<MempoolEntry>, b: seq<MempoolEntry>, ev: nat)
    requires Numbered(a, ev) && Numbered(b, ev + |a|)
    ensures Numbered(a + b, ev)
  {
  }

  /** The rows of a move count up, and only the first can be a Receive row: there is one exactly when units arrive, and it carries
      what left the queue. */
  lemma MoveBackInOrder(txId: string, output: Option<u32>, rune: RuneId, q: seq<Balance>, outputs: map<u32, Option<Address>>,
                        amount: nat, ev: nat)
    ensures var m := MoveBack(txId, output, rune, q, outputs, amount, ev);
            && Numbered(m.entries, ev)
            && (forall i :: 0 < i < |m.entries| ==> m.entries[i].operation != Receive)
            && Total(m.rest) <= Total(q)
            && (m.entries != [] && m.entries[0].operation == Receive <==>
                  output.Some? && output.value in outputs && outputs[output.value].Some? && Total(m.rest) < Total(q))
            && (m.entries != [] && m.entries[0].operation == Receive ==> m.entries[0].amount == Total(q) - Total(m.rest))
  {
    hide TakeBack, Owned, Total;
    var t := TakeBack(q, amount, 0);
    var receiver := Receiver(outputs, output);
    var received := ReceivedRow(txId, output, rune, receiver, Total(t.pieces), ev);
    var sends := SentRows(txId, output, rune, receiver, Owned(t.pieces), ev + |received|);
    TakeBackTotal(q, amount);
    NumberedAppend(received, sends, ev);
  }

  lemma TakeBackTotal(q: seq<Balance>, amount: nat)
    ensures var t := TakeBack(q, amount, 0); Total(t.pieces) + Total(t.rest) == Total(q)
  {
    hide TakeBack, Take, Reversed, Held;
    BackIsFrontReversed(q, amount, 0);
    TakeTotal(Reversed(q), amount);
    ReversedHeld(q, Anyone);
    ReversedHeld(TakeBack(q, amount, 0).rest, Anyone);
  }

  lemma {:induction false} RunBackInOrder(txId: string, rune: RuneId, q: seq<Balance>, outputs: map<u32, Option<Address>>,
                                          orders: seq<Order>, ev: nat)
    ensures Numbered(RunBack(txId, rune, q, outputs, orders, ev).entries, ev)
    decreases |orders|
  {
    hide MoveBack;
    if orders != [] {
      var m := MoveBack(txId, orders[0].output, rune, q, outputs, orders[0].amount, ev);
      MoveBackInOrder(txId, orders[0].output, rune, q, outputs, orders[0].amount, ev);
      RunBackInOrder(txId, rune, m.rest, outputs, orders[1..], ev + |m.entries|);
      NumberedAppend(m.entries, RunBack(txId, rune, m.rest, outputs, orders[1..], ev + |m.entries|).entries, ev);
    }
  }

  /** The rows of any mempool edicts count up. */
  lemma {:induction false} EdictsInOrder(txId: string, edicts: seq<Edict>, inputs: map<RuneId, seq<Balance>>,
                                         outputs: map<u32, Option<Address>>, totalOutputs: u32, ev: nat)
    ensures var c := MempoolEdicts(txId, edicts, inputs, outputs, totalOutputs, ev);
            Numbered(c.entries, ev) && c.nextEvent == ev + |c.entries|
  {
    hide EdictOrders, RunBack;
    if edicts != [] {
      var c := MempoolEdicts(txId, DropLast(edicts), inputs, outputs, totalOutputs, ev);
      var edict := Last(edicts);
      EdictsInOrder(txId, DropLast(edicts), inputs, outputs, totalOutputs, ev);
      if edict.id != SELF_ID && edict.id in c.inputs {
        var q := c.inputs[edict.id];
        RunBackInOrder(txId, edict.id, q, outputs, EdictOrders(edict, Total(q), outputs, totalOutputs), c.nextEvent);
      }
      NumberedAppend(c.entries, CollectEdict(txId, edict, c.inputs, outputs, totalOutputs, c.nextEvent).entries, ev);
    }
  }

  // ----- No owner loses a unit -----

  function MempoolWeight(op: Operation, rune: RuneId, who: Address): MempoolEntry -> nat {
    (e: MempoolEntry) => if e.operation == op && e.rune == rune && e.address == Some(who) then e.amount else 0
  }

  /** The amount on the rows of one operation, one rune and one address. */
  ghost function MempoolSum(es: seq<MempoolEntry>, op: Operation, rune: RuneId, who: Address): nat {
    Sum(es, MempoolWeight(op, rune, who))
  }

  lemma MempoolSumAppend(a: seq<MempoolEntry>, b: seq<MempoolEntry>, op: Operation, rune: RuneId, who: Address)
    ensures MempoolSum(a + b, op, rune, who) == MempoolSum(a, op, rune, who) + MempoolSum(b, op, rune, who)
    ensures MempoolSum([], op, rune, who) == 0
  {
    SumAppend(a, b, MempoolWeight(op, rune, who));
  }

  lemma {:induction false} SentRowsSum(txId: string, output: Option<u32>, rune: RuneId, receiver: Option<Address>,
                                       senders: seq<Balance>, ev: nat, who: Address)
    ensures var rows := SentRows(txId, output, rune, receiver, senders, ev);
            && MempoolSum(rows, if receiver.Some? then Send else Burn, rune, who) == Held(senders, Owner(who))
            && MempoolSum(rows, if receiver.Some? then Burn else Send, rune, who) == 0
  {
    var rows := SentRows(txId, output, rune, receiver, senders, ev);
    if senders != [] {
      SentRowsSum(txId, output, rune, receiver, DropLast(senders), ev, who);
      assert DropLast(rows) == SentRows(txId, output, rune, receiver, DropLast(senders), ev);
    }
  }

  lemma {:induction false} ReversedHeld(q: seq<Balance>, who: Who)
    ensures Held(Reversed(q), who) == Held(q, who)
  {
    if q != [] {
      ReversedHeld(DropLast(q), who);
      SumCons(Last(q), Reversed(DropLast(q)), HeldBy(who));
    }
  }

  lemma TakeBackHeld(q: seq<Balance>, amount: nat, who: Address)
    ensures var t := TakeBack(q, amount, 0); Held(t.pieces, Owner(who)) + Held(t.rest, Owner(who)) == Held(q, Owner(who))
  {
    hide TakeBack, Take, Reversed, Held;
    BackIsFrontReversed(q, amount, 0);
    TakeHeld(Reversed(q), amount, who);
    ReversedHeld(q, Owner(who));
    ReversedHeld(TakeBack(q, amount, 0).rest, Owner(who));
  }

  /** One owner's units across a mempool move: what was queued is still queued, sent, or burned. */
  lemma MoveBackKeepsOwner(txId: string, output: Option<u32>, rune: RuneId, q: seq<Balance>, outputs: map<u32, Option<Address>>,
                           amount: nat, ev: nat, who: Address)
    ensures var m := MoveBack(txId, output, rune, q, outputs, amount, ev);
            Held(q, Owner(who))
            == Held(m.rest, Owner(who)) + MempoolSum(m.entries, Send, rune, who) + MempoolSum(m.entries, Burn, rune, who)
  {
    hide TakeBack, Owned, Held, Total, MempoolSum, SentRows;
    var t := TakeBack(q, amount, 0);
    var receiver := Receiver(outputs, output);
    var received := ReceivedRow(txId, output, rune, receiver, Total(t.pieces), ev);
    TakeBackHeld(q, amount, who);
    OwnedHeld(t.pieces);
    SentRowsSum(txId, output, rune, receiver, Owned(t.pieces), ev + |received|, who);
    var sends := SentRows(txId, output, rune, receiver, Owned(t.pieces), ev + |received|);
    ReceivedIsNotSent(txId, output, rune, receiver, Total(t.pieces), ev, Send, who);
    ReceivedIsNotSent(txId, output, rune, receiver, Total(t.pieces), ev, Burn, who);
    MempoolSumAppend(received, sends, Send, rune, who);
    MempoolSumAppend(received, sends, Burn, rune, who);
    assert MoveBack(txId, output, rune, q, outputs, amount, ev) == BackMove(t.rest, received + sends);
    assert Held(Owned(t.pieces), Owner(who)) == Held(t.pieces, Owner(who));
  }

  lemma ReceivedIsNotSent(txId: string, output: Option<u32>, rune: RuneId, receiver: Option<Address>, sent: nat, ev: nat,
                          op: Operation, who: Address)
    requires op == Send || op == Burn
    ensures MempoolSum(ReceivedRow(txId, output, rune, receiver, sent, ev), op, rune, who) == 0
  {
    SumZero(ReceivedRow(txId, output, rune, receiver, sent, ev), MempoolWeight(op, rune, who));
  }

  lemma {:induction false} RunBackKeepsOwner(txId: string, rune: RuneId, q: seq<Balance>, outputs: map<u32, Option<Address>>,
                                             orders: seq<Order>, ev: nat, who: Address)
    ensures var r := RunBack(txId, rune, q, outputs, orders, ev);
            Held(q, Owner(who))
            == Held(r.rest, Owner(who)) + MempoolSum(r.entries, Send, rune, who) + MempoolSum(r.entries, Burn, rune, who)
    decreases |orders|
  {
    hide MoveBack, Held, MempoolSum;
    forall op {
      MempoolSumAppend([], [], op, rune, who);
    }
    if orders != [] {
      var m := MoveBack(txId, orders[0].output, rune, q, outputs, orders[0].amount, ev);
      var rest := RunBack(txId, rune, m.rest, outputs, orders[1..], ev + |m.entries|);
      MoveBackKeepsOwner(txId, orders[0].output, rune, q, outputs, orders[0].amount, ev, who);
      RunBackKeepsOwner(txId, rune, m.rest, outputs, orders[1..], ev + |m.entries|, who);
      forall op {
        MempoolSumAppend(m.entries, rest.entries, op, rune, who);
      }
    }
  }

  lemma RowsOfOthers(rows: seq<MempoolEntry>, txId: string, rune: RuneId, r: RuneId, op: Operation, who: Address)
    requires r != rune && forall e :: e in rows ==> IsOf(e, txId, rune)
    ensures MempoolSum(rows, op, r, who) == 0
  {
    SumZero(rows, MempoolWeight(op, r, who));
  }

  lemma CollectKeepsOwner(txId: string, edict: Edict, inputs: map<RuneId, seq<Balance>>, outputs: map<u32, Option<Address>>,
                          totalOutputs: u32, ev: nat, rune: RuneId, who: Address)
    ensures var c := CollectEdict(txId, edict, inputs, outputs, totalOutputs, ev);
            Held(Queue(inputs, rune), Owner(who))
            == Held(Queue(c.inputs, rune), Owner(who)) + MempoolSum(c.entries, Send, rune, who) + MempoolSum(c.entries, Burn, rune, who)
  {
    hide RunBack, EdictOrders, Held, MempoolSum, IsOf, Total;
    forall op {
      MempoolSumAppend([], [], op, rune, who);
    }
    if edict.id != SELF_ID && edict.id in inputs {
      var q := inputs[edict.id];
      var orders := EdictOrders(edict, Total(q), outputs, totalOutputs);
      var r := RunBack(txId, edict.id, q, outputs, orders, ev);
      assert CollectEdict(txId, edict, inputs, outputs, totalOutputs, ev) == Collected(inputs[edict.id := r.rest], r.entries, ev + |r.entries|);
      RunBackKeepsOwner(txId, edict.id, q, outputs, orders, ev, who);
      if rune != edict.id {
        RunBackTells(txId, edict.id, q, outputs, orders, ev);
        RowsOfOthers(r.entries, txId, edict.id, rune, Send, who);
        RowsOfOthers(r.entries, txId, edict.id, rune, Burn, who);
        assert Queue(inputs[edict.id := r.rest], rune) == Queue(inputs, rune);
      } else {
        assert Queue(inputs[edict.id := r.rest], rune) == r.rest;
      }
    }
  }

  /** Over any mempool edicts, for every rune and address: what was queued is still queued, sent, or burned. */
  lemma {:induction false} EdictsKeepOwners(txId: string, edicts: seq<Edict>, inputs: map<RuneId, seq<Balance>>,
                                            outputs: map<u32, Option<Address>>, totalOutputs: u32, ev: nat, rune: RuneId, who: Address)
    ensures var c := MempoolEdicts(txId, edicts, inputs, outputs, totalOutputs, ev);
            Held(Queue(inputs, rune), Owner(who))
            == Held(Queue(c.inputs, rune), Owner(who)) + MempoolSum(c.entries, Send, rune, who) + MempoolSum(c.entries, Burn, rune, who)
  {
    hide CollectEdict, Held, MempoolSum, Queue;
    forall op {
      MempoolSumAppend([], [], op, rune, who);
    }
    if edicts != [] {
      var c := MempoolEdicts(txId, DropLast(edicts), inputs, outputs, totalOutputs, ev);
      var d := CollectEdict(txId, Last(edicts), c.inputs, outputs, totalOutputs, c.nextEvent);
      EdictsKeepOwners(txId, DropLast(edicts), inputs, outputs, totalOutputs, ev, rune, who);
      CollectKeepsOwner(txId, Last(edicts), c.inputs, outputs, totalOutputs, c.nextEvent, rune, who);
      forall op {
        MempoolSumAppend(c.entries, d.entries, op, rune, who);
      }
    }
  }
}
