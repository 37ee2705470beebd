/** What a run of moves means: consecutive segments of the line, even splits, and nothing lost. */
module EdictLaws {
  import opened Basics
  import opened Ledger
  import opened Moves
  import opened MoveLaws
  import opened Artifacts
  import opened Edicts

  /** How many units each order takes. */
  function Sizes(q: seq<Balance>, orders: seq<Order>): (sizes: seq<nat>)
    ensures |sizes| == |orders|
    decreases |orders|
  {
    if orders == [] then []
    else [Moved(q, orders[0].amount)] + Sizes(Take(q, orders[0].amount, 0).rest, orders[1..])
  }

  function SumOf(ns: seq<nat>): nat {
    if ns == [] then 0 else ns[0] + SumOf(ns[1..])
  }

  /** The moves of a run. */
  function RunMoves(loc: Location, rune: RuneId, q: seq<Balance>, outputs: map<u32, Option<Address>>,
                    orders: seq<Order>, ev: nat): (moves: seq<Move>)
    ensures |moves| == |orders|
    decreases |orders|
  {
    if orders == [] then []
    else
      var m := MoveBalance(loc, orders[0].output, rune, q, outputs, orders[0].amount, ev);
      [m] + RunMoves(loc, rune, m.rest, outputs, orders[1..], ev + |m.Entries()|)
  }

  /** The moves eat the line from the front, one segment after the other: each takes its number of units, writes the owned
      labels of exactly that segment on its Send or Burn rows and the length on its Receive row, and leaves what follows. */
  ghost predicate EatInOrder(line: seq<Option<Address>>, moves: seq<Move>, orders: seq<Order>, sizes: seq<nat>,
                             outputs: map<u32, Option<Address>>)
    requires |moves| == |orders| == |sizes|
    decreases |moves|
  {
    moves == [] ||
    (&& IsPrefixMove(moves[0], Receiver(outputs, orders[0].output), line, sizes[0])
     && EatInOrder(line[sizes[0]..], moves[1..], orders[1..], sizes[1..], outputs))
  }

  ghost predicate IsPrefixMove(m: Move, receiver: Option<Address>, line: seq<Option<Address>>, n: nat) {
    && n <= |line|
    && Line(m.rest) == line[n..]
    && Line(Senders(m.sends)) == OwnedUnits(line[..n])
    && Total(Senders(m.received)) == if receiver.Some? then n else 0
  }

  /** FIFO over a whole run. */
  lemma {:induction false} RunIsFifo(loc: Location, rune: RuneId, q: seq<Balance>, outputs: map<u32, Option<Address>>,
                                     orders: seq<Order>, ev: nat)
    ensures EatInOrder(Line(q), RunMoves(loc, rune, q, outputs, orders, ev), orders, Sizes(q, orders), outputs)
    decreases |orders|
  {
    hide MoveBalance, IsPrefixMove, Take, Moved;
    if orders != [] {
      var m := MoveBalance(loc, orders[0].output, rune, q, outputs, orders[0].amount, ev);
      FirstSegment(loc, orders[0].output, rune, q, outputs, orders[0].amount, ev);
      RunIsFifo(loc, rune, m.rest, outputs, orders[1..], ev + |m.Entries()|);
      var moves, sizes := RunMoves(loc, rune, m.rest, outputs, orders[1..], ev + |m.Entries()|), Sizes(m.rest, orders[1..]);
      assert ([m] + moves)[1..] == moves;
      assert ([Moved(q, orders[0].amount)] + sizes)[1..] == sizes;
    }
  }

  /** The rows of a run are the rows of its moves, in order. */
  lemma {:induction false} RunRows(loc: Location, rune: RuneId, q: seq<Balance>, outputs: map<u32, Option<Address>>,
                                   orders: seq<Order>, ev: nat)
    ensures var r := RunOrders(loc, rune, q, outputs, orders, ev);
            r.entries == RowsOfMoves(RunMoves(loc, rune, q, outputs, orders, ev))
    decreases |orders|
  {
    hide MoveBalance, Move.Entries;
    if orders != [] {
      var m := MoveBalance(loc, orders[0].output, rune, q, outputs, orders[0].amount, ev);
      RunRows(loc, rune, m.rest, outputs, orders[1..], ev + |m.Entries()|);
      var moves := RunMoves(loc, rune, m.rest, outputs, orders[1..], ev + |m.Entries()|);
      assert ([m] + moves)[1..] == moves;
    }
  }

  function RowsOfMoves(moves: seq<Move>): seq<Entry> {
    if moves == [] then [] else moves[0].Entries() + RowsOfMoves(moves[1..])
  }

  lemma FirstSegment(loc: Location, output: Option<u32>, rune: RuneId, q: seq<Balance>,
                     outputs: map<u32, Option<Address>>, amount: nat, ev: nat)
    ensures var m := MoveBalance(loc, output, rune, q, outputs, amount, ev);
            && m.rest == Take(q, amount, 0).rest
            && IsPrefixMove(m, Receiver(outputs, output), Line(q), Moved(q, amount))
  {
    var m := MoveBalance(loc, output, rune, q, outputs, amount, ev);
    MoveIsFifo(loc, output, rune, q, outputs, amount, ev);
    if m.received != [] {
      assert Senders(m.received) == [Sender(m.received[0])];
      SumOne(Sender(m.received[0]), HeldBy(Anyone));
    }
  }

  // ----- How much each order takes -----

  /** The sizes in terms of the total alone. */
  function Shares(total: nat, orders: seq<Order>): (shares: seq<nat>)
    ensures |shares| == |orders|
    decreases |orders|
  {
    if orders == [] then []
    else
      var n := if orders[0].amount > 0 then Min(orders[0].amount, total) else total;
      [n] + Shares(total - n, orders[1..])
  }

  /** No order says "everything" while something is left. */
  predicate Explicit(total: nat, orders: seq<Order>)
    decreases |orders|
  {
    orders == [] ||
    ((orders[0].amount == 0 ==> total == 0) && Explicit(total - Min(orders[0].amount, total), orders[1..]))
  }

  predicate AllPositive(q: seq<Balance>) {
    forall b :: b in q ==> b.amount > 0
  }

  lemma {:induction false} TakeKeepsPositive(q: seq<Balance>, amount: nat, sent: nat)
    requires AllPositive(q) && (amount == 0 || sent < amount)
    ensures AllPositive(Take(q, amount, sent).rest)
  {
    if q != [] {
      var taken := if amount == 0 then q[0].amount else Min(q[0].amount, amount - sent);
      if taken == q[0].amount && sent + taken != amount {
        TakeKeepsPositive(q[1..], amount, sent + taken);
      }
    }
  }

  /** The fragmentation of a balance does not matter: sizes depend on the total only. */
  lemma {:induction false} SizesAreShares(q: seq<Balance>, orders: seq<Order>)
    requires AllPositive(q) || Explicit(Total(q), orders)
    ensures Sizes(q, orders) == Shares(Total(q), orders)
    decreases |orders|
  {
    if orders != [] {
      var amount := orders[0].amount;
      TakeTotal(q, amount);
      if AllPositive(q) {
        assert q != [] ==> q[0] in q;
        TakeKeepsPositive(q, amount, 0);
      }
      SizesAreShares(Take(q, amount, 0).rest, orders[1..]);
    }
  }

  /** What an even split over `n` outputs hands out. */
  function SplitTotal(n: nat, share: nat, remainder: nat): nat {
    if n == 0 then 0
    else if remainder > 0 then share + 1 + SplitTotal(n - 1, share, remainder - 1)
    else share + SplitTotal(n - 1, share, 0)
  }

  lemma {:induction false} SplitTotalIs(n: nat, share: nat, remainder: nat)
    requires remainder <= n
    ensures SplitTotal(n, share, remainder) == share * n + remainder
  {
    if n > 0 {
      SplitTotalIs(n - 1, share, if remainder > 0 then remainder - 1 else 0);
    }
  }

  /** An even split hands out everything, and no share of zero means "everything". */
  lemma {:induction false} SplitIsExplicit(total: nat, keys: seq<u32>, share: nat, remainder: nat)
    requires total == SplitTotal(|keys|, share, remainder)
    ensures var orders := SplitOrders(keys, share, remainder);
            Explicit(total, orders) && SumOf(Shares(total, orders)) == total
  {
    if keys != [] {
      var amount := if remainder > 0 then share + 1 else share;
      var left := if remainder > 0 then remainder - 1 else 0;
      SplitIsExplicit(total - amount, keys[1..], share, left);
      SplitTotalZero(|keys[1..]|);
      SplitStep(total, keys, share, remainder);
    }
  }

  lemma SplitStep(total: nat, keys: seq<u32>, share: nat, remainder: nat)
    requires keys != [] && total == SplitTotal(|keys|, share, remainder)
    ensures var amount := if remainder > 0 then share + 1 else share;
            var tail := SplitOrders(keys[1..], share, if remainder > 0 then remainder - 1 else 0);
            var orders := SplitOrders(keys, share, remainder);
            && orders[0] == Order(Some(keys[0]), amount) && orders[1..] == tail && amount <= total
            && Shares(total, orders) == [amount] + Shares(total - amount, tail)
  {
    SplitTotalZero(|keys|);
  }

  /** The i-th output of an even split. */
  lemma {:induction false} SplitShare(total: nat, keys: seq<u32>, share: nat, remainder: nat, i: nat)
    requires total == SplitTotal(|keys|, share, remainder) && i < |keys|
    ensures var orders := SplitOrders(keys, share, remainder);
            && Shares(total, orders)[i] == share + (if i < remainder then 1 else 0)
            && orders[i].output == Some(keys[i])
    decreases i
  {
    SplitStep(total, keys, share, remainder);
    if i > 0 {
      var amount := if remainder > 0 then share + 1 else share;
      SplitShare(total - amount, keys[1..], share, if remainder > 0 then remainder - 1 else 0, i - 1);
    }
  }

  lemma {:induction false} SplitTotalZero(n: nat)
    ensures SplitTotal(n, 0, 0) == 0
  {
    if n > 0 {
      SplitTotalZero(n - 1);
    }
  }

  /** What is left of `total` after `i` outputs took `amount` each. */
  function LeftAfter(total: nat, amount: nat, i: nat): nat {
    if i == 0 then total else LeftAfter(total - Min(amount, total), amount, i - 1)
  }

  lemma {:induction false} LeftAfterIs(total: nat, amount: nat, i: nat)
    ensures LeftAfter(total, amount, i) == if i * amount >= total then 0 else total - i * amount
  {
    if i > 0 {
      LeftAfterIs(total - Min(amount, total), amount, i - 1);
      assert i * amount == (i - 1) * amount + amount;
    }
  }

  lemma {:induction false} EqualShares(total: nat, keys: seq<u32>, amount: nat, i: nat)
    requires amount == 0 ==> total == 0
    ensures Explicit(total, EqualOrders(keys, amount))
    ensures i < |keys| ==> Shares(total, EqualOrders(keys, amount))[i] == Min(amount, LeftAfter(total, amount, i))
    ensures i < |keys| ==> EqualOrders(keys, amount)[i].output == Some(keys[i])
    decreases |keys|
  {
    if keys != [] {
      var left := total - Min(amount, total);
      EqualShares(left, keys[1..], amount, if i == 0 then 0 else i - 1);
      var tail := EqualOrders(keys[1..], amount);
      var orders := EqualOrders(keys, amount);
      assert orders == [Order(Some(keys[0]), amount)] + tail;
      assert orders[1..] == tail;
      assert Shares(total, orders) == [Min(amount, total)] + Shares(left, tail);
    }
  }

  /** The whole-output edict (output = output count), for both meanings of its amount: the i-th eligible output in
      ascending order is moved exactly this much, whatever pieces the balance consists of, and a share of zero never
      turns into "everything". */
  lemma SplitEdict(q: seq<Balance>, edict: Edict, outputs: map<u32, Option<Address>>, totalOutputs: u32, i: nat)
    requires edict.output == totalOutputs && i < |outputs|
    ensures var orders := EdictOrders(edict, Total(q), outputs, totalOutputs);
            && |orders| == |outputs|
            && Explicit(Total(q), orders)
            && orders[i].output == Some(SortedKeys(outputs.Keys)[i])
            && Sizes(q, orders)[i] ==
               if edict.amount == 0 then Total(q) / |outputs| + (if i < Total(q) % |outputs| then 1 else 0)
               else Min(edict.amount, LeftAfter(Total(q), edict.amount, i))
  {
    hide SortedKeys, Sizes, Shares, SplitOrders, EqualOrders, Explicit, LeftAfter, SplitTotal, Total;
    var keys, total, n := SortedKeys(outputs.Keys), Total(q), |outputs|;
    assert |keys| == |outputs.Keys| == n;
    var orders := EdictOrders(edict, total, outputs, totalOutputs);
    if edict.amount == 0 {
      SplitTotalIs(n, total / n, total % n);
      SplitIsExplicit(total, keys, total / n, total % n);
      SplitShare(total, keys, total / n, total % n, i);
    } else {
      EqualShares(total, keys, Min(edict.amount, total), i);
      CappedShare(total, edict.amount, i);
    }
    SizesAreShares(q, orders);
  }

  /** Capping the amount by the total changes no share. */
  lemma {:induction false} CappedShare(total: nat, amount: nat, i: nat)
    ensures Min(Min(amount, total), LeftAfter(total, Min(amount, total), i)) == Min(amount, LeftAfter(total, amount, i))
  {
    if amount > total && i > 0 {
      LeftOfNothing(total, i - 1);
      LeftOfNothing(amount, i - 1);
    }
  }

  lemma {:induction false} LeftOfNothing(amount: nat, i: nat)
    ensures LeftAfter(0, amount, i) == 0
  {
    if i > 0 {
      LeftOfNothing(amount, i - 1);
    }
  }

  // ----- Conservation over a run of moves -----

  lemma {:induction false} RunKeepsUnits(loc: Location, rune: RuneId, q: seq<Balance>, outputs: map<u32, Option<Address>>,
                                         orders: seq<Order>, ev: nat)
    ensures var r := RunOrders(loc, rune, q, outputs, orders, ev);
            Total(r.rest) + RowSum(r.entries, Receive, rune, Anyone) + RowSum(r.entries, Burn, rune, Anyone)
            + r.unrecorded == Total(q)
    decreases |orders|
  {
    hide MoveBalance, RowSum, Held, Total;
    if orders == [] {
      RowSumEmpty(Receive, rune, Anyone);
      RowSumEmpty(Burn, rune, Anyone);
    } else {
      var m := MoveBalance(loc, orders[0].output, rune, q, outputs, orders[0].amount, ev);
      var r := RunOrders(loc, rune, m.rest, outputs, orders[1..], ev + |m.Entries()|);
      MoveKeepsUnits(loc, orders[0].output, rune, q, outputs, orders[0].amount, ev);
      RunKeepsUnits(loc, rune, m.rest, outputs, orders[1..], ev + |m.Entries()|);
      RowSumAppend(m.Entries(), r.entries, Receive, rune, Anyone);
      RowSumAppend(m.Entries(), r.entries, Burn, rune, Anyone);
    }
  }

  lemma {:induction false} RunKeepsOwner(loc: Location, rune: RuneId, q: seq<Balance>, outputs: map<u32, Option<Address>>,
                                         orders: seq<Order>, ev: nat, a: Address)
    ensures var r := RunOrders(loc, rune, q, outputs, orders, ev);
            Held(r.rest, Owner(a)) + RowSum(r.entries, Send, rune, Owner(a)) + RowSum(r.entries, Burn, rune, Owner(a))
            == Held(q, Owner(a))
    decreases |orders|
  {
    hide MoveBalance, RowSum, Held, Total;
    if orders == [] {
      RowSumEmpty(Send, rune, Owner(a));
      RowSumEmpty(Burn, rune, Owner(a));
    } else {
      var m := MoveBalance(loc, orders[0].output, rune, q, outputs, orders[0].amount, ev);
      var r := RunOrders(loc, rune, m.rest, outputs, orders[1..], ev + |m.Entries()|);
      MoveKeepsOwner(loc, orders[0].output, rune, q, outputs, orders[0].amount, ev, a);
      RunKeepsOwner(loc, rune, m.rest, outputs, orders[1..], ev + |m.Entries()|, a);
      RowSumAppend(m.Entries(), r.entries, Send, rune, Owner(a));
      RowSumAppend(m.Entries(), r.entries, Burn, rune, Owner(a));
    }
  }

  /** The receiver of an edict that is not a split: nobody when no output is eligible or the output is beyond the last. */
  function EdictReceiver(edict: Edict, outputs: map<u32, Option<Address>>, totalOutputs: u32): Option<Address> {
    if |outputs| == 0 || edict.output > totalOutputs then None else Receiver(outputs, Some(edict.output))
  }

  /** The units such an edict moves: its amount or all there is. Zero means everything; only a burn can be stalled by a zero
      piece in front. */
  function EdictAmount(edict: Edict, q: seq<Balance>, outputs: map<u32, Option<Address>>, totalOutputs: u32): nat {
    if edict.amount > 0 then Min(edict.amount, Total(q))
    else if Stalls(q) && (|outputs| == 0 || edict.output > totalOutputs) then 0
    else Total(q)
  }

  /** An edict to one output gives these units to that output's address and to nobody else, and leaves the others queued. */
  lemma SingleEdict(loc: Location, rune: RuneId, q: seq<Balance>, edict: Edict, outputs: map<u32, Option<Address>>,
                    totalOutputs: u32, ev: nat, a: Address)
    requires |outputs| == 0 || edict.output != totalOutputs
    ensures var r := RunOrders(loc, rune, q, outputs, EdictOrders(edict, Total(q), outputs, totalOutputs), ev);
            var n := EdictAmount(edict, q, outputs, totalOutputs);
            && RowSum(r.entries, Receive, rune, Owner(a)) == (if EdictReceiver(edict, outputs, totalOutputs) == Some(a) then n else 0)
            && Total(r.rest) == Total(q) - n
  {
    hide MoveBalance, Move.Entries, RowSum, Total, Take;
    var order := EdictOrders(edict, Total(q), outputs, totalOutputs)[0];
    var m := MoveBalance(loc, order.output, rune, q, outputs, order.amount, ev);
    OneOrder(loc, rune, q, outputs, order, ev);
    ReceivedByMove(loc, order.output, rune, q, outputs, order.amount, ev, rune, a);
    MoveRows(loc, order.output, rune, q, outputs, order.amount, ev);
    TakeTotal(q, order.amount);
  }

  lemma OneOrder(loc: Location, rune: RuneId, q: seq<Balance>, outputs: map<u32, Option<Address>>, order: Order, ev: nat)
    ensures var m := MoveBalance(loc, order.output, rune, q, outputs, order.amount, ev);
            var r := RunOrders(loc, rune, q, outputs, [order], ev);
            r.rest == m.rest && r.entries == m.Entries()
  {
    hide MoveBalance, Move.Entries;
    var m := MoveBalance(loc, order.output, rune, q, outputs, order.amount, ev);
    assert [order][1..] == [] && m.Entries() + [] == m.Entries();
  }
}
