/** What a move means: the queue is one line of owner-labelled units, and a move cuts off its front. */
module MoveLaws {
  import opened Basics
  import opened Ledger
  import opened Moves

  function Repeat(owner: Option<Address>, n: nat): (line: seq<Option<Address>>)
    ensures |line| == n && forall i :: 0 <= i < n ==> line[i] == owner
  {
    seq(n, _ => owner)
  }

  /** The queue as one line of units, each labelled with its owner. */
  ghost function Line(q: seq<Balance>): seq<Option<Address>> {
    if q == [] then [] else Repeat(q[0].address, q[0].amount) + Line(q[1..])
  }

  lemma {:induction false} LineAppend(a: seq<Balance>, b: seq<Balance>)
    ensures Line(a + b) == Line(a) + Line(b)
  {
    if a == [] {
      assert a + b == b;
    } else {
      assert (a + b)[1..] == a[1..] + b;
      LineAppend(a[1..], b);
    }
  }

  lemma {:induction false} LineLength(q: seq<Balance>)
    ensures |Line(q)| == Total(q)
  {
    if q != [] {
      LineLength(q[1..]);
      SumCons(q[0], q[1..], HeldBy(Anyone));
      assert q == [q[0]] + q[1..];
    }
  }

  /** Nothing is lost or relabelled by a move: what it takes followed by what it leaves is the old line. */
  lemma {:induction false} TakeCutsTheLine(q: seq<Balance>, amount: nat, sent: nat)
    requires amount == 0 || sent < amount
    ensures var t := Take(q, amount, sent); Line(t.pieces) + Line(t.rest) == Line(q)
  {
    if q != [] {
      var head := q[0];
      var taken := if amount == 0 then head.amount else Min(head.amount, amount - sent);
      if taken < head.amount {
        var piece, left := Balance(head.address, taken), Balance(head.address, head.amount - taken);
        assert ([left] + q[1..])[1..] == q[1..];
        assert Line([piece]) == Repeat(head.address, taken) + Line([piece][1..]);
        assert Repeat(head.address, taken) + Repeat(head.address, left.amount) == Repeat(head.address, head.amount);
      } else if sent + taken == amount {
        assert Line([head]) == Repeat(head.address, head.amount) + Line([head][1..]);
      } else {
        var t := Take(q[1..], amount, sent + taken);
        TakeCutsTheLine(q[1..], amount, sent + taken);
        assert ([head] + t.pieces)[1..] == t.pieces;
      }
    }
  }

  /** A move that is told an amount takes that many units, or everything if there are fewer. */
  lemma {:induction false} TakeAmount(q: seq<Balance>, amount: nat, sent: nat)
    requires sent < amount
    ensures Total(Take(q, amount, sent).pieces) == Min(amount - sent, Total(q))
  {
    if q != [] {
      assert q == [q[0]] + q[1..];
      SumCons(q[0], q[1..], HeldBy(Anyone));
      var taken := Min(q[0].amount, amount - sent);
      SumOne(Balance(q[0].address, taken), HeldBy(Anyone));
      if taken == q[0].amount && sent + taken != amount {
        TakeAmount(q[1..], amount, sent + taken);
        SumCons(q[0], Take(q[1..], amount, sent + taken).pieces, HeldBy(Anyone));
      }
    }
  }

  /** Told "everything" after at least one unit has been taken, the loop never stops early. */
  lemma {:induction false} TakeAllAfterOne(q: seq<Balance>, sent: nat)
    requires sent > 0
    ensures Take(q, 0, sent) == Taken(q, [])
  {
    if q != [] {
      TakeAllAfterOne(q[1..], sent + q[0].amount);
      assert q == [q[0]] + q[1..];
    }
  }

  /** Told "everything" at the start, the loop stops at once exactly when the first piece is empty. */
  lemma TakeAll(q: seq<Balance>)
    ensures Take(q, 0, 0) ==
            if q != [] && q[0].amount == 0 then Taken([q[0]], q[1..]) else Taken(q, [])
  {
    if q != [] && q[0].amount > 0 {
      TakeAllAfterOne(q[1..], q[0].amount);
      assert q == [q[0]] + q[1..];
    }
  }

  /** The number of units a move takes, and so how many are left. */
  lemma TakeTotal(q: seq<Balance>, amount: nat)
    ensures var t := Take(q, amount, 0);
            Total(t.pieces) == Moved(q, amount) && Total(t.rest) == Total(q) - Moved(q, amount)
  {
    var t := Take(q, amount, 0);
    if amount > 0 {
      TakeAmount(q, amount, 0);
    } else {
      TakeAll(q);
      if q != [] && q[0].amount == 0 {
        SumOne(q[0], HeldBy(Anyone));
        SumCons(q[0], q[1..], HeldBy(Anyone));
        assert q == [q[0]] + q[1..];
      }
    }
    TakeCutsTheLine(q, amount, 0);
    LineLength(t.pieces);
    LineLength(t.rest);
    LineLength(q);
  }

  /** A move takes the first `Moved` units of the line and leaves the others in order. */
  lemma MoveTakesASegment(q: seq<Balance>, amount: nat)
    ensures var t := Take(q, amount, 0);
            var n := Moved(q, amount);
            n <= |Line(q)| && Line(t.pieces) == Line(q)[..n] && Line(t.rest) == Line(q)[n..]
  {
    var t := Take(q, amount, 0);
    TakeTotal(q, amount);
    TakeCutsTheLine(q, amount, 0);
    LineLength(t.pieces);
    LineLength(q);
  }

  /** The units of a line that have an owner. */
  ghost function OwnedUnits(line: seq<Option<Address>>): seq<Option<Address>> {
    if line == [] then [] else (if line[0].Some? then [line[0]] else []) + OwnedUnits(line[1..])
  }

  lemma {:induction false} OwnedUnitsAppend(a: seq<Option<Address>>, b: seq<Option<Address>>)
    ensures OwnedUnits(a + b) == OwnedUnits(a) + OwnedUnits(b)
  {
    hide OwnedUnits;
    if a == [] {
      NoOwnedUnits();
      assert a + b == b;
    } else {
      OwnedUnitsAppend(a[1..], b);
      OwnedUnitsCons(a[0], a[1..] + b);
      OwnedUnitsCons(a[0], a[1..]);
      assert a == [a[0]] + a[1..] && a + b == [a[0]] + (a[1..] + b);
    }
  }

  lemma NoOwnedUnits()
    ensures OwnedUnits([]) == []
  {
  }

  lemma OwnedUnitsCons(x: Option<Address>, line: seq<Option<Address>>)
    ensures OwnedUnits([x] + line) == (if x.Some? then [x] else []) + OwnedUnits(line)
  {
    assert ([x] + line)[1..] == line;
  }

  lemma {:induction false} OwnedUnitsRepeat(owner: Option<Address>, n: nat)
    ensures OwnedUnits(Repeat(owner, n)) == if owner.Some? then Repeat(owner, n) else []
  {
    if n > 0 {
      assert Repeat(owner, n)[1..] == Repeat(owner, n - 1);
      OwnedUnitsRepeat(owner, n - 1);
    }
  }

  lemma {:induction false} OwnedLine(pieces: seq<Balance>)
    ensures Line(Owned(pieces)) == OwnedUnits(Line(pieces))
  {
    if pieces != [] {
      var init, last := DropLast(pieces), Last(pieces);
      assert pieces == init + [last];
      OwnedLine(init);
      LineAppend(init, [last]);
      assert Line([last]) == Repeat(last.address, last.amount) + Line([last][1..]);
      assert Line([last]) == Repeat(last.address, last.amount);
      OwnedUnitsAppend(Line(init), Line([last]));
      OwnedUnitsRepeat(last.address, last.amount);
      LineAppend(Owned(init), [last]);
      assert Owned(init) + [] == Owned(init);
    }
  }

  /** A Send or Burn row read back as the piece it records. */
  function Sender(e: Entry): Balance {
    Balance(e.address, e.Amount())
  }

  function Senders(rows: seq<Entry>): (senders: seq<Balance>)
    ensures |senders| == |rows|
  {
    seq(|rows|, i requires 0 <= i < |rows| => Sender(rows[i]))
  }

  /** FIFO: a move consumes the first units of the line; its Send or Burn rows carry exactly the owned labels of that
      segment, in order; its Receive row, if any, comes first and carries the length of the segment. */
  lemma MoveIsFifo(loc: Location, output: Option<u32>, rune: RuneId, q: seq<Balance>,
                   outputs: map<u32, Option<Address>>, amount: nat, ev: nat)
    ensures var m := MoveBalance(loc, output, rune, q, outputs, amount, ev);
            var n := Moved(q, amount);
            && n <= |Line(q)|
            && Line(m.rest) == Line(q)[n..]
            && m.received == ReceiveRows(loc, output, rune, Receiver(outputs, output), n, ev)
            && Line(Senders(m.sends)) == OwnedUnits(Line(q)[..n])
            && m.unrecorded == if Receiver(outputs, output).Some? then 0 else n - |OwnedUnits(Line(q)[..n])|
  {
    var t := Take(q, amount, 0);
    MoveTakesASegment(q, amount);
    MoveRows(loc, output, rune, q, outputs, amount, ev);
    OwnedLine(t.pieces);
    OwnedHeld(t.pieces);
    LineLength(Owned(t.pieces));
    TakeTotal(q, amount);
  }

  /** The rows of a move in terms of the pieces it takes. */
  lemma MoveRows(loc: Location, output: Option<u32>, rune: RuneId, q: seq<Balance>,
                 outputs: map<u32, Option<Address>>, amount: nat, ev: nat)
    ensures var m := MoveBalance(loc, output, rune, q, outputs, amount, ev);
            var t := Take(q, amount, 0);
            && m.rest == t.rest
            && m.received == ReceiveRows(loc, output, rune, Receiver(outputs, output), Moved(q, amount), ev)
            && Senders(m.sends) == Owned(t.pieces)
            && m.unrecorded == if Receiver(outputs, output).Some? then 0 else Held(t.pieces, Nobody)
  {
    TakeTotal(q, amount);
  }

  lemma {:induction false} OwnedHeld(pieces: seq<Balance>)
    ensures Total(Owned(pieces)) + Held(pieces, Nobody) == Total(pieces)
    ensures forall a :: Held(Owned(pieces), Owner(a)) == Held(pieces, Owner(a))
  {
    if pieces != [] {
      var init := DropLast(pieces);
      OwnedHeld(init);
      if Last(pieces).address.Some? {
        SumSnoc(Owned(init), Last(pieces), HeldBy(Anyone));
        forall a {
          SumSnoc(Owned(init), Last(pieces), HeldBy(Owner(a)));
        }
      } else {
        assert Owned(pieces) == Owned(init);
      }
    }
  }

  lemma {:induction false} RepeatCount(owner: Option<Address>, n: nat, who: Option<Address>)
    ensures multiset(Repeat(owner, n))[who] == if owner == who then n else 0
  {
    if n > 0 {
      RepeatCount(owner, n - 1, who);
      assert Repeat(owner, n) == Repeat(owner, n - 1) + [owner];
    }
  }

  /** An owner's share of the queue is the number of its labels on the line. */
  lemma {:induction false} LineCount(q: seq<Balance>, a: Address)
    ensures multiset(Line(q))[Some(a)] == Held(q, Owner(a))
  {
    if q != [] {
      LineCount(q[1..], a);
      RepeatCount(q[0].address, q[0].amount, Some(a));
      SumCons(q[0], q[1..], HeldBy(Owner(a)));
      assert q == [q[0]] + q[1..];
    }
  }

  lemma TakeHeld(q: seq<Balance>, amount: nat, a: Address)
    ensures var t := Take(q, amount, 0); Held(t.pieces, Owner(a)) + Held(t.rest, Owner(a)) == Held(q, Owner(a))
  {
    var t := Take(q, amount, 0);
    TakeCutsTheLine(q, amount, 0);
    LineCount(t.pieces, a);
    LineCount(t.rest, a);
    LineCount(q, a);
  }

  lemma {:induction false} SendsSum(rows: seq<Entry>, op: Operation, rune: RuneId, who: Who)
    requires forall e :: e in rows ==> e.operation == op && e.rune == rune
    ensures RowSum(rows, op, rune, who) == Held(Senders(rows), who)
  {
    if rows != [] {
      SendsSum(DropLast(rows), op, rune, who);
      assert DropLast(Senders(rows)) == Senders(DropLast(rows));
    }
  }

  /** Every row of a move belongs to the moved rune and to this transaction. */
  lemma MoveShape(loc: Location, output: Option<u32>, rune: RuneId, q: seq<Balance>,
                  outputs: map<u32, Option<Address>>, amount: nat, ev: nat)
    ensures var m := MoveBalance(loc, output, rune, q, outputs, amount, ev);
            && (forall e :: e in m.received ==>
                  e.operation == Receive && e.rune == rune && e.address.Some? && e.output.Some? && e.Amount() > 0)
            && (forall e :: e in m.sends ==>
                  e.operation == (if Receiver(outputs, output).Some? then Send else Burn) && e.rune == rune)
  {
  }

  /** Units of one rune across a move: what was queued is still queued, received, burned on a row, or burned unrecorded. */
  lemma MoveKeepsUnits(loc: Location, output: Option<u32>, rune: RuneId, q: seq<Balance>,
                       outputs: map<u32, Option<Address>>, amount: nat, ev: nat)
    ensures var m := MoveBalance(loc, output, rune, q, outputs, amount, ev);
            Total(m.rest) + RowSum(m.Entries(), Receive, rune, Anyone) + RowSum(m.Entries(), Burn, rune, Anyone)
            + m.unrecorded == Total(q)
  {
    var t := Take(q, amount, 0);
    var receiver := Receiver(outputs, output);
    var m := MoveBalance(loc, output, rune, q, outputs, amount, ev);
    MoveShape(loc, output, rune, q, outputs, amount, ev);
    MoveRows(loc, output, rune, q, outputs, amount, ev);
    TakeTotal(q, amount);
    OwnedHeld(t.pieces);
    RowSumAppend(m.received, m.sends, Receive, rune, Anyone);
    RowSumAppend(m.received, m.sends, Burn, rune, Anyone);
    RowSumOther(m.sends, Receive, rune, Anyone);
    RowSumOther(m.received, Burn, rune, Anyone);
    if m.received != [] {
      assert m.received == [m.received[0]];
      SumOne(m.received[0], RowWeight(Receive, rune, Anyone));
    }
    if receiver.Some? {
      RowSumOther(m.sends, Burn, rune, Anyone);
    } else {
      SendsSum(m.sends, Burn, rune, Anyone);
    }
  }

  /** One owner's units across a move: what was queued is still queued, sent, or burned. */
  lemma MoveKeepsOwner(loc: Location, output: Option<u32>, rune: RuneId, q: seq<Balance>,
                       outputs: map<u32, Option<Address>>, amount: nat, ev: nat, a: Address)
    ensures var m := MoveBalance(loc, output, rune, q, outputs, amount, ev);
            Held(m.rest, Owner(a)) + RowSum(m.Entries(), Send, rune, Owner(a)) + RowSum(m.Entries(), Burn, rune, Owner(a))
            == Held(q, Owner(a))
  {
    var t := Take(q, amount, 0);
    var receiver := Receiver(outputs, output);
    var m := MoveBalance(loc, output, rune, q, outputs, amount, ev);
    MoveShape(loc, output, rune, q, outputs, amount, ev);
    MoveRows(loc, output, rune, q, outputs, amount, ev);
    TakeHeld(q, amount, a);
    OwnedHeld(t.pieces);
    RowSumAppend(m.received, m.sends, Send, rune, Owner(a));
    RowSumAppend(m.received, m.sends, Burn, rune, Owner(a));
    RowSumOther(m.received, Send, rune, Owner(a));
    RowSumOther(m.received, Burn, rune, Owner(a));
    if receiver.Some? {
      RowSumOther(m.sends, Burn, rune, Owner(a));
      SendsSum(m.sends, Send, rune, Owner(a));
    } else {
      RowSumOther(m.sends, Send, rune, Owner(a));
      SendsSum(m.sends, Burn, rune, Owner(a));
    }
  }

  /** What a move gives to an address: the units it takes, if the address is its receiver. */
  lemma ReceivedByMove(loc: Location, output: Option<u32>, rune: RuneId, q: seq<Balance>, outputs: map<u32, Option<Address>>,
                       amount: nat, ev: nat, r: RuneId, a: Address)
    ensures RowSum(MoveBalance(loc, output, rune, q, outputs, amount, ev).Entries(), Receive, r, Owner(a))
         == if r == rune && Receiver(outputs, output) == Some(a) then Moved(q, amount) else 0
  {
    hide MoveBalance, Moved, RowSum, Senders, Line;
    var m := MoveBalance(loc, output, rune, q, outputs, amount, ev);
    MoveRows(loc, output, rune, q, outputs, amount, ev);
    MoveShape(loc, output, rune, q, outputs, amount, ev);
    RowSumAppend(m.received, m.sends, Receive, r, Owner(a));
    RowSumOther(m.sends, Receive, r, Owner(a));
    RowSumEmpty(Receive, r, Owner(a));
    if m.received != [] {
      OneReceive(m.received, r, a);
    }
  }

  lemma OneReceive(rows: seq<Entry>, r: RuneId, a: Address)
    requires |rows| == 1
    ensures RowSum(rows, Receive, r, Owner(a)) == RowWeight(Receive, r, Owner(a))(rows[0])
  {
    assert rows == [rows[0]];
    SumOne(rows[0], RowWeight(Receive, r, Owner(a)));
  }
}
