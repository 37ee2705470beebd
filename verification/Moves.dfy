/** One move of rune balance to an output (src/db/cache/utils.rs:146-271). */
module Moves {
  import opened Basics
  import opened Ledger

  datatype Taken = Taken(pieces: seq<Balance>, rest: seq<Balance>)

  /** What the loop takes off the front of the queue once `sent` units have been taken.
      An amount of zero means "everything". */
  function Take(q: seq<Balance>, amount: nat, sent: nat): Taken
    requires amount == 0 || sent < amount
  {
    if q == [] then
      Taken([], [])
    else
      var head := q[0];
      var taken := if amount == 0 then head.amount else Min(head.amount, amount - sent);
      if taken < head.amount then
        Taken([Balance(head.address, taken)], [Balance(head.address, head.amount - taken)] + q[1..])
      else if sent + taken == amount then
        Taken([head], q[1..])
      else
        var t := Take(q[1..], amount, sent + taken);
        Taken([head] + t.pieces, t.rest)
  }

  /** A zero piece in front makes "everything" mean nothing: the running total already equals the amount, 0. */
  predicate Stalls(q: seq<Balance>) {
    q != [] && q[0].amount == 0 && Total(q) > 0
  }

  /** The number of units one move takes. */
  function Moved(q: seq<Balance>, amount: nat): nat {
    if amount > 0 then Min(amount, Total(q)) else if Stalls(q) then 0 else Total(q)
  }

  function Receiver(outputs: map<u32, Option<Address>>, output: Option<u32>): Option<Address> {
    if output.Some? && output.value in outputs then outputs[output.value] else None
  }

  /** The pieces that have an owner, in order. */
  function Owned(pieces: seq<Balance>): (senders: seq<Balance>)
    ensures forall b :: b in senders ==> b.address.Some?
  {
    if pieces == [] then [] else Owned(DropLast(pieces)) + if Last(pieces).address.Some? then [Last(pieces)] else []
  }

  function SenderRow(loc: Location, output: Option<u32>, rune: RuneId, receiver: Option<Address>, sender: Balance, ev: nat): Entry {
    NewEntry(loc, Some(sender.amount), rune, output, sender.address, receiver, if receiver.Some? then Send else Burn, ev)
  }

  /** One row for each sender. */
  function SenderRows(loc: Location, output: Option<u32>, rune: RuneId, receiver: Option<Address>,
                      senders: seq<Balance>, ev: nat): (rows: seq<Entry>)
    ensures |rows| == |senders|
  {
    seq(|senders|, i requires 0 <= i < |senders| => SenderRow(loc, output, rune, receiver, senders[i], ev + i))
  }

  function ReceiveRows(loc: Location, output: Option<u32>, rune: RuneId, receiver: Option<Address>,
                       sent: nat, ev: nat): seq<Entry> {
    if receiver.Some? && sent > 0 then
      [NewEntry(loc, Some(sent), rune, output, receiver, None, Receive, ev)]
    else
      []
  }

  /** The queue left, the Receive row (if any), the Send or Burn rows, and the ownerless units burned without a row. */
  datatype Move = Move(rest: seq<Balance>, received: seq<Entry>, sends: seq<Entry>, unrecorded: nat) {
    function Entries(): seq<Entry> { received + sends }
  }

  function MoveBalance(loc: Location, output: Option<u32>, rune: RuneId, q: seq<Balance>,
                       outputs: map<u32, Option<Address>>, amount: nat, ev: nat): Move {
    var t := Take(q, amount, 0);
    var receiver := Receiver(outputs, output);
    var received := ReceiveRows(loc, output, rune, receiver, Total(t.pieces), ev);
    Move(t.rest,
         received,
         SenderRows(loc, output, rune, receiver, Owned(t.pieces), ev + |received|),
         if receiver.Some? then 0 else Held(t.pieces, Nobody))
  }

  /** The first loop of the source: pop pieces until the amount is reached or nothing is left. */
  method TakeBalances(balances: seq<Balance>, amount: nat)
    returns (rest: seq<Balance>, sent: nat, senders: seq<Balance>)
    ensures var t := Take(balances, amount, 0);
            rest == t.rest && sent == Total(t.pieces) && senders == Owned(t.pieces)
  {
    hide Take, Owned, Total, Prepend;
    rest, sent, senders := balances, 0, [];
    ghost var goal := Take(balances, amount, 0);
    ghost var pieces: seq<Balance> := [];
    var moving := true;
    TakeNothingYet(goal);
    while moving && rest != []
      invariant moving ==> (amount == 0 || sent < amount) && goal == Prepend(pieces, Take(rest, amount, sent))
      invariant !moving ==> goal == Taken(pieces, rest)
      invariant sent == Total(pieces) && senders == Owned(pieces)
      decreases moving, |rest|
    {
      TakeStep(pieces, rest, amount, sent);
      var bal := rest[0];
      rest := rest[1..];
      var taken := if amount == 0 then bal.amount else Min(bal.amount, amount - sent);
      OnePiece(pieces, Balance(bal.address, taken));
      pieces := pieces + [Balance(bal.address, taken)];
      sent := sent + taken;
      if bal.address.Some? {
        senders := senders + [Balance(bal.address, taken)];
      }
      if taken < bal.amount {
        rest := [Balance(bal.address, bal.amount - taken)] + rest;
        moving := false;
      } else if sent == amount {
        moving := false;
      }
    }
    if moving {
      TakeNone(pieces, amount, sent);
    }
  }

  lemma TakeNothingYet(t: Taken)
    ensures Prepend([], t) == t && Owned([]) == [] && Total([]) == 0
  {
  }

  lemma TakeNone(pieces: seq<Balance>, amount: nat, sent: nat)
    requires amount == 0 || sent < amount
    ensures Prepend(pieces, Take([], amount, sent)) == Taken(pieces, [])
  {
    assert pieces + [] == pieces;
  }

  lemma OnePiece(pieces: seq<Balance>, piece: Balance)
    ensures Total(pieces + [piece]) == Total(pieces) + piece.amount
    ensures Owned(pieces + [piece]) == Owned(pieces) + if piece.address.Some? then [piece] else []
  {
    SumSnoc(pieces, piece, HeldBy(Anyone));
    assert DropLast(pieces + [piece]) == pieces;
  }

  function Prepend(pieces: seq<Balance>, t: Taken): Taken {
    Taken(pieces + t.pieces, t.rest)
  }

  /** Unfolds `Take` once behind the pieces already taken. */
  lemma TakeStep(pieces: seq<Balance>, rest: seq<Balance>, amount: nat, sent: nat)
    requires rest != [] && (amount == 0 || sent < amount)
    ensures var taken := if amount == 0 then rest[0].amount else Min(rest[0].amount, amount - sent);
            var pieces' := pieces + [Balance(rest[0].address, taken)];
            Prepend(pieces, Take(rest, amount, sent)) ==
            if taken < rest[0].amount then
              Taken(pieces', [Balance(rest[0].address, rest[0].amount - taken)] + rest[1..])
            else if sent + taken == amount then
              Taken(pieces', rest[1..])
            else
              Prepend(pieces', Take(rest[1..], amount, sent + taken))
  {
    var taken := if amount == 0 then rest[0].amount else Min(rest[0].amount, amount - sent);
    if taken == rest[0].amount && sent + taken != amount {
      var t := Take(rest[1..], amount, sent + taken);
      assert pieces + ([rest[0]] + t.pieces) == (pieces + [rest[0]]) + t.pieces;
    }
  }

  /** A move as the source runs it, against `MoveBalance`. */
  method MoveRuneBalanceToOutput(loc: Location, output: Option<u32>, rune: RuneId, balances: seq<Balance>,
                                 outputs: map<u32, Option<Address>>, amount: nat, nextEvent: nat)
    returns (rest: seq<Balance>, results: seq<Entry>, nextEvent': nat)
    ensures var m := MoveBalance(loc, output, rune, balances, outputs, amount, nextEvent);
            rest == m.rest && results == m.Entries()
    ensures nextEvent' == nextEvent + |results|
  {
    hide Take, Owned, Total, Held;
    var receiver := None;
    if output.Some? {
      if output.value in outputs {
        receiver := outputs[output.value];
      }
    }
    var operation := if receiver.Some? then Send else Burn;
    var sent, senders;
    rest, sent, senders := TakeBalances(balances, amount);
    results := [];
    nextEvent' := nextEvent;
    if receiver.Some? && sent > 0 {
      results := [NewEntry(loc, Some(sent), rune, output, receiver, None, Receive, nextEvent')];
      nextEvent' := nextEvent' + 1;
    }
    var sends := [];
    for i := 0 to |senders|
      invariant nextEvent' == nextEvent + |results| + i
      invariant |sends| == i
      invariant forall k :: 0 <= k < i ==>
        sends[k] == SenderRow(loc, output, rune, receiver, senders[k], nextEvent + |results| + k)
    {
      sends := sends + [NewEntry(loc, Some(senders[i].amount), rune, output, senders[i].address, receiver, operation, nextEvent')];
      nextEvent' := nextEvent' + 1;
    }
    results := results + sends;
  }
}
