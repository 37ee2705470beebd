/** Who a ledger row names: for every row of every step, the output, the sender and the receiver in terms of the transaction's
    outputs (src/db/cache/utils.rs:104-271, src/db/cache/transaction_cache.rs:79-393). */
module RowLaws {
  import opened Basics
  import opened Ledger
  import opened Moves
  import opened MoveLaws
  import opened Artifacts
  import opened Edicts
  import opened EdictLaws
  import opened Transactions
  import opened TransactionLaws
  import opened Outputs
  import opened Machine
  import opened Conservation

  /** A row of a move to an output that has an address: that address receives, or an address sends to it. */
  predicate GoesTo(e: Entry, output: u32, address: Address) {
    && e.output == Some(output)
    && ((e.operation == Receive && e.address == Some(address) && e.receiver == None)
        || (e.operation == Send && e.address.Some? && e.receiver == Some(address)))
  }

  /** A row of a move that nobody receives. */
  predicate IsBurned(e: Entry) {
    e.operation == Burn && e.address.Some? && e.receiver == None
  }

  /** What a row of a move says: the address of the output receives, or else an address burns. */
  predicate MovesTo(e: Entry, output: Option<u32>, outputs: map<u32, Option<Address>>) {
    if output.Some? && output.value in outputs && outputs[output.value].Some?
    then GoesTo(e, output.value, outputs[output.value].value)
    else IsBurned(e) && e.output == output
  }

  /** Every row of a move is of the moved rune, and names the output of the move and the address there. A Receive row stands first,
      and there is one exactly when units arrive. */
  lemma MoveRowsTell(loc: Location, output: Option<u32>, rune: RuneId, q: seq<Balance>, outputs: map<u32, Option<Address>>,
                     amount: nat, ev: nat)
    ensures var rows := MoveBalance(loc, output, rune, q, outputs, amount, ev).Entries();
            && (forall e :: e in rows ==> e.rune == rune && MovesTo(e, output, outputs))
            && (forall i :: 0 < i < |rows| ==> rows[i].operation != Receive)
            && (rows != [] && rows[0].operation == Receive <==>
                  output.Some? && output.value in outputs && outputs[output.value].Some? && Moved(q, amount) > 0)
            && (rows != [] && rows[0].operation == Receive ==> rows[0].amount == Some(Moved(q, amount)))
  {
    hide Take, Owned, Total, Moved;
    var m := MoveBalance(loc, output, rune, q, outputs, amount, ev);
    var senders := Owned(Take(q, amount, 0).pieces);
    MoveRows(loc, output, rune, q, outputs, amount, ev);
    SendersTell(loc, output, rune, Receiver(outputs, output), senders, ev + |m.received|);
    assert m.sends == SenderRows(loc, output, rune, Receiver(outputs, output), senders, ev + |m.received|);
  }

  lemma SendersTell(loc: Location, output: Option<u32>, rune: RuneId, receiver: Option<Address>, senders: seq<Balance>, ev: nat)
    requires forall b :: b in senders ==> b.address.Some?
    ensures forall e :: e in SenderRows(loc, output, rune, receiver, senders, ev) ==>
              && e.rune == rune && e.output == output && e.address.Some? && e.receiver == receiver
              && e.operation == if receiver.Some? then Send else Burn
  {
    var rows := SenderRows(loc, output, rune, receiver, senders, ev);
    forall e | e in rows
      ensures e.rune == rune && e.output == output && e.address.Some? && e.receiver == receiver
      ensures e.operation == if receiver.Some? then Send else Burn
    {
      var i :| 0 <= i < |rows| && rows[i] == e;
      assert senders[i] in senders;
    }
  }

  /** One of several moves wrote the row. */
  ghost predicate OrderedBy(e: Entry, orders: seq<Order>, outputs: map<u32, Option<Address>>) {
    exists i :: 0 <= i < |orders| && MovesTo(e, orders[i].output, outputs)
  }

  lemma {:induction false} RunRowsTell(loc: Location, rune: RuneId, q: seq<Balance>, outputs: map<u32, Option<Address>>,
                                       orders: seq<Order>, ev: nat)
    ensures forall e :: e in RunOrders(loc, rune, q, outputs, orders, ev).entries ==>
              e.rune == rune && OrderedBy(e, orders, outputs)
    decreases |orders|
  {
    hide MoveBalance, MovesTo, Move.Entries;
    if orders != [] {
      var m := MoveBalance(loc, orders[0].output, rune, q, outputs, orders[0].amount, ev);
      var rest := RunOrders(loc, rune, m.rest, outputs, orders[1..], ev + |m.Entries()|);
      MoveRowsTell(loc, orders[0].output, rune, q, outputs, orders[0].amount, ev);
      RunRowsTell(loc, rune, m.rest, outputs, orders[1..], ev + |m.Entries()|);
      forall e | e in m.Entries() + rest.entries ensures e.rune == rune && OrderedBy(e, orders, outputs) {
        if e in m.Entries() {
          assert MovesTo(e, orders[0].output, outputs);
        } else {
          assert e in rest.entries;
          var i :| 0 <= i < |orders[1..]| && MovesTo(e, orders[1..][i].output, outputs);
          assert MovesTo(e, orders[i + 1].output, outputs);
        }
      }
    }
  }

  /** What a row of an edict says. An edict whose output is the output count goes to eligible outputs; an edict beyond it, or with
      no eligible output, burns; any other goes to its output. */
  predicate FollowsEdict(e: Entry, edict: Edict, outputs: map<u32, Option<Address>>, totalOutputs: u32) {
    if |outputs| == 0 || edict.output > totalOutputs then IsBurned(e) && e.output == None
    else if edict.output == totalOutputs then e.output.Some? && e.output.value in outputs && MovesTo(e, e.output, outputs)
    else MovesTo(e, Some(edict.output), outputs)
  }

  lemma {:induction false} SplitOutputs(keys: seq<u32>, share: nat, remainder: nat)
    ensures forall i :: 0 <= i < |keys| ==> SplitOrders(keys, share, remainder)[i].output == Some(keys[i])
    decreases |keys|
  {
    if keys != [] {
      SplitOutputs(keys[1..], share, if remainder > 0 then remainder - 1 else 0);
    }
  }

  lemma {:induction false} EqualOutputs(keys: seq<u32>, amount: nat)
    ensures forall i :: 0 <= i < |keys| ==> EqualOrders(keys, amount)[i].output == Some(keys[i])
  {
    if keys != [] {
      EqualOutputs(keys[1..], amount);
    }
  }

  lemma EdictOutputs(edict: Edict, unallocated: nat, outputs: map<u32, Option<Address>>, totalOutputs: u32)
    ensures var orders := EdictOrders(edict, unallocated, outputs, totalOutputs);
            forall i :: 0 <= i < |orders| ==>
              if |outputs| == 0 || edict.output > totalOutputs then orders[i].output == None
              else if edict.output == totalOutputs then orders[i].output.Some? && orders[i].output.value in outputs
              else orders[i].output == Some(edict.output)
  {
    hide SplitOrders, EqualOrders, SortedKeys;
    if |outputs| > 0 && edict.output == totalOutputs {
      var keys := SortedKeys(outputs.Keys);
      KeysAreOutputs(outputs);
      if edict.amount == 0 {
        SplitOutputs(keys, unallocated / |keys|, unallocated % |keys|);
      } else {
        EqualOutputs(keys, Min(edict.amount, unallocated));
      }
    }
  }

  lemma KeysAreOutputs(outputs: map<u32, Option<Address>>)
    ensures forall k :: k in SortedKeys(outputs.Keys) ==> k in outputs
  {
  }

  /** Every row of an edict is of the edict's rune (0:0 being the rune etched here) and goes where the edict says. */
  lemma EdictRowsTell(tx: Tx, edict: Edict)
    ensures forall e :: e in MoveEdict(tx, edict).entries ==>
              && (if edict.id == RuneId(0, 0) then tx.etching.Some? && e.rune == tx.etching.value.id else e.rune == edict.id)
              && FollowsEdict(e, edict, tx.outputs, tx.totalOutputs)
  {
    hide RunOrders, EdictOrders, MovesTo;
    var id := EdictRune(tx, edict);
    if id.Some? && id.value in tx.inputs {
      var q := tx.inputs[id.value];
      var orders := EdictOrders(edict, Total(q), tx.outputs, tx.totalOutputs);
      RunRowsTell(tx.loc, id.value, q, tx.outputs, orders, tx.nextEvent);
      EdictOutputs(edict, Total(q), tx.outputs, tx.totalOutputs);
      forall e | e in MoveEdict(tx, edict).entries ensures FollowsEdict(e, edict, tx.outputs, tx.totalOutputs) {
        var i :| 0 <= i < |orders| && MovesTo(e, orders[i].output, tx.outputs);
        MovesNames(e, orders[i].output, tx.outputs);
      }
    }
  }

  lemma MovesNames(e: Entry, output: Option<u32>, outputs: map<u32, Option<Address>>)
    requires MovesTo(e, output, outputs)
    ensures e.output == output && (output == None ==> IsBurned(e))
  {
  }

  /** The rows of the closing moves go to the pointer. */
  lemma {:induction false} ClosingRowsTell(tx: Tx, order: seq<RuneId>)
    ensures forall e :: e in AllocateAll(tx, order).0 ==> e.rune in order && MovesTo(e, tx.pointer, tx.outputs)
  {
    hide MoveBalance, Move.Entries, LostBy, MovesTo;
    if order != [] {
      var (rows, lost) := AllocateAll(tx, DropLast(order));
      var rune := Last(order);
      var q := Queue(tx.inputs, rune);
      ClosingRowsTell(tx, DropLast(order));
      MoveRowsTell(tx.loc, tx.pointer, rune, q, tx.outputs, 0, tx.nextEvent + |rows|);
    }
  }

  /** A cenotaph's Burn rows name no output and no receiver. */
  lemma {:induction false} BurnRowsTell(loc: Location, inputs: map<RuneId, seq<Balance>>, order: seq<RuneId>, ev: nat)
    ensures forall e :: e in BurnAll(loc, inputs, order, ev) ==> e.operation == Burn && e.output == None && e.receiver == None
  {
    if order != [] {
      BurnRowsTell(loc, inputs, DropLast(order), ev);
    }
  }

  /** What a row says, whatever step wrote it. */
  predicate Tells(tx: Tx, a: Action, e: Entry)
    requires !a.Begin?
  {
    && e.height == tx.loc.height && e.txIndex == tx.loc.txIndex && e.txId == tx.loc.txId
    && match a
       case DoEdict(edict) => FollowsEdict(e, edict, tx.outputs, tx.totalOutputs)
       case DoEnd(_) => MovesTo(e, tx.pointer, tx.outputs)
       case DoBurnInputs(_) => e.operation == Burn && e.output == None && e.receiver == None
       case DoMint(rune, _, dbRune) =>
         e.operation == Mint && e.rune == rune && e.amount == dbRune.termsAmount && e.amount.Some?
         && e.output == None && e.address == None && e.receiver == None
       case DoMintInCenotaph(rune, _, dbRune) =>
         e.operation == Burn && e.rune == rune && e.amount == dbRune.termsAmount && e.amount.Some?
         && e.output == None && e.address == None && e.receiver == None
       case DoEtch(_) =>
         e.operation == Operation.Etching && e.rune == RuneId(tx.loc.height, tx.loc.txIndex)
         && e.amount == None && e.output == None && e.address == None && e.receiver == None
       case DoEtchCenotaph(_) =>
         e.operation == Operation.Etching && e.rune == RuneId(tx.loc.height, tx.loc.txIndex)
         && e.amount == None && e.output == None && e.address == None && e.receiver == None
       case _ => false
  }

  /** Every row of every step tells what its step is about. */
  lemma StepRowsTell(tx: Tx, a: Action)
    requires !a.Begin?
    ensures forall e :: e in StepOf(tx, a).entries ==> Tells(tx, a, e)
  {
    hide RunOrders, EdictOrders, AllocateAll, BurnAll, MovesTo, FollowsEdict, IsRuneMintable;
    StepIsHere(tx, a);
    match a
    case DoEdict(edict) => EdictRowsTell(tx, edict);
    case DoEnd(order) => ClosingRowsTell(tx, order);
    case DoBurnInputs(order) => BurnRowsTell(tx.loc, tx.inputs, order, tx.nextEvent);
    case DoEtch(etching) => EtchedRune(etching, tx.loc);
    case DoMint(_, totalMints, dbRune) => MintablePays(dbRune, totalMints, tx.loc.height);
    case DoMintInCenotaph(_, totalMints, dbRune) => MintablePays(dbRune, totalMints, tx.loc.height);
    case _ =>
  }

  lemma MintablePays(dbRune: DbRune, totalMints: nat, h: u64)
    ensures IsRuneMintable(dbRune, totalMints, h) ==> dbRune.termsAmount.Some?
  {
  }

  lemma StepIsHere(tx: Tx, a: Action)
    requires !a.Begin?
    ensures forall e :: e in StepOf(tx, a).entries ==>
              e.height == tx.loc.height && e.txIndex == tx.loc.txIndex && e.txId == tx.loc.txId
  {
    hide StepOf;
    var rows := StepOf(tx, a).entries;
    StepRows(tx, a);
    forall e | e in rows ensures IsRow(e, tx.loc) {
      var i :| 0 <= i < |rows| && rows[i] == e;
    }
  }
}
