/** The transaction cache of src/db/cache/transaction_cache.rs, updated in place, against the steps of `Transactions`. */
module TransactionCaches {
  import opened Basics
  import opened Ledger
  import opened Artifacts
  import opened Moves
  import opened Edicts
  import opened Transactions

  /** `orders` after the moves done so far have written `done`, left `q` and used the event numbers below `ev`. */
  ghost predicate Remaining(goal: Run, done: seq<Entry>, loc: Location, rune: RuneId, q: seq<Balance>,
                            outputs: map<u32, Option<Address>>, orders: seq<Order>, ev: nat) {
    var r := RunOrders(loc, rune, q, outputs, orders, ev);
    goal.rest == r.rest && goal.entries == done + r.entries
  }

  lemma RemainingStep(goal: Run, done: seq<Entry>, loc: Location, rune: RuneId, q: seq<Balance>,
                      outputs: map<u32, Option<Address>>, orders: seq<Order>, ev: nat)
    requires orders != [] && Remaining(goal, done, loc, rune, q, outputs, orders, ev)
    ensures var m := MoveBalance(loc, orders[0].output, rune, q, outputs, orders[0].amount, ev);
            Remaining(goal, done + m.Entries(), loc, rune, m.rest, outputs, orders[1..], ev + |m.Entries()|)
  {
    hide MoveBalance, Move.Entries;
    var m := MoveBalance(loc, orders[0].output, rune, q, outputs, orders[0].amount, ev);
    var r := RunOrders(loc, rune, m.rest, outputs, orders[1..], ev + |m.Entries()|);
    assert done + (m.Entries() + r.entries) == done + m.Entries() + r.entries;
  }

  lemma RemainingStart(goal: Run, loc: Location, rune: RuneId, q: seq<Balance>, outputs: map<u32, Option<Address>>,
                       orders: seq<Order>, ev: nat)
    requires goal == RunOrders(loc, rune, q, outputs, orders, ev)
    ensures Remaining(goal, [], loc, rune, q, outputs, orders, ev)
  {
    assert [] + goal.entries == goal.entries;
  }

  lemma RemainingEnd(goal: Run, done: seq<Entry>, loc: Location, rune: RuneId, q: seq<Balance>,
                     outputs: map<u32, Option<Address>>, ev: nat)
    requires Remaining(goal, done, loc, rune, q, outputs, [], ev)
    ensures goal.rest == q && goal.entries == done
  {
  }

  /** The runes visited so far: those that are not left in `keys`, each once. */
  ghost predicate Visited(order: seq<RuneId>, all: set<RuneId>, keys: set<RuneId>) {
    && keys <= all
    && (forall r :: r in order <==> r in all && r !in keys)
    && (forall i, j :: 0 <= i < j < |order| ==> order[i] != order[j])
  }

  lemma VisitNone(all: set<RuneId>)
    ensures Visited([], all, all)
  {
  }

  lemma VisitOne(order: seq<RuneId>, all: set<RuneId>, keys: set<RuneId>, rune: RuneId)
    requires Visited(order, all, keys) && rune in keys
    ensures Visited(order + [rune], all, keys - {rune})
    ensures DropLast(order + [rune]) == order
  {
  }

  lemma VisitAll(order: seq<RuneId>, inputs: map<RuneId, seq<Balance>>)
    requires Visited(order, inputs.Keys, {})
    ensures Enumerates(order, inputs)
  {
  }

  class TransactionCache {
    const loc: Location
    var nextEventIndex: nat
    var etching: Option<DbRune>
    var outputPointer: Option<u32>
    var inputRunes: map<RuneId, seq<Balance>>
    const eligibleOutputs: map<u32, Option<Address>>
    const totalOutputs: u32

    function View(): Tx
      reads this
    {
      Tx(loc, nextEventIndex, etching, outputPointer, inputRunes, eligibleOutputs, totalOutputs)
    }

    constructor (loc: Location, inputRunes: map<RuneId, seq<Balance>>, eligibleOutputs: map<u32, Option<Address>>,
                 firstEligibleOutput: Option<u32>, totalOutputs: u32)
      ensures View() == NewTx(loc, inputRunes, eligibleOutputs, firstEligibleOutput, totalOutputs)
    {
      this.loc := loc;
      this.nextEventIndex := 0;
      this.etching := None;
      this.outputPointer := firstEligibleOutput;
      this.inputRunes := inputRunes;
      this.eligibleOutputs := eligibleOutputs;
      this.totalOutputs := totalOutputs;
    }

    /** Burns the input balances, in the iteration order the map happens to have. */
    method ApplyCenotaphInputBurn() returns (results: seq<Entry>, ghost order: seq<RuneId>)
      modifies this
      ensures Enumerates(order, old(inputRunes))
      ensures var s := BurnInputs(old(View()), order); View() == s.tx && results == s.entries
    {
      hide BurnRows, Visited, Enumerates;
      results, order := [], [];
      var keys := inputRunes.Keys;
      VisitNone(keys);
      while keys != {}
        invariant inputRunes == old(inputRunes) && Visited(order, inputRunes.Keys, keys) && keys <= inputRunes.Keys
        invariant results == BurnAll(loc, inputRunes, order, old(nextEventIndex))
        invariant nextEventIndex == old(nextEventIndex) + |results|
        invariant etching == old(etching) && outputPointer == old(outputPointer)
      {
        var rune :| rune in keys;
        VisitOne(order, inputRunes.Keys, keys, rune);
        keys := keys - {rune};
        var rows := BurnQueue(rune, inputRunes[rune]);
        results := results + rows;
        order := order + [rune];
      }
      VisitAll(order, inputRunes);
      inputRunes := map[];
    }

    method BurnQueue(rune: RuneId, unallocated: seq<Balance>) returns (rows: seq<Entry>)
      modifies this`nextEventIndex
      ensures rows == BurnRows(loc, rune, unallocated, old(nextEventIndex))
      ensures nextEventIndex == old(nextEventIndex) + |rows|
    {
      rows := [];
      for i := 0 to |unallocated|
        invariant rows == BurnRows(loc, rune, unallocated[..i], old(nextEventIndex))
        invariant nextEventIndex == old(nextEventIndex) + |rows|
      {
        rows := rows + [NewEntry(loc, Some(unallocated[i].amount), rune, None, unallocated[i].address, None, Burn, nextEventIndex)];
        nextEventIndex := nextEventIndex + 1;
      }
      assert unallocated[..|unallocated|] == unallocated;
    }

    /** One move out of a rune's queue. */
    method MoveFrom(rune: RuneId, output: Option<u32>, amount: nat) returns (rows: seq<Entry>)
      requires rune in inputRunes
      modifies this`nextEventIndex, this`inputRunes
      ensures var m := MoveBalance(loc, output, rune, old(inputRunes[rune]), eligibleOutputs, amount, old(nextEventIndex));
              rows == m.Entries() && inputRunes == old(inputRunes)[rune := m.rest]
      ensures nextEventIndex == old(nextEventIndex) + |rows|
    {
      hide MoveBalance, Move.Entries;
      var rest, next;
      rest, rows, next := MoveRuneBalanceToOutput(loc, output, rune, inputRunes[rune], eligibleOutputs, amount, nextEventIndex);
      inputRunes := inputRunes[rune := rest];
      nextEventIndex := next;
    }

    /** Moves what is left of every rune to the pointer, then clears the map. */
    method AllocateRemainingBalances() returns (results: seq<Entry>, ghost order: seq<RuneId>)
      modifies this
      ensures Enumerates(order, old(inputRunes))
      ensures var s := AllocateRemaining(old(View()), order); View() == s.tx && results == s.entries
    {
      hide MoveBalance, Move.Entries, LostBy, Visited, Enumerates;
      results, order := [], [];
      ghost var all := inputRunes.Keys;
      ghost var start := View();
      var keys := inputRunes.Keys;
      VisitNone(keys);
      while keys != {}
        invariant keys <= inputRunes.Keys && Visited(order, all, keys)
        invariant forall r :: r in keys ==> inputRunes[r] == Queue(start.inputs, r)
        invariant results == AllocateAll(start, order).0
        invariant nextEventIndex == start.nextEvent + |results|
        invariant etching == start.etching && outputPointer == start.pointer
      {
        var rune :| rune in keys;
        VisitOne(order, all, keys, rune);
        keys := keys - {rune};
        var rows := MoveFrom(rune, outputPointer, 0);
        results := results + rows;
        order := order + [rune];
      }
      VisitAll(order, start.inputs);
      inputRunes := map[];
    }

    method AddInputRunes(rune: RuneId, entry: Balance)
      modifies this`inputRunes
      ensures inputRunes == AddInput(old(inputRunes), rune, entry)
    {
      if rune in inputRunes {
        inputRunes := inputRunes[rune := inputRunes[rune] + [entry]];
      } else {
        inputRunes := inputRunes[rune := [entry]];
        assert [] + [entry] == [entry];
      }
    }

    method ApplyEtching(etching: Etching) returns (dbRune: DbRune, entry: Entry)
      modifies this
      ensures dbRune == FromEtching(etching, loc)
      ensures var s := Etch(old(View()), etching); View() == s.tx && [entry] == s.entries
    {
      dbRune := FromEtching(etching, loc);
      this.etching := Some(dbRune);
      if etching.premine.Some? {
        AddInputRunes(loc.Id(), Balance(None, etching.premine.value));
      }
      entry := NewEntry(loc, None, loc.Id(), None, None, None, Operation.Etching, nextEventIndex);
      nextEventIndex := nextEventIndex + 1;
    }

    method ApplyCenotaphEtching(name: u128) returns (dbRune: DbRune, entry: Entry)
      modifies this
      ensures dbRune == FromCenotaphEtching(name, loc)
      ensures var s := EtchCenotaph(old(View()), name); View() == s.tx && [entry] == s.entries
    {
      dbRune := FromCenotaphEtching(name, loc);
      etching := Some(dbRune);
      entry := NewEntry(loc, None, loc.Id(), None, None, None, Operation.Etching, nextEventIndex);
      nextEventIndex := nextEventIndex + 1;
    }

    method ApplyMint(rune: RuneId, totalMints: nat, dbRune: DbRune) returns (entry: Option<Entry>)
      modifies this
      ensures var s := MintRune(old(View()), rune, totalMints, dbRune);
              View() == s.tx && s.entries == if entry.Some? then [entry.value] else []
      ensures entry.Some? <==> IsRuneMintable(dbRune, totalMints, loc.height)
    {
      if !IsRuneMintable(dbRune, totalMints, loc.height) {
        return None;
      }
      var amount := dbRune.termsAmount.value;
      AddInputRunes(rune, Balance(None, amount));
      entry := Some(NewEntry(loc, Some(amount), rune, None, None, None, Mint, nextEventIndex));
      nextEventIndex := nextEventIndex + 1;
    }

    method ApplyCenotaphMint(rune: RuneId, totalMints: nat, dbRune: DbRune) returns (entry: Option<Entry>)
      modifies this
      ensures var s := MintInCenotaph(old(View()), rune, totalMints, dbRune);
              View() == s.tx && s.entries == if entry.Some? then [entry.value] else []
      ensures entry.Some? <==> IsRuneMintable(dbRune, totalMints, loc.height)
    {
      if !IsRuneMintable(dbRune, totalMints, loc.height) {
        return None;
      }
      entry := Some(NewEntry(loc, Some(dbRune.termsAmount.value), rune, None, None, None, Burn, nextEventIndex));
      nextEventIndex := nextEventIndex + 1;
    }

    method ApplyEdict(edict: Edict) returns (results: seq<Entry>)
      modifies this
      ensures var s := MoveEdict(old(View()), edict); View() == s.tx && results == s.entries
    {
      hide RunOrders, EdictOrders, Total;
      var rune := edict.id;
      if edict.id == SELF_ID {
        if etching.None? {
          return [];
        }
        rune := etching.value.id;
      }
      if rune !in inputRunes {
        return [];
      }
      results := MoveAvailable(edict, rune);
    }

    /** The movements of an edict for a rune that has a queue. */
    method MoveAvailable(edict: Edict, rune: RuneId) returns (results: seq<Entry>)
      requires rune in inputRunes
      modifies this`nextEventIndex, this`inputRunes
      ensures var q := old(inputRunes[rune]);
              var orders := EdictOrders(edict, Total(q), eligibleOutputs, totalOutputs);
              var r := RunOrders(loc, rune, q, eligibleOutputs, orders, old(nextEventIndex));
              results == r.entries && inputRunes == old(inputRunes)[rune := r.rest]
      ensures nextEventIndex == old(nextEventIndex) + |results|
    {
      hide RunOrders, EdictOrders, SplitOrders, EqualOrders, MoveBalance, Move.Entries, Total, SortedKeys;
      var unallocated := Total(inputRunes[rune]);
      if |eligibleOutputs| == 0 {
        BurningOrders(edict, unallocated, eligibleOutputs, totalOutputs);
        results := MoveOnce(rune, Order(None, edict.amount));
      } else if edict.output == totalOutputs {
        SplittingOrders(edict, unallocated, eligibleOutputs, totalOutputs);
        var keys := SortedKeys(eligibleOutputs.Keys);
        if edict.amount == 0 {
          results := MoveSplit(rune, keys, unallocated / |eligibleOutputs|, unallocated % |eligibleOutputs|);
        } else {
          results := MoveEqual(rune, keys, Min(edict.amount, unallocated));
        }
      } else if edict.output < totalOutputs {
        var amount := edict.amount;
        if edict.amount == 0 {
          amount := unallocated;
        }
        SendingOrders(edict, unallocated, eligibleOutputs, totalOutputs);
        results := MoveOnce(rune, Order(Some(edict.output), amount));
      } else {
        BurningOrders(edict, unallocated, eligibleOutputs, totalOutputs);
        results := MoveOnce(rune, Order(None, edict.amount));
      }
    }

    method MoveOnce(rune: RuneId, order: Order) returns (results: seq<Entry>)
      requires rune in inputRunes
      modifies this`nextEventIndex, this`inputRunes
      ensures var r := RunOrders(loc, rune, old(inputRunes[rune]), eligibleOutputs, [order], old(nextEventIndex));
              results == r.entries && inputRunes == old(inputRunes)[rune := r.rest]
      ensures nextEventIndex == old(nextEventIndex) + |results|
    {
      hide RunOrders, MoveBalance, Move.Entries;
      ghost var q := inputRunes[rune];
      ghost var goal := RunOrders(loc, rune, q, eligibleOutputs, [order], nextEventIndex);
      RemainingStart(goal, loc, rune, q, eligibleOutputs, [order], nextEventIndex);
      RemainingStep(goal, [], loc, rune, q, eligibleOutputs, [order], nextEventIndex);
      results := MoveFrom(rune, order.output, order.amount);
      assert [] + results == results && [order][1..] == [];
      RemainingEnd(goal, results, loc, rune, inputRunes[rune], eligibleOutputs, nextEventIndex);
    }

    /** The even split, with the source's `remainder` counting down. */
    method MoveSplit(rune: RuneId, keys: seq<u32>, perOutput: nat, rem: nat) returns (results: seq<Entry>)
      requires rune in inputRunes
      modifies this`nextEventIndex, this`inputRunes
      ensures var r := RunOrders(loc, rune, old(inputRunes[rune]), eligibleOutputs, SplitOrders(keys, perOutput, rem), old(nextEventIndex));
              results == r.entries && inputRunes == old(inputRunes)[rune := r.rest]
      ensures nextEventIndex == old(nextEventIndex) + |results|
    {
      hide RunOrders, MoveBalance, Move.Entries, Remaining, SplitOrders;
      results := [];
      var remainder := rem;
      ghost var goal := RunOrders(loc, rune, inputRunes[rune], eligibleOutputs, SplitOrders(keys, perOutput, rem), nextEventIndex);
      RemainingStart(goal, loc, rune, inputRunes[rune], eligibleOutputs, SplitOrders(keys, perOutput, rem), nextEventIndex);
      assert keys[0..] == keys;
      for i := 0 to |keys|
        invariant rune in inputRunes && inputRunes == old(inputRunes)[rune := inputRunes[rune]]
        invariant nextEventIndex == old(nextEventIndex) + |results|
        invariant Remaining(goal, results, loc, rune, inputRunes[rune], eligibleOutputs,
                            SplitOrders(keys[i..], perOutput, remainder), nextEventIndex)
      {
        var extra := 0;
        ghost var orders := SplitOrders(keys[i..], perOutput, remainder);
        SplitOrdersStep(keys[i..], perOutput, remainder);
        assert keys[i..][1..] == keys[i + 1..];
        if remainder > 0 {
          extra := 1;
          remainder := remainder - 1;
        }
        RemainingStep(goal, results, loc, rune, inputRunes[rune], eligibleOutputs, orders, nextEventIndex);
        var rows := MoveFrom(rune, Some(keys[i]), perOutput + extra);
        results := results + rows;
      }
      SplitOrdersEnd(perOutput, remainder);
      assert keys[|keys|..] == [];
      assert SplitOrders(keys[|keys|..], perOutput, remainder) == [];
      RemainingEnd(goal, results, loc, rune, inputRunes[rune], eligibleOutputs, nextEventIndex);
    }

    method MoveEqual(rune: RuneId, keys: seq<u32>, amount: nat) returns (results: seq<Entry>)
      requires rune in inputRunes
      modifies this`nextEventIndex, this`inputRunes
      ensures var r := RunOrders(loc, rune, old(inputRunes[rune]), eligibleOutputs, EqualOrders(keys, amount), old(nextEventIndex));
              results == r.entries && inputRunes == old(inputRunes)[rune := r.rest]
      ensures nextEventIndex == old(nextEventIndex) + |results|
    {
      hide RunOrders, MoveBalance, Move.Entries, Remaining, EqualOrders;
      results := [];
      ghost var goal := RunOrders(loc, rune, inputRunes[rune], eligibleOutputs, EqualOrders(keys, amount), nextEventIndex);
      RemainingStart(goal, loc, rune, inputRunes[rune], eligibleOutputs, EqualOrders(keys, amount), nextEventIndex);
      assert keys[0..] == keys;
      for i := 0 to |keys|
        invariant rune in inputRunes && inputRunes == old(inputRunes)[rune := inputRunes[rune]]
        invariant nextEventIndex == old(nextEventIndex) + |results|
        invariant Remaining(goal, results, loc, rune, inputRunes[rune], eligibleOutputs, EqualOrders(keys[i..], amount), nextEventIndex)
      {
        ghost var orders := EqualOrders(keys[i..], amount);
        EqualOrdersStep(keys[i..], amount);
        assert keys[i..][1..] == keys[i + 1..];
        RemainingStep(goal, results, loc, rune, inputRunes[rune], eligibleOutputs, orders, nextEventIndex);
        var rows := MoveFrom(rune, Some(keys[i]), amount);
        results := results + rows;
      }
      SplitOrdersEnd(amount, 0);
      assert keys[|keys|..] == [];
      RemainingEnd(goal, results, loc, rune, inputRunes[rune], eligibleOutputs, nextEventIndex);
    }
  }
}
