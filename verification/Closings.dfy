/** The end of a transaction, in terms of the transaction (src/db/cache/transaction_cache.rs:99-129,
    src/db/cache/index_cache.rs:83-145): where the pointer stands when the closing moves come, and what they do with each owner's
    units. */
module Closings {
  import opened Basics
  import opened Ledger
  import opened Moves
  import opened MoveLaws
  import opened Artifacts
  import opened Edicts
  import opened Transactions
  import opened TransactionLaws
  import opened Outputs
  import opened Machine
  import opened TxRuns
  import opened Owners
  import opened Conservation
  import opened LedgerLaws
  import opened Drops
  import opened RowLaws

  // ----- What stays the same inside a transaction -----

  /** Everything up to the end. */
  function Opening(r: TxRun): seq<Action> {
    [r.begin] + r.head + r.etch + r.mint + r.edicts
  }

  /** The place, the outputs and the pointer. */
  ghost predicate SameOutputs(s: Tx, t: Tx) {
    && t.loc == s.loc && t.outputs == s.outputs && t.totalOutputs == s.totalOutputs && t.pointer == s.pointer
  }

  lemma StepKeepsOutputs(tx: Tx, a: Action)
    requires !a.Begin? && !a.SetPointer?
    ensures SameOutputs(tx, StepOf(tx, a).tx)
  {
    hide RunOrders, EdictOrders, AllocateAll, BurnAll, IsRuneMintable, FromEtching;
  }

  lemma {:induction false} RunKeepsOutputs(s: State, actions: seq<Action>)
    requires forall a :: a in actions ==> !a.Begin? && !a.SetPointer?
    ensures SameOutputs(s.tx, RunFrom(s, actions).tx)
  {
    hide StepOf;
    if actions != [] {
      assert Last(actions) in actions;
      RunKeepsOutputs(s, DropLast(actions));
      StepKeepsOutputs(RunFrom(s, DropLast(actions)).tx, Last(actions));
    }
  }

  /** When the closing moves come, the pointer stands where the transaction set it, or else on its first eligible output. */
  lemma PointerStands(s: State, r: TxRun)
    requires Shaped(r)
    ensures var t := RunFrom(s, Opening(r)).tx;
            && t.loc == r.begin.loc && t.outputs == r.begin.outputs && t.totalOutputs == r.begin.totalOutputs
            && t.pointer == if r.head != [] && r.head[0].SetPointer? then Some(r.head[0].pointer) else r.begin.first
  {
    hide StepOf, RunFrom, Apply, Legal, Enabled;
    var rest := r.etch + r.mint + r.edicts;
    assert Opening(r) == [r.begin] + (r.head + rest);
    RunAppend(s, [r.begin], r.head + rest);
    RunOne(s, r.begin);
    var begun := Apply(s, r.begin);
    Begun(s, r.begin);
    RunAppend(begun, r.head, rest);
    HeadPointer(begun, r.head);
    RunKeepsOutputs(RunFrom(begun, r.head), rest);
  }

  lemma Begun(s: State, begin: Action)
    requires begin.Begin?
    ensures var t := Apply(s, begin).tx;
            && t.loc == begin.loc && t.outputs == begin.outputs && t.totalOutputs == begin.totalOutputs
            && t.pointer == begin.first && t.etching == None
  {
    hide Gather;
  }

  lemma HeadPointer(s: State, head: seq<Action>)
    requires head == [] || (|head| == 1 && (head[0].SetPointer? || head[0].DoBurnInputs?))
    ensures var t := RunFrom(s, head).tx;
            && t.loc == s.tx.loc && t.outputs == s.tx.outputs && t.totalOutputs == s.tx.totalOutputs
            && t.pointer == if head != [] && head[0].SetPointer? then Some(head[0].pointer) else s.tx.pointer
  {
    if head != [] {
      assert head == [head[0]];
      RunOne(s, head[0]);
    }
  }

  // ----- A cenotaph leaves nothing to allocate -----

  lemma {:induction false} NothingQueued(s: State, actions: seq<Action>)
    requires s.tx.inputs == map[]
    requires forall a :: a in actions ==> a.DoEtchCenotaph? || a.DoMintInCenotaph? || a.SkipMint?
    ensures RunFrom(s, actions).tx.inputs == map[]
  {
    if actions != [] {
      assert Last(actions) in actions;
      NothingQueued(s, DropLast(actions));
    }
  }

  lemma CenotaphIsEmptied(s: State, r: TxRun)
    requires r.begin.Begin? && |r.head| == 1 && r.head[0].DoBurnInputs? && r.edicts == []
    requires forall a :: a in r.etch + r.mint ==> a.DoEtchCenotaph? || a.DoMintInCenotaph? || a.SkipMint?
    ensures RunFrom(s, Opening(r)).tx.inputs == map[]
  {
    hide StepOf, BurnAll;
    assert Opening(r) == ([r.begin] + [r.head[0]]) + (r.etch + r.mint);
    RunAppend(s, [r.begin] + [r.head[0]], r.etch + r.mint);
    RunAppend(s, [r.begin], [r.head[0]]);
    RunOne(s, r.begin);
    RunOne(Apply(s, r.begin), r.head[0]);
    BurnEmpties(Apply(s, r.begin), r.head[0]);
    NothingQueued(RunFrom(s, [r.begin] + [r.head[0]]), r.etch + r.mint);
  }

  lemma BurnEmpties(s: State, a: Action)
    requires a.DoBurnInputs?
    ensures Apply(s, a).tx.inputs == map[]
  {
  }

  lemma NothingAllocated(tx: Tx, order: seq<RuneId>)
    requires tx.inputs == map[] && Enumerates(order, tx.inputs)
    ensures AllocateAll(tx, order).0 == []
  {
    EmptyOrNot(order);
  }

  lemma EmptyOrNot<T>(s: seq<T>)
    ensures s == [] || exists x :: x in s
  {
    if s != [] {
      assert s[0] in s;
    }
  }

  // ----- What the closing moves do with each owner's units -----

  /** Rows that close a transaction, when the pointer pays this address (or nobody): everything goes there, or every owner burns
      what it had. */
  ghost predicate Closes(tx: Tx, rows: seq<Entry>, payee: Option<Address>) {
    forall rune, a :: ClosesFor(Queue(tx.inputs, rune), rows, payee, rune, a)
  }

  ghost predicate ClosesFor(q: seq<Balance>, rows: seq<Entry>, payee: Option<Address>, rune: RuneId, a: Address) {
    && RowSum(rows, Receive, rune, Owner(a)) == (if payee == Some(a) && !Stalls(q) then Total(q) else 0)
    && RowSum(rows, Send, rune, Owner(a)) == (if payee.Some? then Held(q, Owner(a)) else 0)
    && RowSum(rows, Burn, rune, Owner(a)) == (if payee.Some? then 0 else Held(q, Owner(a)))
  }

  lemma NoneOf(rows: seq<Entry>, op: Operation, rune: RuneId, who: Who)
    requires forall e :: e in rows ==> e.operation != op
    ensures RowSum(rows, op, rune, who) == 0
  {
    RowSumOther(rows, op, rune, who);
  }

  lemma EndCloses(tx: Tx, order: seq<RuneId>)
    requires Enumerates(order, tx.inputs) && QueuesOwned(tx)
    ensures Closes(tx, AllocateRemaining(tx, order).entries, Receiver(tx.outputs, tx.pointer))
  {
    hide AllocateAll, Held, RowSum, Stalls, QueuesOwned, Enumerates;
    var rows, payee := AllocateRemaining(tx, order).entries, Receiver(tx.outputs, tx.pointer);
    ClosingRowsTell(tx, order);
    forall rune, a ensures ClosesFor(Queue(tx.inputs, rune), rows, payee, rune, a) {
      EndReceives(tx, order, rune, a);
      EndOwner(tx, order, rune, a);
      if payee.Some? {
        NoneOf(rows, Burn, rune, Owner(a));
      } else {
        NoneOf(rows, Send, rune, Owner(a));
      }
    }
  }

  lemma EndOwner(tx: Tx, order: seq<RuneId>, rune: RuneId, a: Address)
    requires Enumerates(order, tx.inputs) && QueuesOwned(tx)
    ensures var rows := AllocateRemaining(tx, order).entries;
            RowSum(rows, Send, rune, Owner(a)) + RowSum(rows, Burn, rune, Owner(a)) == Held(Queue(tx.inputs, rune), Owner(a))
  {
    hide AllocateAll, RowSum, QueuesOwned, Enumerates, LossSum, Held;
    AllocateRemainingBalanced(tx, order, rune);
    StepKeepsOwners(tx, DoEnd(order), rune, a);
    NobodyHolds(a);
    assert OwnerBalanced(tx, AllocateRemaining(tx, order), rune, a);
    assert StepOf(tx, DoEnd(order)) == AllocateRemaining(tx, order);
  }

  lemma NobodyHolds(a: Address)
    ensures Held([], Owner(a)) == 0
  {
  }
}
