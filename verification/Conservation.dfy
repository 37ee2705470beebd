/** Whole-run accounting: every unit issued is on an unspent outpoint, burned, lost without a row, or in the open transaction,
    and what is lost never belonged to anybody. */
module Conservation {
  import opened Basics
  import opened Ledger
  import opened Artifacts
  import opened Edicts
  import opened Transactions
  import opened TransactionLaws
  import opened Outputs
  import opened Machine
  import opened Owners

  function UnspentWeight(spent: set<Outpoint>, rune: RuneId, who: Who): Entry -> nat {
    (e: Entry) =>
      if e.operation == Receive && e.rune == rune && who.Matches(e.address) && e.Created().Some? && e.Created().value !in spent
      then e.Amount() else 0
  }

  /** What `who` holds of a rune on outpoints that have not been spent. */
  ghost function Unspent(hist: seq<Entry>, spent: set<Outpoint>, rune: RuneId, who: Who): nat {
    Sum(hist, UnspentWeight(spent, rune, who))
  }

  /** Units of a rune: issued = unspent + burned + lost + queued. */
  ghost predicate Accounted(s: State, rune: RuneId) {
    IssueSum(s.issued, rune)
    == Unspent(s.hist, s.spent, rune, Anyone) + RowSum(s.hist, Burn, rune, Anyone) + LossSum(s.lost, rune, Anyone)
       + Total(Queue(s.tx.inputs, rune))
  }

  /** An address's units of a rune, with what steps lose. */
  ghost predicate OwnerAccounted(s: State, rune: RuneId, a: Address) {
    RowSum(s.hist, Receive, rune, Owner(a))
    == RowSum(s.hist, Send, rune, Owner(a)) + Unspent(s.hist, s.spent, rune, Owner(a)) + RowSum(s.hist, Burn, rune, Owner(a))
       + LossSum(s.lost, rune, Owner(a)) + Held(Queue(s.tx.inputs, rune), Owner(a))
  }

  /** An address's units of a rune: received = sent + unspent + burned + queued. */
  ghost predicate OwnerConserved(s: State, rune: RuneId, a: Address) {
    RowSum(s.hist, Receive, rune, Owner(a))
    == RowSum(s.hist, Send, rune, Owner(a)) + Unspent(s.hist, s.spent, rune, Owner(a)) + RowSum(s.hist, Burn, rune, Owner(a))
       + Held(Queue(s.tx.inputs, rune), Owner(a))
  }

  /** No output of the open transaction has been spent yet. */
  ghost predicate Sane(s: State) {
    forall o :: o in s.spent ==> o.txId != s.tx.loc.txId
  }

  // ----- A transaction begins: the spent outpoints turn into input queues -----

  lemma {:induction false} SpendOne(hist: seq<Entry>, spent: set<Outpoint>, o: Outpoint, rune: RuneId, who: Who)
    requires o !in spent
    ensures Unspent(hist, spent, rune, who)
         == Unspent(hist, spent + {o}, rune, who) + Held(ReceivesAt(hist, o, rune), who)
  {
    SumSplit(hist, UnspentWeight(spent, rune, who), UnspentWeight(spent + {o}, rune, who), AtWeight(o, rune, who));
    ReceivesHeld(hist, o, rune, who);
  }

  lemma GatherQueue(parts: seq<map<RuneId, seq<Balance>>>, rune: RuneId, who: Who)
    requires parts != []
    ensures Held(Queue(Gather(parts), rune), who)
         == Held(Queue(Gather(DropLast(parts)), rune), who) + Held(Queue(Last(parts), rune), who)
  {
    hide Queue, Extend;
    var a, b := Gather(DropLast(parts)), Last(parts);
    ExtendAppends(a, b, rune);
    SumAppend(Queue(a, rune), Queue(b, rune), HeldBy(who));
  }

  lemma LookupSnoc(hist: seq<Entry>, ins: seq<Outpoint>, parts: seq<map<RuneId, seq<Balance>>>, rune: RuneId)
    requires IsLookup(hist, ins, parts) && ins != []
    ensures |parts| == |ins| && IsLookup(hist, DropLast(ins), DropLast(parts))
    ensures multiset(Queue(Last(parts), rune)) == multiset(ReceivesAt(hist, Last(ins), rune))
  {
    hide Queue, ReceivesAt;
    forall i, r | 0 <= i < |ins| - 1 ensures IsOneLookup(hist, DropLast(ins)[i], DropLast(parts)[i], r) {
      assert IsOneLookup(hist, ins[i], parts[i], r);
    }
    assert IsOneLookup(hist, ins[|ins| - 1], parts[|ins| - 1], rune);
  }

  lemma SetSnoc(ins: seq<Outpoint>)
    requires ins != []
    ensures (set o | o in ins) == (set o | o in DropLast(ins)) + {Last(ins)}
  {
    assert ins == DropLast(ins) + [Last(ins)];
  }

  lemma {:induction false} SpendAll(hist: seq<Entry>, spent: set<Outpoint>, ins: seq<Outpoint>,
                                    parts: seq<map<RuneId, seq<Balance>>>, rune: RuneId, who: Who)
    requires IsLookup(hist, ins, parts)
    requires forall i :: 0 <= i < |ins| ==> ins[i] !in spent
    requires forall i, j :: 0 <= i < j < |ins| ==> ins[i] != ins[j]
    ensures Unspent(hist, spent, rune, who)
         == Unspent(hist, spent + (set o | o in ins), rune, who) + Held(Queue(Gather(parts), rune), who)
  {
    hide Unspent, Held, Gather, Queue, IsLookup, IsOneLookup;
    if ins == [] {
      assert spent + (set o | o in ins) == spent;
      NothingGathered(hist, parts, rune, who);
    } else {
      var init, o := DropLast(ins), Last(ins);
      LookupSnoc(hist, ins, parts, rune);
      SpendAll(hist, spent, init, DropLast(parts), rune, who);
      SetSnoc(ins);
      assert spent + (set p | p in ins) == spent + (set p | p in init) + {o};
      SpendOne(hist, spent + (set p | p in init), o, rune, who);
      SameHeld(Queue(Last(parts), rune), ReceivesAt(hist, o, rune), who);
      GatherQueue(parts, rune, who);
    }
  }

  lemma NothingGathered(hist: seq<Entry>, parts: seq<map<RuneId, seq<Balance>>>, rune: RuneId, who: Who)
    requires IsLookup(hist, [], parts)
    ensures Held(Queue(Gather(parts), rune), who) == 0
  {
  }

  lemma SameHeld(a: seq<Balance>, b: seq<Balance>, who: Who)
    requires multiset(a) == multiset(b)
    ensures Held(a, who) == Held(b, who)
  {
    SumPermute(a, b, HeldBy(who));
  }

  // ----- A transaction takes a step -----

  lemma StepBalanced(s: State, a: Action, rune: RuneId)
    requires !a.Begin? && Enabled(s, a)
    ensures Balanced(s.tx, StepOf(s.tx, a), rune)
    ensures forall addr :: OwnerBalanced(s.tx, StepOf(s.tx, a), rune, addr)
  {
    hide Balanced, OwnerBalanced, Etch, EtchCenotaph, BurnInputs, MintRune, MintInCenotaph, MoveEdict, AllocateRemaining;
    match a
    case SetPointer(p) => PointerBalanced(s.tx, p, rune);
    case SkipMint(_) => NoRow(s.tx, rune);
    case SkipEdict(_) => NoRow(s.tx, rune);
    case DoEtch(etching) => EtchBalanced(s.tx, etching, rune);
    case DoEtchCenotaph(name) => EtchCenotaphBalanced(s.tx, name, rune);
    case DoBurnInputs(order) => BurnInputsBalanced(s.tx, order, rune);
    case DoMint(r, totalMints, dbRune) => MintBalanced(s.tx, r, totalMints, dbRune, rune);
    case DoMintInCenotaph(r, totalMints, dbRune) => MintInCenotaphBalanced(s.tx, r, totalMints, dbRune, rune);
    case DoEdict(edict) => MoveEdictBalanced(s.tx, edict, rune);
    case DoEnd(order) => AllocateRemainingBalanced(s.tx, order, rune);
  }

  lemma PointerBalanced(tx: Tx, p: u32, rune: RuneId)
    ensures Balanced(tx, Step(tx.(pointer := Some(p)), [], [], []), rune)
    ensures forall a :: OwnerBalanced(tx, Step(tx.(pointer := Some(p)), [], [], []), rune, a)
  {
    AllocateNothing(rune);
    LossEmpty(rune, Anyone);
  }

  /** Rows of one step: they belong to the open transaction. */
  lemma StepRows(tx: Tx, a: Action)
    requires !a.Begin?
    ensures AreRows(StepOf(tx, a).entries, tx.loc, tx.nextEvent)
    ensures StepOf(tx, a).tx.loc == tx.loc
    ensures StepOf(tx, a).tx.nextEvent == tx.nextEvent + |StepOf(tx, a).entries|
  {
    hide RunOrders, BurnAll, AllocateAll, IsRuneMintable, FromEtching, EdictOrders;
    match a
    case DoBurnInputs(order) => BurnAllAreRows(tx.loc, tx.inputs, order, tx.nextEvent);
    case DoEdict(edict) =>
      var id := EdictRune(tx, edict);
      if id.Some? && id.value in tx.inputs {
        var q := tx.inputs[id.value];
        RunShape(tx.loc, id.value, q, tx.outputs, EdictOrders(edict, Total(q), tx.outputs, tx.totalOutputs), tx.nextEvent);
      }
    case DoEnd(order) => AllocateAllAreRows(tx, order);
    case _ =>
  }

  /** New rows are unspent: their outpoints belong to the open transaction. */
  lemma UnspentAppend(hist: seq<Entry>, rows: seq<Entry>, spent: set<Outpoint>, loc: Location, ev: nat, rune: RuneId, who: Who)
    requires AreRows(rows, loc, ev) && forall o :: o in spent ==> o.txId != loc.txId
    ensures Unspent(hist + rows, spent, rune, who) == Unspent(hist, spent, rune, who) + RowSum(rows, Receive, rune, who)
  {
    SumAppend(hist, rows, UnspentWeight(spent, rune, who));
    forall e | e in rows ensures UnspentWeight(spent, rune, who)(e) == RowWeight(Receive, rune, who)(e) {
      assert IsRow(e, loc);
    }
    SumAgree(rows, UnspentWeight(spent, rune, who), RowWeight(Receive, rune, who));
  }

  lemma IssueAppend(a: seq<Issue>, b: seq<Issue>, rune: RuneId)
    ensures IssueSum(a + b, rune) == IssueSum(a, rune) + IssueSum(b, rune)
  {
    SumAppend(a, b, IssueWeight(rune));
  }

  lemma ActionKeepsSane(s: State, a: Action)
    requires Sane(s) && Enabled(s, a)
    ensures Sane(Apply(s, a))
  {
    hide StepOf, IsLookup, Gather;
    if !a.Begin? {
      StepRows(s.tx, a);
    }
  }

  lemma ActionAccounts(s: State, a: Action, rune: RuneId)
    requires Sane(s) && Enabled(s, a) && Accounted(s, rune)
    ensures Accounted(Apply(s, a), rune)
  {
    hide StepOf, IsLookup, Gather, RowSum, LossSum, IssueSum, Unspent, Held, Queue, Sane, RunesAfter;
    if a.Begin? {
      SpendAll(s.hist, s.spent, a.ins, a.parts, rune, Anyone);
      ClosedQueue(s, rune, Anyone);
    } else {
      var step := StepOf(s.tx, a);
      StepBalanced(s, a, rune);
      StepRows(s.tx, a);
      SaneSpent(s);
      UnspentAppend(s.hist, step.entries, s.spent, s.tx.loc, s.tx.nextEvent, rune, Anyone);
      RowSumAppend(s.hist, step.entries, Burn, rune, Anyone);
      LossAppend(s.lost, step.lost, rune, Anyone);
      IssueAppend(s.issued, step.issued, rune);
    }
  }

  lemma SaneSpent(s: State)
    requires Sane(s)
    ensures forall o :: o in s.spent ==> o.txId != s.tx.loc.txId
  {
  }

  lemma ClosedQueue(s: State, rune: RuneId, who: Who)
    requires s.tx.inputs == map[]
    ensures Held(Queue(s.tx.inputs, rune), who) == 0
  {
  }

  lemma ActionAccountsOwner(s: State, a: Action, rune: RuneId, addr: Address)
    requires Sane(s) && Enabled(s, a) && OwnerAccounted(s, rune, addr)
    ensures OwnerAccounted(Apply(s, a), rune, addr)
  {
    hide StepOf, IsLookup, Gather, RowSum, LossSum, IssueSum, Unspent, Held, Queue, Sane, RunesAfter;
    if a.Begin? {
      SpendAll(s.hist, s.spent, a.ins, a.parts, rune, Owner(addr));
      ClosedQueue(s, rune, Owner(addr));
    } else {
      var step := StepOf(s.tx, a);
      StepBalanced(s, a, rune);
      assert OwnerBalanced(s.tx, step, rune, addr);
      StepRows(s.tx, a);
      SaneSpent(s);
      UnspentAppend(s.hist, step.entries, s.spent, s.tx.loc, s.tx.nextEvent, rune, Owner(addr));
      RowSumAppend(s.hist, step.entries, Burn, rune, Owner(addr));
      RowSumAppend(s.hist, step.entries, Send, rune, Owner(addr));
      RowSumAppend(s.hist, step.entries, Receive, rune, Owner(addr));
      LossAppend(s.lost, step.lost, rune, Owner(addr));
    }
  }

  // ----- Whole runs -----

  lemma {:induction false} RunIsSane(runes: map<RuneId, DbRune>, actions: seq<Action>)
    requires Legal(Init(runes), actions)
    ensures Sane(RunFrom(Init(runes), actions))
  {
    hide Enabled, Apply;
    if actions != [] {
      RunIsSane(runes, DropLast(actions));
      ActionKeepsSane(RunFrom(Init(runes), DropLast(actions)), Last(actions));
    }
  }

  /** In every run every rune has units issued = units on unspent outpoints + on Burn rows + lost without a row + queued in the
      open transaction. */
  lemma {:induction false} RunAccounts(runes: map<RuneId, DbRune>, actions: seq<Action>, rune: RuneId)
    requires Legal(Init(runes), actions)
    ensures Accounted(RunFrom(Init(runes), actions), rune)
  {
    hide Enabled, Apply, Sane, Accounted;
    if actions == [] {
      InitAccounts(runes, rune);
    } else {
      RunAccounts(runes, DropLast(actions), rune);
      RunIsSane(runes, DropLast(actions));
      ActionAccounts(RunFrom(Init(runes), DropLast(actions)), Last(actions), rune);
    }
  }

  lemma InitAccounts(runes: map<RuneId, DbRune>, rune: RuneId)
    ensures Accounted(Init(runes), rune)
    ensures forall a :: OwnerAccounted(Init(runes), rune, a)
  {
  }

  lemma {:induction false} RunAccountsOwner(runes: map<RuneId, DbRune>, actions: seq<Action>, rune: RuneId, a: Address)
    requires Legal(Init(runes), actions)
    ensures OwnerAccounted(RunFrom(Init(runes), actions), rune, a)
  {
    hide Enabled, Apply, Sane, OwnerAccounted;
    if actions == [] {
      InitAccounts(runes, rune);
    } else {
      RunAccountsOwner(runes, DropLast(actions), rune, a);
      RunIsSane(runes, DropLast(actions));
      ActionAccountsOwner(RunFrom(Init(runes), DropLast(actions)), Last(actions), rune, a);
    }
  }

  // ----- Owners lose nothing -----

  lemma BeginKeepsOwnersSafe(s: State, a: Action)
    requires OwnersSafe(s) && Enabled(s, a) && a.Begin?
    ensures OwnersSafe(Apply(s, a))
  {
    hide Gather, LossSum, ReceivesAreOwned, OwnedFirst, AllOwned, IsLookup;
    forall r ensures OwnedFirst(Queue(Gather(a.parts), r)) && AllOwned(Queue(Gather(a.parts), r)) {
      GatherOwned(s.hist, a.ins, a.parts, r);
      AllOwnedIsOwnedFirst(Queue(Gather(a.parts), r));
    }
  }

  lemma ActionKeepsOwnersSafe(s: State, a: Action)
    requires OwnersSafe(s) && Enabled(s, a)
    ensures OwnersSafe(Apply(s, a))
  {
    hide StepOf, LossSum, OwnedFirst, AllOwned, RunesAfter, Queue, Enabled;
    if a.Begin? {
      BeginKeepsOwnersSafe(s, a);
    } else {
      var step := StepOf(s.tx, a);
      StepRows(s.tx, a);
      RowsAreOwned(step.entries, s.tx.loc, s.tx.nextEvent);
      forall r {
        StepKeepsOwned(s.tx, a, r);
      }
      forall r, who ensures LossSum(s.lost + step.lost, r, Owner(who)) == 0 {
        StepKeepsOwners(s.tx, a, r, who);
        LossAppend(s.lost, step.lost, r, Owner(who));
      }
    }
  }

  lemma InitIsOwnersSafe(runes: map<RuneId, DbRune>)
    ensures OwnersSafe(Init(runes))
  {
  }

  lemma {:induction false} RunIsOwnersSafe(runes: map<RuneId, DbRune>, actions: seq<Action>)
    requires Legal(Init(runes), actions)
    ensures OwnersSafe(RunFrom(Init(runes), actions))
  {
    hide Enabled, Apply, OwnersSafe;
    if actions == [] {
      InitIsOwnersSafe(runes);
    } else {
      RunIsOwnersSafe(runes, DropLast(actions));
      ActionKeepsOwnersSafe(RunFrom(Init(runes), DropLast(actions)), Last(actions));
    }
  }

  /** In every run no unit that had an owner is ever lost without a row. */
  lemma OwnersLoseNothing(runes: map<RuneId, DbRune>, actions: seq<Action>, rune: RuneId, a: Address)
    requires Legal(Init(runes), actions)
    ensures LossSum(RunFrom(Init(runes), actions).lost, rune, Owner(a)) == 0
  {
    hide Legal, RunFrom, LossSum;
    RunIsOwnersSafe(runes, actions);
  }

  /** In every run every address has received = sent + unspent + burned from it + queued in the open transaction. */
  lemma RunConservesOwner(runes: map<RuneId, DbRune>, actions: seq<Action>, rune: RuneId, a: Address)
    requires Legal(Init(runes), actions)
    ensures OwnerConserved(RunFrom(Init(runes), actions), rune, a)
  {
    hide Legal, RunFrom, LossSum, RowSum, Unspent, Held, Queue;
    RunAccountsOwner(runes, actions, rune, a);
    OwnersLoseNothing(runes, actions, rune, a);
  }
}
