/** Whole-run conservation in terms of the ledger and the runes alone: every unit that exists was premined or has a row that
    brought it into being (src/db/cache/index_cache.rs:337-446, src/db/cache/transaction_cache.rs:79-393). */
module LedgerLaws {
  import opened Basics
  import opened Ledger
  import opened Moves
  import opened MoveLaws
  import opened Artifacts
  import opened Edicts
  import opened Transactions
  import opened TransactionLaws
  import opened Outputs
  import opened Machine
  import opened Owners
  import opened Conservation
  import opened SupplyBounds
  import opened Tables
  import opened TableLaws

  // ----- Every row of a move names somebody -----

  ghost predicate AllNamed(rows: seq<Entry>) {
    forall e :: e in rows ==> e.address.Some? && e.operation != Mint
  }

  lemma MoveIsNamed(loc: Location, output: Option<u32>, rune: RuneId, q: seq<Balance>, outputs: map<u32, Option<Address>>,
                    amount: nat, ev: nat)
    ensures AllNamed(MoveBalance(loc, output, rune, q, outputs, amount, ev).Entries())
  {
    hide Take, Total, Owned;
    var m := MoveBalance(loc, output, rune, q, outputs, amount, ev);
    var senders := Owned(Take(q, amount, 0).pieces);
    forall e | e in m.sends ensures e.address.Some? && e.operation != Mint {
      var i :| 0 <= i < |m.sends| && m.sends[i] == e;
      assert senders[i] in senders;
    }
  }

  lemma {:induction false} RunIsNamed(loc: Location, rune: RuneId, q: seq<Balance>, outputs: map<u32, Option<Address>>,
                                      orders: seq<Order>, ev: nat)
    ensures AllNamed(RunOrders(loc, rune, q, outputs, orders, ev).entries)
    decreases |orders|
  {
    hide MoveBalance, Move.Entries;
    if orders != [] {
      var m := MoveBalance(loc, orders[0].output, rune, q, outputs, orders[0].amount, ev);
      MoveIsNamed(loc, orders[0].output, rune, q, outputs, orders[0].amount, ev);
      RunIsNamed(loc, rune, m.rest, outputs, orders[1..], ev + |m.Entries()|);
    }
  }

  lemma {:induction false} AllocationIsNamed(tx: Tx, order: seq<RuneId>)
    ensures AllNamed(AllocateAll(tx, order).0)
  {
    hide MoveBalance, Move.Entries, LostBy;
    if order != [] {
      var (rows, lost) := AllocateAll(tx, DropLast(order));
      AllocationIsNamed(tx, DropLast(order));
      MoveIsNamed(tx.loc, tx.pointer, Last(order), Queue(tx.inputs, Last(order)), tx.outputs, 0, tx.nextEvent + |rows|);
    }
  }

  lemma NamedRows(rows: seq<Entry>, rune: RuneId)
    requires AllNamed(rows)
    ensures RowSum(rows, Mint, rune, Anyone) == 0 && RowSum(rows, Burn, rune, Nobody) == 0
  {
    SumZero(rows, RowWeight(Mint, rune, Anyone));
    SumZero(rows, RowWeight(Burn, rune, Nobody));
  }

  // ----- The rows that bring units into being -----

  lemma OwnedIsNotNobodys(q: seq<Balance>)
    requires AllOwned(q)
    ensures Held(q, Nobody) == 0
  {
    SumZero(q, HeldBy(Nobody));
  }

  /** The Mint rows of a step are its mints, and its ownerless Burn rows are its mints in a cenotaph. */
  ghost predicate IssuesOnRows(entries: seq<Entry>, issued: seq<Issue>, rune: RuneId) {
    && RowSum(entries, Mint, rune, Anyone) == IssuedAs(issued, rune, Minted)
    && RowSum(entries, Burn, rune, Nobody) == IssuedAs(issued, rune, CenotaphMint)
  }

  lemma BurnIssuesNothing(tx: Tx, order: seq<RuneId>, rune: RuneId)
    requires Enumerates(order, tx.inputs) && AllOwned(Queue(tx.inputs, rune))
    ensures IssuesOnRows(BurnInputs(tx, order).entries, [], rune)
  {
    hide BurnAll, RowSum, IssuedAs, Held, Queue, AllOwned;
    NoIssues(rune);
    OwnedIsNotNobodys(Queue(tx.inputs, rune));
    BurnAllSum(tx.loc, tx.inputs, order, tx.nextEvent, Mint, rune, Anyone);
    BurnAllSum(tx.loc, tx.inputs, order, tx.nextEvent, Burn, rune, Nobody);
  }

  lemma OneRowIssues(e: Entry, i: Issue, rune: RuneId)
    ensures RowSum([e], Mint, rune, Anyone) == RowWeight(Mint, rune, Anyone)(e)
    ensures RowSum([e], Burn, rune, Nobody) == RowWeight(Burn, rune, Nobody)(e)
    ensures forall origin :: IssuedAs([i], rune, origin) == OriginWeight(rune, origin)(i)
    ensures RowSum([], Mint, rune, Anyone) == 0 && RowSum([], Burn, rune, Nobody) == 0
  {
    SumOne(e, RowWeight(Mint, rune, Anyone));
    SumOne(e, RowWeight(Burn, rune, Nobody));
    OneOf(e, i, rune);
  }

  lemma StepIssuesOnRows(s: State, a: Action, rune: RuneId)
    requires !a.Begin? && Enabled(s, a) && QueuesOwned(s.tx)
    ensures IssuesOnRows(StepOf(s.tx, a).entries, StepOf(s.tx, a).issued, rune)
  {
    hide RunOrders, EdictOrders, IsRuneMintable, AllocateAll, BurnAll, FromEtching, AddInput, RowSum, IssuedAs, OwnedFirst, AllOwned,
      MintBasis, CanBeFound, CanBeMissed;
    NoIssues(rune);
    var nothing := Issue(rune, 0, Premine);
    var none := NewEntry(s.tx.loc, None, rune, None, None, None, Operation.Etching, 0);
    OneRowIssues(none, nothing, rune);
    var step := StepOf(s.tx, a);
    match a
    case DoBurnInputs(order) => BurnIssuesNothing(s.tx, order, rune);
    case DoEdict(edict) =>
      var id := EdictRune(s.tx, edict);
      if id.Some? && id.value in s.tx.inputs {
        var q := s.tx.inputs[id.value];
        RunIsNamed(s.tx.loc, id.value, q, s.tx.outputs, EdictOrders(edict, Total(q), s.tx.outputs, s.tx.totalOutputs), s.tx.nextEvent);
        NamedRows(step.entries, rune);
      }
    case DoEnd(order) =>
      AllocationIsNamed(s.tx, order);
      NamedRows(step.entries, rune);
    case DoEtch(etching) =>
      assert step.entries == [step.entries[0]] && step.issued == [step.issued[0]];
      OneRowIssues(step.entries[0], step.issued[0], rune);
    case DoEtchCenotaph(name) =>
      assert step.entries == [step.entries[0]];
      OneRowIssues(step.entries[0], nothing, rune);
    case DoMint(r, totalMints, dbRune) =>
      if step.entries != [] {
        assert step.entries == [step.entries[0]] && step.issued == [step.issued[0]];
        OneRowIssues(step.entries[0], step.issued[0], rune);
      }
    case DoMintInCenotaph(r, totalMints, dbRune) =>
      if step.entries != [] {
        assert step.entries == [step.entries[0]] && step.issued == [step.issued[0]];
        OneRowIssues(step.entries[0], step.issued[0], rune);
      }
    case SetPointer(_) =>
    case SkipMint(_) =>
    case SkipEdict(_) =>
  }

  /** The premine of a rune etched in the run; runes known from the start bring none. */
  function PremineOf(start: map<RuneId, DbRune>, runes: map<RuneId, DbRune>, rune: RuneId): nat {
    if rune in runes && rune !in start then runes[rune].premine else 0
  }

  /** What was issued is what the ledger and the runes say. */
  ghost predicate Recorded(start: map<RuneId, DbRune>, s: State, rune: RuneId) {
    && IssuesOnRows(s.hist, s.issued, rune)
    && IssuedAs(s.issued, rune, Premine) == PremineOf(start, s.runes, rune)
    && start.Keys <= s.runes.Keys
  }

  lemma ActionKeepsRecorded(start: map<RuneId, DbRune>, s: State, a: Action, rune: RuneId)
    requires Enabled(s, a) && QueuesOwned(s.tx) && Recorded(start, s, rune)
    ensures Recorded(start, Apply(s, a), rune)
  {
    hide StepOf, IsLookup, Gather, IssuedAs, MintCount, RowSum, FromEtching, QueuesOwned, Queue, MintBasis, Enumerates;
    if !a.Begin? {
      var step := StepOf(s.tx, a);
      StepIssuesOnRows(s, a, rune);
      StepCounts(s, a, rune);
      EtchesItself(s, a);
      RowSumAppend(s.hist, step.entries, Mint, rune, Anyone);
      RowSumAppend(s.hist, step.entries, Burn, rune, Nobody);
      IssuedAppend(s.issued, step.issued, rune, Premine);
      IssuedAppend(s.issued, step.issued, rune, Minted);
      IssuedAppend(s.issued, step.issued, rune, CenotaphMint);
    }
  }

  lemma EtchesItself(s: State, a: Action)
    ensures a.DoEtchCenotaph? ==> FromCenotaphEtching(a.name, s.tx.loc).premine == 0
  {
  }

  lemma InitIsRecorded(start: map<RuneId, DbRune>, rune: RuneId)
    ensures Recorded(start, Init(start), rune)
  {
  }

  lemma {:induction false} RunIsRecorded(start: map<RuneId, DbRune>, actions: seq<Action>, rune: RuneId)
    requires Legal(Init(start), actions)
    ensures Recorded(start, RunFrom(Init(start), actions), rune)
  {
    hide Enabled, Apply, Recorded, OwnersSafe;
    if actions == [] {
      InitIsRecorded(start, rune);
    } else {
      RunIsRecorded(start, DropLast(actions), rune);
      RunIsOwnersSafe(start, DropLast(actions));
      SafeQueues(RunFrom(Init(start), DropLast(actions)));
      ActionKeepsRecorded(start, RunFrom(Init(start), DropLast(actions)), Last(actions), rune);
    }
  }

  lemma SafeQueues(s: State)
    requires OwnersSafe(s)
    ensures QueuesOwned(s.tx)
  {
  }

  // ----- Conservation -----

  /** Premine + Mint rows + ownerless Burn rows (mints in cenotaphs) = units on unspent outpoints + on Burn rows + queued in the
      open transaction + ownerless units burned or dropped without a row. */
  ghost predicate Conserved(start: map<RuneId, DbRune>, s: State, rune: RuneId) {
    PremineOf(start, s.runes, rune) + RowSum(s.hist, Mint, rune, Anyone) + RowSum(s.hist, Burn, rune, Nobody)
    == Unspent(s.hist, s.spent, rune, Anyone) + RowSum(s.hist, Burn, rune, Anyone) + Total(Queue(s.tx.inputs, rune))
       + LossSum(s.lost, rune, Nobody)
  }

  /** What is lost was nobody's. */
  lemma LostIsOwnerless(lost: seq<Loss>, rune: RuneId)
    requires forall a :: LossSum(lost, rune, Owner(a)) == 0
    ensures LossSum(lost, rune, Anyone) == LossSum(lost, rune, Nobody)
  {
    forall l | l in lost ensures LossWeight(rune, Anyone)(l) == LossWeight(rune, Nobody)(l) {
      if l.balance.address.Some? {
        var a := l.balance.address.value;
        assert LossSum(lost, rune, Owner(a)) == 0;
        SumPositive(lost, LossWeight(rune, Owner(a)));
        assert LossWeight(rune, Owner(a))(l) == 0;
      }
    }
    SumAgree(lost, LossWeight(rune, Anyone), LossWeight(rune, Nobody));
  }

  /** In every run every rune is conserved. */
  lemma RunConserves(start: map<RuneId, DbRune>, actions: seq<Action>, rune: RuneId)
    requires Legal(Init(start), actions)
    ensures Conserved(start, RunFrom(Init(start), actions), rune)
  {
    hide Legal, RunFrom, IssuedAs, RowSum, LossSum, Unspent, Total, Queue, PremineOf, IssueSum;
    var s := RunFrom(Init(start), actions);
    RunAccounts(start, actions, rune);
    RunIsRecorded(start, actions, rune);
    IssuedSplit(s.issued, rune);
    forall a {
      OwnersLoseNothing(start, actions, rune, a);
    }
    LostIsOwnerless(s.lost, rune);
  }

  // ----- Stored balances -----

  /** The net amount of an address is what it received less what it sent. */
  lemma {:induction false} NetIsReceivedLessSent(es: seq<Entry>, rune: RuneId, a: Address, h: u64)
    requires UpToHeight(es, h)
    ensures NetUpTo(es, rune, a, h) == RowSum(es, Receive, rune, Owner(a)) - RowSum(es, Send, rune, Owner(a))
  {
    if es != [] {
      assert Last(es) in es;
      NetIsReceivedLessSent(DropLast(es), rune, a, h);
    }
  }

  /** Between transactions the latest stored balance of an address is what it holds on unspent outpoints and what was burned
      from it, and so never negative. */
  lemma StoredBalanceIsHeld(t: map<(RuneId, u64, Address), Holding>, s: State, rune: RuneId, a: Address, h: u64)
    requires BalancesConsistent(t, s.hist) && UpToHeight(s.hist, h)
    requires s.tx.inputs == map[] && OwnerConserved(s, rune, a)
    ensures LatestHolding(t, rune, a).balance ==
            Unspent(s.hist, s.spent, rune, Owner(a)) + RowSum(s.hist, Burn, rune, Owner(a)) >= 0
  {
    hide BalancesConsistent, NetUpTo, RowSum, Unspent, LatestHolding, UpToHeight, Held;
    LatestHoldingIsNet(t, s.hist, rune, a, h);
    NetIsReceivedLessSent(s.hist, rune, a, h);
    ClosedQueue(s, rune, Owner(a));
  }
}
