/** Mint caps and the u128 bound over whole runs. */
module SupplyBounds {
  import opened Basics
  import opened Arithmetic
  import opened Ledger
  import opened Artifacts
  import opened Edicts
  import opened Transactions
  import opened TransactionLaws
  import opened Outputs
  import opened Machine
  import opened Conservation

  function OriginWeight(rune: RuneId, origin: Origin): Issue -> nat {
    (i: Issue) => if i.rune == rune && i.origin == origin then i.amount else 0
  }

  /** What was issued of a rune in one way. */
  ghost function IssuedAs(issued: seq<Issue>, rune: RuneId, origin: Origin): nat {
    Sum(issued, OriginWeight(rune, origin))
  }

  lemma IssuedSplit(issued: seq<Issue>, rune: RuneId)
    ensures IssueSum(issued, rune)
         == IssuedAs(issued, rune, Premine) + IssuedAs(issued, rune, Minted) + IssuedAs(issued, rune, CenotaphMint)
  {
    var rest: Issue -> nat := (i: Issue) => if i.rune == rune && i.origin != Premine then i.amount else 0;
    SumSplit(issued, IssueWeight(rune), OriginWeight(rune, Premine), rest);
    SumSplit(issued, rest, OriginWeight(rune, Minted), OriginWeight(rune, CenotaphMint));
  }

  lemma IssuedAppend(a: seq<Issue>, b: seq<Issue>, rune: RuneId, origin: Origin)
    ensures IssuedAs(a + b, rune, origin) == IssuedAs(a, rune, origin) + IssuedAs(b, rune, origin)
  {
    SumAppend(a, b, OriginWeight(rune, origin));
  }

  lemma MintCountAppend(a: seq<Entry>, b: seq<Entry>, rune: RuneId)
    ensures MintCount(a + b, rune) == MintCount(a, rune) + MintCount(b, rune)
  {
    SumAppend(a, b, MintOne(rune));
  }

  /** Does this action mint `rune`? */
  ghost predicate Mints(s: State, a: Action, rune: RuneId) {
    a.DoMint? && a.rune == rune && IsRuneMintable(a.dbRune, a.totalMints, s.tx.loc.height)
  }

  /** What one step adds to the counts. */
  lemma StepCounts(s: State, a: Action, rune: RuneId)
    requires !a.Begin?
    ensures var step := StepOf(s.tx, a);
            && MintCount(step.entries, rune) == (if Mints(s, a, rune) then 1 else 0)
            && IssuedAs(step.issued, rune, Minted) == (if Mints(s, a, rune) then a.dbRune.termsAmount.value else 0)
            && IssuedAs(step.issued, rune, Premine)
               == (if a.DoEtch? && s.tx.loc.Id() == rune then FromEtching(a.etching, s.tx.loc).premine else 0)
            && IssuedAs(step.issued, rune, CenotaphMint) <= RowSum(step.entries, Burn, rune, Anyone)
            && (!(a.DoMintInCenotaph? && a.rune == rune) ==> IssuedAs(step.issued, rune, CenotaphMint) == 0)
  {
    hide IsRuneMintable, FromEtching, RunOrders, EdictOrders, AllocateAll, BurnAll, AddInput, IssuedAs, MintCount, RowSum;
    var step := StepOf(s.tx, a);
    NoIssues(rune);
    match a
    case DoBurnInputs(order) =>
      BurnAllAreRows(s.tx.loc, s.tx.inputs, order, s.tx.nextEvent);
      NoMints(step.entries, rune);
    case DoEdict(edict) =>
      EdictRows(s.tx, edict);
      NoMints(step.entries, rune);
    case DoEnd(order) =>
      AllocateAllAreRows(s.tx, order);
      NoMints(step.entries, rune);
    case DoEtch(etching) =>
      EtchedRune(etching, s.tx.loc);
      assert step.entries == [step.entries[0]];
      OneOf(step.entries[0], step.issued[0], rune);
    case DoEtchCenotaph(name) =>
      assert step.entries == [step.entries[0]];
      OneOf(step.entries[0], Issue(rune, 0, Premine), rune);
    case DoMint(r, totalMints, dbRune) =>
      if step.entries != [] {
        assert step.entries == [step.entries[0]];
        OneOf(step.entries[0], step.issued[0], rune);
      }
    case DoMintInCenotaph(r, totalMints, dbRune) =>
      if step.entries != [] {
        assert step.entries == [step.entries[0]];
        OneOf(step.entries[0], step.issued[0], rune);
      }
    case SetPointer(_) =>
    case SkipMint(_) =>
    case SkipEdict(_) =>
  }

  lemma EdictRows(tx: Tx, edict: Edict)
    ensures forall e :: e in MoveEdict(tx, edict).entries ==> e.operation != Mint
  {
    hide RunOrders, EdictOrders;
    var id := EdictRune(tx, edict);
    if id.Some? && id.value in tx.inputs {
      var q := tx.inputs[id.value];
      RunShape(tx.loc, id.value, q, tx.outputs, EdictOrders(edict, Total(q), tx.outputs, tx.totalOutputs), tx.nextEvent);
    }
  }

  lemma NoIssues(rune: RuneId)
    ensures forall origin :: IssuedAs([], rune, origin) == 0
    ensures MintCount([], rune) == 0
  {
  }

  lemma NoMints(rows: seq<Entry>, rune: RuneId)
    requires forall e :: e in rows ==> e.operation != Mint
    ensures MintCount(rows, rune) == 0
  {
    SumZero(rows, MintOne(rune));
  }

  lemma OneOf(e: Entry, i: Issue, rune: RuneId)
    ensures MintCount([e], rune) == MintOne(rune)(e)
    ensures forall origin :: IssuedAs([i], rune, origin) == OriginWeight(rune, origin)(i)
    ensures RowSum([e], Burn, rune, Anyone) == RowWeight(Burn, rune, Anyone)(e)
  {
    SumOne(e, MintOne(rune));
    SumOne(e, RowWeight(Burn, rune, Anyone));
    forall origin {
      SumOne(i, OriginWeight(rune, origin));
    }
  }

  /** The counts of a rune agree with its terms. */
  ghost predicate Counted(s: State, rune: RuneId) {
    && IssuedAs(s.issued, rune, CenotaphMint) <= RowSum(s.hist, Burn, rune, Anyone)
    && (rune !in s.runes ==>
          && MintCount(s.hist, rune) == 0 && IssuedAs(s.issued, rune, Premine) == 0
          && IssuedAs(s.issued, rune, Minted) == 0 && IssuedAs(s.issued, rune, CenotaphMint) == 0)
    && (rune in s.runes ==>
          var r := s.runes[rune];
          && IssuedAs(s.issued, rune, Premine) <= r.premine
          && IssuedAs(s.issued, rune, Minted) == MintCount(s.hist, rune) * OrZero(r.termsAmount)
          && (r.termsAmount.None? ==> MintCount(s.hist, rune) == 0)
          && (r.termsCap.Some? ==> MintCount(s.hist, rune) <= r.termsCap.value))
  }

  lemma ActionKeepsCounted(s: State, a: Action, rune: RuneId)
    requires rune != SELF_ID && Enabled(s, a) && Counted(s, rune)
    ensures Counted(Apply(s, a), rune)
  {
    hide StepOf, IsLookup, Gather, IssuedAs, MintCount, RowSum, IsRuneMintable, FromEtching;
    if !a.Begin? {
      var step := StepOf(s.tx, a);
      StepCounts(s, a, rune);
      MintCountAppend(s.hist, step.entries, rune);
      RowSumAppend(s.hist, step.entries, Burn, rune, Anyone);
      IssuedAppend(s.issued, step.issued, rune, Premine);
      IssuedAppend(s.issued, step.issued, rune, Minted);
      IssuedAppend(s.issued, step.issued, rune, CenotaphMint);
      if Mints(s, a, rune) {
        MintIsWithinTerms(s, a);
        OneMore(MintCount(s.hist, rune), OrZero(s.runes[rune].termsAmount));
      }
    }
  }

  lemma OneMore(n: nat, amount: nat)
    ensures (n + 1) * amount == n * amount + amount && 0 * amount == 0
  {
  }

  /** A mint is decided on a count that is not too low, so it never passes the cap. */
  lemma MintIsWithinTerms(s: State, a: Action)
    requires a.DoMint? && a.rune != SELF_ID && Enabled(s, a) && Mints(s, a, a.rune)
    ensures a.rune in s.runes
    ensures var r := s.runes[a.rune];
            && r.termsAmount == a.dbRune.termsAmount && r.termsAmount.Some?
            && (r.termsCap.Some? ==> MintCount(s.hist, a.rune) < r.termsCap.value)
  {
    assert a.dbRune.(cenotaph := false).termsCap == s.runes[a.rune].(cenotaph := false).termsCap;
  }

  lemma {:induction false} RunIsCounted(runes: map<RuneId, DbRune>, actions: seq<Action>, rune: RuneId)
    requires rune != SELF_ID && Legal(Init(runes), actions)
    ensures Counted(RunFrom(Init(runes), actions), rune)
  {
    hide Enabled, Apply, Counted;
    if actions == [] {
      InitIsCounted(runes, rune);
    } else {
      RunIsCounted(runes, DropLast(actions), rune);
      ActionKeepsCounted(RunFrom(Init(runes), DropLast(actions)), Last(actions), rune);
    }
  }

  lemma InitIsCounted(runes: map<RuneId, DbRune>, rune: RuneId)
    ensures Counted(Init(runes), rune)
  {
  }

  /** In every run a rune with a cap never has more Mint rows than its cap, and one without an amount has none. */
  lemma MintCap(runes: map<RuneId, DbRune>, actions: seq<Action>, rune: RuneId)
    requires rune != SELF_ID && Legal(Init(runes), actions)
    requires rune in RunFrom(Init(runes), actions).runes
    ensures var s := RunFrom(Init(runes), actions);
            && (s.runes[rune].termsCap.Some? ==> MintCount(s.hist, rune) <= s.runes[rune].termsCap.value)
            && (s.runes[rune].termsAmount.None? ==> MintCount(s.hist, rune) == 0)
  {
    RunIsCounted(runes, actions, rune);
  }

  /** Minting stops at some point. */
  predicate IsBounded(r: DbRune) {
    r.termsAmount.None? || r.termsCap.Some?
  }

  /** The most that can exist of a rune. */
  function MaxSupply(r: DbRune): nat {
    r.premine + OrZero(r.termsCap) * OrZero(r.termsAmount)
  }

  /** In every run, at every moment, the units of a bounded rune in circulation (on unspent outpoints and in the queues of
      the open transaction, whose sum an edict takes in u128) are at most its maximum supply. */
  lemma SupplyBound(runes: map<RuneId, DbRune>, actions: seq<Action>, rune: RuneId)
    requires rune != SELF_ID && Legal(Init(runes), actions)
    requires var s := RunFrom(Init(runes), actions); rune in s.runes && IsBounded(s.runes[rune])
    ensures var s := RunFrom(Init(runes), actions);
            Total(Queue(s.tx.inputs, rune)) + Unspent(s.hist, s.spent, rune, Anyone) <= MaxSupply(s.runes[rune])
  {
    var s := RunFrom(Init(runes), actions);
    RunIsCounted(runes, actions, rune);
    RunAccounts(runes, actions, rune);
    IssuedSplit(s.issued, rune);
    var r := s.runes[rune];
    if r.termsCap.Some? {
      TimesAtMost(MintCount(s.hist, rune), r.termsCap.value, OrZero(r.termsAmount));
    } else {
      assert MintCount(s.hist, rune) == 0;
    }
  }

  /** For a bounded rune, the supply a deciphered etching must have in u128 is exactly that maximum. */
  lemma EtchingSupplyIsMax(etching: Etching, loc: Location)
    requires IsBounded(FromEtching(etching, loc)) && etching.Supply().Some?
    ensures etching.Supply().value == MaxSupply(FromEtching(etching, loc)) <= U128_MAX
  {
    if etching.terms.Some? && etching.terms.value.amount.None? {
      assert OrZero(etching.terms.value.cap) * 0 == 0;
    }
  }

  /** Etch a rune and mint it in the same transaction. */
  function EtchAndMint(etching: Etching, loc: Location): seq<Action> {
    [Begin(loc, [], [], map[], None, 0), DoEtch(etching), DoMint(loc.Id(), 0, FromEtching(etching, loc))]
  }

  /** Without a cap the check of the etching's supply says nothing about the sum an edict takes: etch and mint in one
      transaction, and the queue holds premine + amount, which leaves u128 exactly when that sum does, although the supply
      that was checked is the premine alone. */
  lemma UncappedMintOverflows(etching: Etching, loc: Location)
    requires loc.Id() != SELF_ID && IsRuneMintable(FromEtching(etching, loc), 0, loc.height)
    requires etching.terms.value.cap.None?
    ensures etching.Supply() == Some(OrZero(etching.premine))
    ensures var s := RunFrom(Init(map[]), EtchAndMint(etching, loc));
            && Legal(Init(map[]), EtchAndMint(etching, loc))
            && Total(Queue(s.tx.inputs, loc.Id())) == OrZero(etching.premine) + OrZero(etching.terms.value.amount)
  {
    hide Held, AddInput, IsRuneMintable, MintCount, CenotaphMintCount, FromEtching;
    EtchedRune(etching, loc);
    EtchedTerms(etching, loc);
    var acts := EtchAndMint(etching, loc);
    var s := Init(map[]);
    assert Gather([]) == map[];
    var t := Apply(s, acts[0]);
    var u := Apply(t, acts[1]);
    EtchingRowsAreNoMints(u.hist, loc.Id());
    NoIssuedMints(u.issued, loc.Id());
    assert Enabled(s, acts[0]) && Enabled(t, acts[1]) && Enabled(u, acts[2]);
    ThreeActions(s, acts[0], acts[1], acts[2]);
    assert acts == [acts[0], acts[1], acts[2]];
    NothingHeld();
    AddInputHeld(t.tx.inputs, loc.Id(), Balance(None, OrZero(etching.premine)), loc.Id(), Anyone);
    AddInputHeld(u.tx.inputs, loc.Id(), Balance(None, OrZero(etching.terms.value.amount)), loc.Id(), Anyone);
  }

  lemma EtchedTerms(etching: Etching, loc: Location)
    requires IsRuneMintable(FromEtching(etching, loc), 0, loc.height)
    ensures etching.terms.Some? && etching.terms.value.amount.Some?
    ensures FromEtching(etching, loc).termsAmount == etching.terms.value.amount
    ensures etching.terms.value.cap.None? ==> etching.Supply() == Some(OrZero(etching.premine))
  {
    if etching.terms.value.cap.None? {
      assert 0 * OrZero(etching.terms.value.amount) == 0;
    }
  }

  lemma EtchingRowsAreNoMints(rows: seq<Entry>, rune: RuneId)
    requires forall e :: e in rows ==> e.operation == Operation.Etching
    ensures MintCount(rows, rune) == 0
  {
    NoMints(rows, rune);
  }

  lemma NoIssuedMints(issued: seq<Issue>, rune: RuneId)
    requires forall i :: i in issued ==> i.origin == Premine
    ensures CenotaphMintCount(issued, rune) == 0
  {
    SumZero(issued, CenotaphMintOne(rune));
  }

  lemma NothingHeld()
    ensures Held([], Anyone) == 0
  {
  }

  lemma ThreeActions(s: State, a: Action, b: Action, c: Action)
    requires Enabled(s, a) && Enabled(Apply(s, a), b) && Enabled(Apply(Apply(s, a), b), c)
    ensures Legal(s, [a, b, c]) && RunFrom(s, [a, b, c]) == Apply(Apply(Apply(s, a), b), c)
  {
    hide Enabled, Apply;
    assert DropLast([a, b, c]) == [a, b] && DropLast([a, b]) == [a] && DropLast([a]) == [];
    assert RunFrom(s, [a]) == Apply(s, a) && Legal(s, [a]);
    assert RunFrom(s, [a, b]) == Apply(Apply(s, a), b) && Legal(s, [a, b]);
  }
}
