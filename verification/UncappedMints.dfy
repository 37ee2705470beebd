/** Exactly which runes stay within their maximum supply (src/db/cache/utils.rs:274-311, crates/ordinals/src/etching.rs:18-26). */
module UncappedMints {
  import opened Basics
  import opened Ledger
  import opened Moves
  import opened Artifacts
  import opened Edicts
  import opened Transactions
  import opened TransactionLaws
  import opened Outputs
  import opened Machine
  import opened TxRuns
  import opened Owners
  import opened Conservation
  import opened SupplyBounds
  import opened Drops
  import opened MintLaws
  import opened Arithmetic

  /** Nothing ever stops the minting: an amount, no cap, and a height at which the windows are open. */
  ghost predicate Unlimited(r: DbRune) {
    r.termsCap.None? && OrZero(r.termsAmount) > 0 && exists h :: IsRuneMintable(r, 0, h)
  }

  /** Units on unspent outpoints and in the queues of the open transaction. */
  ghost function Circulating(s: State, rune: RuneId): nat {
    Total(Queue(s.tx.inputs, rune)) + Unspent(s.hist, s.spent, rune, Anyone)
  }

  // ----- What is never mintable is never minted -----

  ghost predicate MintedOnlyIfMintable(s: State, rune: RuneId) {
    rune in s.runes && MintCount(s.hist, rune) > 0 ==> exists h :: IsRuneMintable(s.runes[rune], 0, h)
  }

  lemma MintableFromZero(r: DbRune, n: nat, h: u64)
    requires IsRuneMintable(r, n, h)
    ensures IsRuneMintable(r, 0, h)
  {
  }

  lemma ActionKeepsMintedOnlyIf(s: State, a: Action, rune: RuneId)
    requires rune != SELF_ID && Enabled(s, a) && FlaggedHaveNoTerms(s.runes)
    requires MintedOnlyIfMintable(s, rune) && Counted(s, rune)
    ensures MintedOnlyIfMintable(Apply(s, a), rune)
  {
    hide StepOf, MintCount, IsRuneMintable, FlaggedHaveNoTerms, SameRune, IsLookup, Gather, FromEtching, IssuedAs, RowSum,
      CenotaphMintCount;
    if !a.Begin? {
      ActionCounts(s, a, rune);
      if Mints(s, a, rune) {
        FlagOf(s.runes, rune);
        SameMintable(a.dbRune, s.runes[rune], a.totalMints, s.tx.loc.height);
        MintableFromZero(s.runes[rune], a.totalMints, s.tx.loc.height);
      }
    }
    if rune in s.runes {
      RunesStay(s, a, rune);
    }
  }

  lemma InitMintedOnlyIf(start: map<RuneId, DbRune>, rune: RuneId)
    ensures MintedOnlyIfMintable(Init(start), rune)
  {
  }

  lemma {:induction false} RunMintedOnlyIf(start: map<RuneId, DbRune>, actions: seq<Action>, rune: RuneId)
    requires rune != SELF_ID && Legal(Init(start), actions) && FlaggedHaveNoTerms(start)
    ensures MintedOnlyIfMintable(RunFrom(Init(start), actions), rune)
  {
    hide Enabled, Apply, MintedOnlyIfMintable, FlaggedHaveNoTerms, Counted;
    if actions == [] {
      InitMintedOnlyIf(start, rune);
    } else {
      RunMintedOnlyIf(start, DropLast(actions), rune);
      RunIsCounted(start, DropLast(actions), rune);
      RunKeepsFlags(start, DropLast(actions));
      ActionKeepsMintedOnlyIf(RunFrom(Init(start), DropLast(actions)), Last(actions), rune);
    }
  }

  /** In every run a rune that is not unlimited stays within premine + cap * amount. */
  lemma LimitedStaysBounded(start: map<RuneId, DbRune>, actions: seq<Action>, rune: RuneId)
    requires rune != SELF_ID && Legal(Init(start), actions) && FlaggedHaveNoTerms(start)
    requires var s := RunFrom(Init(start), actions); rune in s.runes && !Unlimited(s.runes[rune])
    ensures var s := RunFrom(Init(start), actions); Circulating(s, rune) <= MaxSupply(s.runes[rune])
  {
    hide Legal, RunFrom, IsRuneMintable, IssuedAs, MintCount, RowSum, LossSum, Unspent, Total, Queue;
    var s := RunFrom(Init(start), actions);
    var r := s.runes[rune];
    if IsBounded(r) {
      SupplyBound(start, actions, rune);
    } else {
      RunIsCounted(start, actions, rune);
      RunAccounts(start, actions, rune);
      IssuedSplit(s.issued, rune);
      RunMintedOnlyIf(start, actions, rune);
      OneMore(MintCount(s.hist, rune), OrZero(r.termsAmount));
      TimesZero(MintCount(s.hist, rune), OrZero(r.termsAmount));
    }
  }

  lemma TimesZero(n: nat, m: nat)
    requires n == 0 || m == 0
    ensures n * m == 0
  {
  }

  // ----- Minting without end -----

  const MINTER: Address := "a"

  function MintLocation(h: u64, id: string): Location {
    Location(h, 0, id)
  }

  /** One transaction that mints to its first output. */
  ghost function MintTx(rune: DbRune, h: u64, id: string, totalMints: nat): seq<Action> {
    [Begin(MintLocation(h, id), [], [], map[0 := Some(MINTER)], Some(0), 1), DoMint(rune.id, totalMints, rune), DoEnd([rune.id])]
  }

  /** A closed state in which the rune is known, nothing has been spent and all transaction ids are short. */
  ghost predicate ReadyToMint(s: State, rune: DbRune, longest: nat) {
    && s.tx.inputs == map[] && s.spent == {} && (forall id :: id in s.txIds ==> |id| <= longest)
    && rune.id in s.runes && s.runes[rune.id] == rune
  }

  /** The state in the middle of such a transaction. */
  lemma AfterMint(s: State, rune: DbRune, h: u64, id: string, longest: nat)
    requires ReadyToMint(s, rune, longest) && |id| > longest
    requires rune.id != SELF_ID && rune.termsCap.None? && IsRuneMintable(rune, 0, h)
    ensures var acts := MintTx(rune, h, id, MintCount(s.hist, rune.id));
            var t := Apply(s, acts[0]);
            var u := Apply(t, acts[1]);
            && Enabled(s, acts[0]) && Enabled(t, acts[1]) && Enabled(u, acts[2])
            && u.tx.inputs == map[rune.id := [Balance(None, rune.termsAmount.value)]]
            && u.tx.outputs == map[0 := Some(MINTER)] && u.tx.pointer == Some(0) && u.tx.loc == MintLocation(h, id)
            && u.spent == {} && u.txIds == s.txIds + {id} && u.runes == s.runes
            && Unspent(u.hist, {}, rune.id, Owner(MINTER)) == Unspent(s.hist, {}, rune.id, Owner(MINTER))
  {
    hide MintCount, CenotaphMintCount, Unspent;
    var acts := MintTx(rune, h, id, MintCount(s.hist, rune.id));
    assert Gather([]) == map[];
    var t := Apply(s, acts[0]);
    assert t.spent == {};
    var row := NewEntry(t.tx.loc, rune.termsAmount, rune.id, None, None, None, Mint, 0);
    var u := Apply(t, acts[1]);
    assert u.hist == s.hist + [row];
    assert Queue(t.tx.inputs, rune.id) + [Balance(None, rune.termsAmount.value)] == [Balance(None, rune.termsAmount.value)];
    MintRowHoldsNothing(s.hist, row, rune.id);
  }

  lemma MintRowHoldsNothing(hist: seq<Entry>, row: Entry, rune: RuneId)
    requires row.operation == Mint
    ensures Unspent(hist + [row], {}, rune, Owner(MINTER)) == Unspent(hist, {}, rune, Owner(MINTER))
  {
    SumSnoc(hist, row, UnspentWeight({}, rune, Owner(MINTER)));
  }

  lemma OneQueued(b: Balance)
    ensures Total([b]) == b.amount && !Stalls([b])
  {
    SumOne(b, HeldBy(Anyone));
  }

  /** The end of such a transaction gives the amount to the minter. */
  lemma AfterEnd(u: State, rune: RuneId, amount: nat, h: u64, id: string)
    requires u.tx.inputs == map[rune := [Balance(None, amount)]] && Enabled(u, DoEnd([rune]))
    requires u.tx.outputs == map[0 := Some(MINTER)] && u.tx.pointer == Some(0) && u.tx.loc == MintLocation(h, id) && u.spent == {}
    ensures var v := Apply(u, DoEnd([rune]));
            && v.tx.inputs == map[] && v.spent == {} && v.txIds == u.txIds && v.runes == u.runes
            && Unspent(v.hist, {}, rune, Owner(MINTER)) == Unspent(u.hist, {}, rune, Owner(MINTER)) + amount
  {
    hide AllocateAll, Unspent, RowSum, Total, Stalls, Held;
    var rows := AllocateRemaining(u.tx, [rune]).entries;
    OneQueued(Balance(None, amount));
    EndReceives(u.tx, [rune], rune, MINTER);
    AllocateAllAreRows(u.tx, [rune]);
    UnspentAppend(u.hist, rows, {}, u.tx.loc, u.tx.nextEvent, rune, Owner(MINTER));
  }

  lemma OneMoreMintTx(start: map<RuneId, DbRune>, actions: seq<Action>, rune: DbRune, h: u64, longest: nat)
      returns (more: seq<Action>)
    requires Legal(Init(start), actions) && ReadyToMint(RunFrom(Init(start), actions), rune, longest)
    requires rune.id != SELF_ID && rune.termsCap.None? && IsRuneMintable(rune, 0, h)
    ensures Legal(Init(start), more) && ReadyToMint(RunFrom(Init(start), more), rune, longest + 1)
    ensures Unspent(RunFrom(Init(start), more).hist, {}, rune.id, Owner(MINTER))
         == Unspent(RunFrom(Init(start), actions).hist, {}, rune.id, Owner(MINTER)) + OrZero(rune.termsAmount)
  {
    hide Legal, RunFrom, Enabled, Apply, IsRuneMintable, Unspent, MintCount;
    var s := RunFrom(Init(start), actions);
    var id := seq(longest + 1, i => 'x');
    var acts := MintTx(rune, h, id, MintCount(s.hist, rune.id));
    AfterMint(s, rune, h, id, longest);
    var t := Apply(s, acts[0]);
    var u := Apply(t, acts[1]);
    LegalAppend(Init(start), actions, acts[0]);
    LegalAppend(Init(start), actions + [acts[0]], acts[1]);
    LegalAppend(Init(start), actions + [acts[0]] + [acts[1]], acts[2]);
    more := actions + [acts[0]] + [acts[1]] + [acts[2]];
    MintableAmount(rune, 0, h);
    AfterEnd(u, rune.id, rune.termsAmount.value, h, id);
  }

  lemma {:induction false} ManyMintTxs(start: map<RuneId, DbRune>, actions: seq<Action>, rune: DbRune, h: u64, longest: nat, k: nat)
      returns (more: seq<Action>)
    requires Legal(Init(start), actions) && ReadyToMint(RunFrom(Init(start), actions), rune, longest)
    requires rune.id != SELF_ID && rune.termsCap.None? && OrZero(rune.termsAmount) > 0 && IsRuneMintable(rune, 0, h)
    ensures Legal(Init(start), more) && ReadyToMint(RunFrom(Init(start), more), rune, longest + k)
    ensures Unspent(RunFrom(Init(start), more).hist, {}, rune.id, Owner(MINTER)) >= k
  {
    hide Legal, RunFrom, IsRuneMintable, Unspent, ReadyToMint;
    more := actions;
    if k > 0 {
      var most := ManyMintTxs(start, actions, rune, h, longest, k - 1);
      more := OneMoreMintTx(start, most, rune, h, longest + k - 1);
    }
  }

  /** Etch, and close the transaction. */
  ghost function EtchTx(etching: Etching, loc: Location): seq<Action> {
    [Begin(loc, [], [], map[], None, 0), DoEtch(etching),
     DoEnd(if etching.premine.Some? then [loc.Id()] else [])]
  }

  lemma Etched(etching: Etching, loc: Location)
    ensures Legal(Init(map[]), EtchTx(etching, loc))
    ensures ReadyToMint(RunFrom(Init(map[]), EtchTx(etching, loc)), FromEtching(etching, loc), |loc.txId|)
  {
    hide AllocateAll, FromEtching;
    EtchedRune(etching, loc);
    var acts := EtchTx(etching, loc);
    var s := Init(map[]);
    assert Gather([]) == map[];
    var t := Apply(s, acts[0]);
    assert t.spent == {};
    var u := Apply(t, acts[1]);
    assert Enabled(s, acts[0]) && Enabled(t, acts[1]) && Enabled(u, acts[2]);
    ThreeActions(s, acts[0], acts[1], acts[2]);
    assert acts == [acts[0], acts[1], acts[2]];
  }

  lemma OwnerCirculates(s: State, rune: RuneId)
    requires s.spent == {}
    ensures Circulating(s, rune) >= Unspent(s.hist, {}, rune, Owner(MINTER))
  {
    SumAtMost(s.hist, UnspentWeight({}, rune, Owner(MINTER)), UnspentWeight({}, rune, Anyone));
  }

  /** An unlimited rune passes every bound in some legal run. */
  lemma UnlimitedPassesAnyBound(etching: Etching, loc: Location, bound: nat) returns (run: seq<Action>)
    requires loc.Id() != SELF_ID && Unlimited(FromEtching(etching, loc))
    ensures Legal(Init(map[]), run)
    ensures var s := RunFrom(Init(map[]), run);
            && loc.Id() in s.runes && s.runes[loc.Id()] == FromEtching(etching, loc)
            && Circulating(s, loc.Id()) > bound
  {
    hide Legal, RunFrom, FromEtching, IsRuneMintable, Unspent, Circulating, EtchTx;
    var rune := FromEtching(etching, loc);
    EtchedRune(etching, loc);
    var h :| IsRuneMintable(rune, 0, h);
    Etched(etching, loc);
    run := ManyMintTxs(map[], EtchTx(etching, loc), rune, h, |loc.txId|, bound + 1);
    OwnerCirculates(RunFrom(Init(map[]), run), loc.Id());
  }

  /** The supply check of an etching counts nothing for an unlimited rune: one mint is past it. */
  lemma OneMintPassesTheCheck(etching: Etching, loc: Location)
    requires Unlimited(FromEtching(etching, loc)) && etching.Supply().Some?
    ensures OrZero(etching.premine) + OrZero(etching.terms.value.amount) > etching.Supply().value
  {
    TimesZero(0, OrZero(etching.terms.value.amount));
  }

  ghost predicate StaysWithin(rune: DbRune, run: seq<Action>) {
    var s := RunFrom(Init(map[]), run);
    Legal(Init(map[]), run) && rune.id in s.runes && s.runes[rune.id] == rune ==> Circulating(s, rune.id) <= MaxSupply(rune)
  }

  /** A rune that is etched stays within its maximum supply in every run if and only if it is not unlimited. */
  lemma SupplyBoundExactly(etching: Etching, loc: Location)
    requires loc.Id() != SELF_ID
    ensures (forall run :: StaysWithin(FromEtching(etching, loc), run)) <==> !Unlimited(FromEtching(etching, loc))
  {
    hide Legal, RunFrom, FromEtching, IsRuneMintable, Circulating, MaxSupply;
    var rune := FromEtching(etching, loc);
    EtchedRune(etching, loc);
    if Unlimited(rune) {
      var run := UnlimitedPassesAnyBound(etching, loc, MaxSupply(rune));
      assert !StaysWithin(rune, run);
    } else {
      forall run ensures StaysWithin(rune, run) {
        var s := RunFrom(Init(map[]), run);
        if Legal(Init(map[]), run) && rune.id in s.runes && s.runes[rune.id] == rune {
          LimitedStaysBounded(map[], run, rune.id);
        }
      }
    }
  }
}
