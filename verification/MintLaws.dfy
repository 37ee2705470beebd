/** Which mints are honoured (src/db/cache/index_cache.rs:200-262, src/db/cache/index_cache.rs:309-333,
    src/db/cache/utils.rs:274-311). */
module MintLaws {
  import opened Basics
  import opened Ledger
  import opened Moves
  import opened Artifacts
  import opened Edicts
  import opened Transactions
  import opened TransactionLaws
  import opened Outputs
  import opened Machine
  import opened TxRuns
  import opened NameLaws
  import opened SupplyBounds

  // ----- Counting mints in cenotaphs -----

  lemma CenotaphMintsAppend(a: seq<Issue>, b: seq<Issue>, rune: RuneId)
    ensures CenotaphMintCount(a + b, rune) == CenotaphMintCount(a, rune) + CenotaphMintCount(b, rune)
  {
    SumAppend(a, b, CenotaphMintOne(rune));
  }

  /** Does this action mint `rune` in a cenotaph? */
  ghost predicate MintsInCenotaph(s: State, a: Action, rune: RuneId) {
    a.DoMintInCenotaph? && a.rune == rune && IsRuneMintable(a.dbRune, a.totalMints, s.tx.loc.height)
  }

  lemma StepCenotaphMints(s: State, a: Action, rune: RuneId)
    requires !a.Begin?
    ensures CenotaphMintCount(StepOf(s.tx, a).issued, rune) == if MintsInCenotaph(s, a, rune) then 1 else 0
  {
    hide IsRuneMintable, RunOrders, EdictOrders, AllocateAll, BurnAll, AddInput, FromEtching, CenotaphMintCount;
    var issued := StepOf(s.tx, a).issued;
    NoCenotaphMints(rune);
    if issued != [] {
      assert issued == [issued[0]];
      OneCenotaphMint(issued[0], rune);
    }
  }

  lemma NoCenotaphMints(rune: RuneId)
    ensures CenotaphMintCount([], rune) == 0
  {
  }

  lemma OneCenotaphMint(i: Issue, rune: RuneId)
    ensures CenotaphMintCount([i], rune) == CenotaphMintOne(rune)(i)
  {
    SumOne(i, CenotaphMintOne(rune));
  }

  /** How the counts move with one action. */
  lemma ActionCounts(s: State, a: Action, rune: RuneId)
    requires !a.Begin?
    ensures MintCount(Apply(s, a).hist, rune) == MintCount(s.hist, rune) + if Mints(s, a, rune) then 1 else 0
    ensures CenotaphMintCount(Apply(s, a).issued, rune)
         == CenotaphMintCount(s.issued, rune) + if MintsInCenotaph(s, a, rune) then 1 else 0
  {
    hide StepOf, MintCount, CenotaphMintCount, IsRuneMintable, RunesAfter;
    StepCounts(s, a, rune);
    StepCenotaphMints(s, a, rune);
    MintCountAppend(s.hist, StepOf(s.tx, a).entries, rune);
    CenotaphMintsAppend(s.issued, StepOf(s.tx, a).issued, rune);
  }

  // ----- A valid mint is honoured -----

  /** A rune etched in a cenotaph has nothing to mint. */
  ghost predicate FlaggedHaveNoTerms(runes: map<RuneId, DbRune>) {
    forall r :: r in runes && runes[r].cenotaph ==> runes[r].termsAmount.None?
  }

  lemma {:induction false} RunKeepsFlags(start: map<RuneId, DbRune>, actions: seq<Action>)
    requires FlaggedHaveNoTerms(start)
    ensures FlaggedHaveNoTerms(RunFrom(Init(start), actions).runes)
  {
    hide StepOf;
    if actions != [] {
      RunKeepsFlags(start, DropLast(actions));
    }
  }

  lemma SameMintable(a: DbRune, b: DbRune, n: nat, h: u64)
    requires SameRune(a, b) && (b.cenotaph ==> b.termsAmount.None?)
    ensures IsRuneMintable(a, n, h) <==> IsRuneMintable(b, n, h)
  {
  }

  /** The rune a mint is about, as it was etched. */
  ghost function MintedRune(s: State, rune: RuneId): DbRune
    requires CanBeFound(s, rune)
  {
    if rune == SELF_ID then s.tx.etching.value else s.runes[rune]
  }

  function NoStep(tx: Tx): Step {
    Step(tx, [], [], [])
  }

  /** The step of a mint if nothing is ever forgotten: the rune is found if it exists, and its true number of mints counts. */
  ghost function TrueMint(s: State, rune: RuneId, cenotaph: bool): Step {
    if !CanBeFound(s, rune) then NoStep(s.tx)
    else if cenotaph then MintInCenotaph(s.tx, rune, MintCount(s.hist, rune), MintedRune(s, rune))
    else MintRune(s.tx, rune, MintCount(s.hist, rune), MintedRune(s, rune))
  }

  /** Some count that may be consulted lets the mint through, and either some other count refuses it or the rune may be missed. */
  ghost predicate MintIsOpen(s: State, rune: RuneId) {
    && rune != SELF_ID && rune in s.runes && IsRuneMintable(s.runes[rune], MintCount(s.hist, rune), s.tx.loc.height)
    && ((rune in s.late && !JustEtched(s.tx, rune))
        || (&& s.runes[rune].termsCap.Some?
            && s.runes[rune].termsCap.value <= MintCount(s.hist, rune) + CenotaphMintCount(s.issued, rune)))
  }

  /** A count that is too high refuses, or is as good as the true one. */
  lemma CountsAgree(r: DbRune, n: nat, m: nat, h: u64)
    requires n <= m
    ensures IsRuneMintable(r, m, h) ==> IsRuneMintable(r, n, h)
    ensures IsRuneMintable(r, n, h) ==> (IsRuneMintable(r, m, h) <==> r.termsCap.None? || m < r.termsCap.value)
  {
  }

  lemma MintStep(tx: Tx, rune: RuneId, a: DbRune, n: nat, b: DbRune, m: nat)
    requires SameRune(a, b) && (IsRuneMintable(a, n, tx.loc.height) <==> IsRuneMintable(b, m, tx.loc.height))
    ensures MintRune(tx, rune, n, a) == MintRune(tx, rune, m, b)
    ensures MintInCenotaph(tx, rune, n, a) == MintInCenotaph(tx, rune, m, b)
  {
    hide IsRuneMintable;
  }

  lemma NoMintStep(tx: Tx, rune: RuneId, a: DbRune, n: nat)
    ensures !IsRuneMintable(a, n, tx.loc.height) ==>
              MintRune(tx, rune, n, a) == NoStep(tx) && MintInCenotaph(tx, rune, n, a) == NoStep(tx)
    ensures IsRuneMintable(a, n, tx.loc.height) ==>
              |MintRune(tx, rune, n, a).entries| == 1 && |MintInCenotaph(tx, rune, n, a).entries| == 1
  {
    hide IsRuneMintable;
  }

  /** Whatever is forgotten, a mint takes its true step, or none at all where it is open. */
  lemma MintIsTrueUnlessOpen(s: State, a: Action, rune: RuneId, cenotaph: bool)
    requires IsMintAttempt(a, rune, cenotaph) && Enabled(s, a) && FlaggedHaveNoTerms(s.runes)
    ensures StepOf(s.tx, a) == TrueMint(s, rune, cenotaph) || (MintIsOpen(s, rune) && StepOf(s.tx, a) == NoStep(s.tx))
  {
    hide IsRuneMintable, MintCount, CenotaphMintCount, SameRune, FlaggedHaveNoTerms, MintRune, MintInCenotaph;
    var n, h := MintCount(s.hist, rune), s.tx.loc.height;
    if a == SkipMint(rune) {
      if CanBeFound(s, rune) {
        NoMintStep(s.tx, rune, s.runes[rune], n);
      }
    } else if rune != SELF_ID {
      var r := s.runes[rune];
      FlagOf(s.runes, rune);
      SameMintable(a.dbRune, r, a.totalMints, h);
      CountsAgree(r, n, a.totalMints, h);
      NoMintStep(s.tx, rune, a.dbRune, a.totalMints);
      if IsRuneMintable(r, n, h) <==> IsRuneMintable(r, a.totalMints, h) {
        MintStep(s.tx, rune, a.dbRune, a.totalMints, r, n);
      }
    }
  }

  lemma FlagOf(runes: map<RuneId, DbRune>, rune: RuneId)
    requires FlaggedHaveNoTerms(runes) && rune in runes
    ensures runes[rune].cenotaph ==> runes[rune].termsAmount.None?
  {
  }

  /** In every run a mint of a rune that was first to its name, and that no cenotaph has minted, takes its true step: it is never
      skipped, and it writes its row if and only if the true number of mints is below the cap and the windows are open. */
  lemma MintIsHonoured(start: map<RuneId, DbRune>, actions: seq<Action>, i: nat, rune: RuneId, cenotaph: bool)
    requires Legal(Init(start), actions) && FlaggedHaveNoTerms(start)
    requires i < |actions| && IsMintAttempt(actions[i], rune, cenotaph)
    requires var s := RunFrom(Init(start), actions[..i]); rune !in s.late && CenotaphMintCount(s.issued, rune) == 0
    ensures var s, t := RunFrom(Init(start), actions[..i]), RunFrom(Init(start), actions[..i + 1]);
            && StepOf(s.tx, actions[i]) == TrueMint(s, rune, cenotaph)
            && (rune in s.runes && rune != SELF_ID ==> !actions[i].SkipMint?)
            && (!cenotaph && rune != SELF_ID ==>
                  MintCount(t.hist, rune) == MintCount(s.hist, rune)
                  + if rune in s.runes && IsRuneMintable(s.runes[rune], MintCount(s.hist, rune), s.tx.loc.height) then 1 else 0)
  {
    hide Legal, RunFrom, IsRuneMintable, MintCount, CenotaphMintCount, FlaggedHaveNoTerms, SameRune, Apply, TrueMint, StepOf;
    LegalPrefix(Init(start), actions, i);
    RunKeepsFlags(start, actions[..i]);
    var s, a := RunFrom(Init(start), actions[..i]), actions[i];
    MintIsTrueUnlessOpen(s, a, rune, cenotaph);
    ClosedWithoutCenotaphs(s, rune);
    ActionCounts(s, a, rune);
    if rune in s.runes && rune != SELF_ID && !cenotaph {
      FlagOf(s.runes, rune);
      SameMintable(a.dbRune, s.runes[rune], a.totalMints, s.tx.loc.height);
    }
  }

  lemma ClosedWithoutCenotaphs(s: State, rune: RuneId)
    requires rune !in s.late && CenotaphMintCount(s.issued, rune) == 0
    ensures !MintIsOpen(s, rune)
  {
    hide MintCount, CenotaphMintCount;
  }

  // ----- When the outcome is open -----

  /** Two ways the mint can go, depending on what was evicted. */
  ghost predicate OutcomeIsOpen(s: State, rune: RuneId, cenotaph: bool) {
    exists a, b :: TwoWays(s, a, b, rune, cenotaph)
  }

  ghost predicate TwoWays(s: State, a: Action, b: Action, rune: RuneId, cenotaph: bool) {
    && IsMintAttempt(a, rune, cenotaph) && IsMintAttempt(b, rune, cenotaph) && Enabled(s, a) && Enabled(s, b)
    && StepOf(s.tx, a) != StepOf(s.tx, b)
  }

  /** What was evicted decides a mint if and only if the rune is mintable at its true count, and either it came late to its name
      in an earlier transaction or its cap is reached once the mints in cenotaphs are counted too. */
  lemma OutcomeIsOpenExactly(s: State, rune: RuneId, cenotaph: bool)
    requires FlaggedHaveNoTerms(s.runes)
    ensures OutcomeIsOpen(s, rune, cenotaph) <==> MintIsOpen(s, rune)
  {
    hide IsRuneMintable, MintCount, CenotaphMintCount, FlaggedHaveNoTerms, TrueMint, StepOf, Enabled, MintIsOpen;
    if OutcomeIsOpen(s, rune, cenotaph) {
      var a, b :| TwoWays(s, a, b, rune, cenotaph);
      MintIsTrueUnlessOpen(s, a, rune, cenotaph);
      MintIsTrueUnlessOpen(s, b, rune, cenotaph);
    }
    if MintIsOpen(s, rune) {
      var a, b := OpenHasTwoWays(s, rune, cenotaph);
      assert TwoWays(s, a, b, rune, cenotaph);
    }
  }

  lemma OpenHasTwoWays(s: State, rune: RuneId, cenotaph: bool) returns (a: Action, b: Action)
    requires MintIsOpen(s, rune)
    ensures TwoWays(s, a, b, rune, cenotaph)
  {
    hide IsRuneMintable, MintCount, CenotaphMintCount, MintRune, MintInCenotaph;
    var r, n, more := s.runes[rune], MintCount(s.hist, rune), CenotaphMintCount(s.issued, rune);
    a := if cenotaph then DoMintInCenotaph(rune, n, r) else DoMint(rune, n, r);
    NoMintStep(s.tx, rune, r, n);
    if rune in s.late && !JustEtched(s.tx, rune) {
      b := SkipMint(rune);
    } else {
      b := if cenotaph then DoMintInCenotaph(rune, n + more, r) else DoMint(rune, n + more, r);
      CountsAgree(r, n, n + more, s.tx.loc.height);
      NoMintStep(s.tx, rune, r, n + more);
    }
  }

  // ----- Edicts -----

  /** In every run an edict of a rune that was first to its name is never skipped, and one of a rune that does not exist always
      is. */
  lemma EdictIsFollowed(start: map<RuneId, DbRune>, actions: seq<Action>, i: nat, edict: Edict)
    requires Legal(Init(start), actions) && i < |actions| && IsEdictAttempt(actions[i], edict)
    requires edict.id !in RunFrom(Init(start), actions[..i]).late
    ensures var s := RunFrom(Init(start), actions[..i]);
            actions[i] == if CanBeFound(s, edict.id) then DoEdict(edict) else SkipEdict(edict)
  {
    hide Legal, RunFrom, Apply;
    LegalPrefix(Init(start), actions, i);
  }

  /** What was evicted decides an edict if and only if its rune came late to its name; it makes a difference if the transaction
      has any of it. */
  lemma EdictIsOpenExactly(start: map<RuneId, DbRune>, actions: seq<Action>, edict: Edict)
    requires Legal(Init(start), actions) && edict.id != SELF_ID
    ensures var s := RunFrom(Init(start), actions);
            && (Enabled(s, DoEdict(edict)) && Enabled(s, SkipEdict(edict)) <==> CameLaterHere(start, actions, edict.id))
            && (StepOf(s.tx, DoEdict(edict)) != StepOf(s.tx, SkipEdict(edict)) <==> edict.id in s.tx.inputs)
  {
    hide Legal, RunFrom, RunOrders, EdictOrders, CameLater;
    RunKeepsNames(start, actions);
    if edict.id in RunFrom(Init(start), actions).runes {
      LateExactly(start, actions, edict.id);
    }
  }

  ghost predicate CameLaterHere(start: map<RuneId, DbRune>, actions: seq<Action>, rune: RuneId) {
    rune in RunFrom(Init(start), actions).runes && CameLater(start, actions, rune)
  }

  // ----- A run whose outcome depends on evictions -----

  const ONCE := DbRune(RuneId(1, 1), 7, 0, Some(5), Some(1), None, None, None, None, 1, false)
  const ONE_RUNE: map<RuneId, DbRune> := map[RuneId(1, 1) := ONCE]
  const FIRST_TX := Location(2, 0, "t")
  const SECOND_TX := Location(2, 1, "u")

  /** A cenotaph mints a rune with a cap of one; the next transaction mints it too, on a count of `n`. */
  function TwoMints(n: nat): seq<Action> {
    [Begin(FIRST_TX, [], [], map[], None, 0), DoMintInCenotaph(RuneId(1, 1), 0, ONCE), DoEnd([]),
     Begin(SECOND_TX, [], [], map[], None, 0), DoMint(RuneId(1, 1), n, ONCE)]
  }

  const BURNED := State(
    [NewEntry(FIRST_TX, Some(5), RuneId(1, 1), None, None, None, Burn, 0)], [], [Issue(RuneId(1, 1), 5, CenotaphMint)],
    {}, {"t"}, ONE_RUNE, {}, NewTx(FIRST_TX, map[], map[], None, 0).(nextEvent := 1))

  lemma FirstTransaction()
    ensures var s := Init(ONE_RUNE);
            && Enabled(s, TwoMints(0)[0])
            && Enabled(Apply(s, TwoMints(0)[0]), TwoMints(0)[1])
            && Apply(Apply(s, TwoMints(0)[0]), TwoMints(0)[1]) == BURNED
  {
    hide CenotaphMintCount;
    var t := Apply(Init(ONE_RUNE), TwoMints(0)[0]);
    assert t.hist == [] && t.issued == [] && Gather([]) == map[];
    NoIssues(RuneId(1, 1));
  }

  lemma ClosedTransaction()
    ensures Enabled(BURNED, DoEnd([])) && Apply(BURNED, DoEnd([])) == BURNED
  {
    var step := AllocateRemaining(BURNED.tx, []);
    assert BURNED.hist + [] == BURNED.hist && BURNED.lost + [] == BURNED.lost && BURNED.issued + [] == BURNED.issued;
  }

  lemma SecondTransaction(n: nat)
    requires n <= 1
    ensures var a, b := TwoMints(n)[3], TwoMints(n)[4];
            && Enabled(BURNED, a) && Enabled(Apply(BURNED, a), b)
            && MintCount(Apply(Apply(BURNED, a), b).hist, RuneId(1, 1)) == if n == 0 then 1 else 0
  {
    hide StepOf, MintCount, CenotaphMintCount;
    var a, b := TwoMints(n)[3], TwoMints(n)[4];
    assert Gather([]) == map[];
    var s := Apply(BURNED, a);
    OneOf(BURNED.hist[0], BURNED.issued[0], RuneId(1, 1));
    OneCenotaphMint(BURNED.issued[0], RuneId(1, 1));
    ActionCounts(s, b, RuneId(1, 1));
  }

  /** Whether the second transaction mints depends on whether the count raised by the cenotaph is still cached. */
  lemma OutcomeDependsOnEviction()
    ensures Legal(Init(ONE_RUNE), TwoMints(0)) && MintCount(RunFrom(Init(ONE_RUNE), TwoMints(0)).hist, RuneId(1, 1)) == 1
    ensures Legal(Init(ONE_RUNE), TwoMints(1)) && MintCount(RunFrom(Init(ONE_RUNE), TwoMints(1)).hist, RuneId(1, 1)) == 0
  {
    hide Enabled, Apply, MintCount;
    FirstTransaction();
    ClosedTransaction();
    SecondTransaction(0);
    SecondTransaction(1);
    FiveActions(Init(ONE_RUNE), TwoMints(0));
    FiveActions(Init(ONE_RUNE), TwoMints(1));
  }

  lemma FiveActions(s: State, acts: seq<Action>)
    requires |acts| == 5
    requires var s1 := Apply(s, acts[0]); var s2 := Apply(s1, acts[1]); var s3 := Apply(s2, acts[2]); var s4 := Apply(s3, acts[3]);
             Enabled(s, acts[0]) && Enabled(s1, acts[1]) && Enabled(s2, acts[2]) && Enabled(s3, acts[3]) && Enabled(s4, acts[4])
    ensures Legal(s, acts)
    ensures RunFrom(s, acts) == Apply(Apply(Apply(Apply(Apply(s, acts[0]), acts[1]), acts[2]), acts[3]), acts[4])
  {
    hide Enabled, Apply;
    assert acts[..4] == DropLast(acts) && DropLast(acts[..4]) == acts[..3] && DropLast(acts[..3]) == acts[..2];
    assert DropLast(acts[..2]) == acts[..1] && DropLast(acts[..1]) == [];
    assert RunFrom(s, acts[..1]) == Apply(s, acts[0]) && Legal(s, acts[..1]);
    assert RunFrom(s, acts[..2]) == Apply(Apply(s, acts[0]), acts[1]) && Legal(s, acts[..2]);
    assert RunFrom(s, acts[..3]) == Apply(Apply(Apply(s, acts[0]), acts[1]), acts[2]) && Legal(s, acts[..3]);
    assert RunFrom(s, acts[..4]) == Apply(Apply(Apply(Apply(s, acts[0]), acts[1]), acts[2]), acts[3]) && Legal(s, acts[..4]);
  }

  // ----- A run in which the second rune of a name is missed or not -----

  const TWIN := Etching.Etching(None, Some(9), Some(7), None, None,
                                Some(Terms(Some(5), Some(1), (None, None), (None, None))), false)
  const ELDER := RuneId(2, 0)
  const YOUNGER := RuneId(2, 1)

  const THIRD_TX := Location(2, 2, "v")
  const SPENT := Outpoint("u", 0)

  /** Two transactions etch one name. */
  function Pair(): seq<Action> {
    [Begin(FIRST_TX, [], [], map[], None, 0), DoEtch(TWIN), DoEnd([ELDER]),
     Begin(SECOND_TX, [], [], map[0 := Some("a")], Some(0), 1), DoEtch(TWIN)]
  }

  /** And a third spends the premine of the second rune. */
  function Twins(): seq<Action> {
    Pair() + [DoEnd([YOUNGER])]
    + [Begin(THIRD_TX, [SPENT], [map[YOUNGER := [Balance(Some("a"), 9)]]], map[0 := Some("a")], Some(0), 1)]
  }

  ghost predicate IsElder(s: State) {
    && s.runes == map[ELDER := FromEtching(TWIN, FIRST_TX)] && s.late == {} && s.spent == {} && s.txIds == {"t"}
    && MintCount(s.hist, YOUNGER) == 0 && forall e :: e in s.hist ==> e.txId == "t"
  }

  lemma ElderIsEtched()
    ensures var s := Init(map[]);
            var t := Apply(s, Pair()[0]);
            var u := Apply(t, Pair()[1]);
            && Enabled(s, Pair()[0]) && Enabled(t, Pair()[1]) && Enabled(u, Pair()[2]) && IsElder(u) && u.tx.loc == FIRST_TX
  {
    hide MintCount;
    assert Gather([]) == map[];
    var u := Apply(Apply(Init(map[]), Pair()[0]), Pair()[1]);
    NoMints(u.hist, YOUNGER);
  }

  lemma ElderIsClosed(u: State)
    requires IsElder(u) && u.tx.loc == FIRST_TX
    ensures IsElder(Apply(u, DoEnd([ELDER]))) && Apply(u, DoEnd([ELDER])).tx.inputs == map[]
  {
    hide AllocateAll, MintCount, FromEtching;
    var rows := AllocateAll(u.tx, [ELDER]).0;
    AllocateAllAreRows(u.tx, [ELDER]);
    NoMints(rows, YOUNGER);
    MintCountAppend(u.hist, rows, YOUNGER);
    forall e | e in rows ensures e.txId == "t" {
      var i :| 0 <= i < |rows| && rows[i] == e;
    }
  }

  ghost predicate IsYounger(s: State) {
    && YOUNGER in s.runes && s.runes[YOUNGER] == FromEtching(TWIN, SECOND_TX) && s.late == {YOUNGER}
    && s.spent == {} && s.txIds == {"t", "u"} && MintCount(s.hist, YOUNGER) == 0
  }

  lemma YoungerIsEtched(v: State)
    requires IsElder(v) && v.tx.inputs == map[]
    ensures var w := Apply(v, Pair()[3]);
            var x := Apply(w, Pair()[4]);
            && Enabled(v, Pair()[3]) && Enabled(w, Pair()[4]) && IsYounger(x) && NothingAt(x.hist)
            && x.tx.inputs == map[YOUNGER := [Balance(None, 9)]] && x.tx.outputs == map[0 := Some("a")]
            && x.tx.pointer == Some(0) && x.tx.loc == SECOND_TX
  {
    hide MintCount, ReceivesAt;
    assert Gather([]) == map[];
    var w := Apply(v, Pair()[3]);
    assert HasName(w.runes, 7) by {
      assert w.runes[ELDER].name == 7;
    }
    var row := NewEntry(SECOND_TX, None, YOUNGER, None, None, None, Operation.Etching, 0);
    NoMints([row], YOUNGER);
    MintCountAppend(w.hist, [row], YOUNGER);
    forall r ensures ReceivesAt(w.hist + [row], SPENT, r) == [] {
      NoReceives(w.hist + [row], SPENT, r);
    }
    var x := Apply(w, Pair()[4]);
    assert x.hist == w.hist + [row];
    assert x.tx.inputs == map[YOUNGER := [] + [Balance(None, 9)]];
    assert [] + [Balance(None, 9)] == [Balance(None, 9)];
    assert x.txIds == {"t", "u"};
  }

  /** Nothing has been received at the outpoint. */
  ghost predicate NothingAt(hist: seq<Entry>) {
    forall r :: ReceivesAt(hist, SPENT, r) == []
  }

  /** The premine goes to the first output. */
  lemma PremineIsAllocated(tx: Tx)
    requires tx.inputs == map[YOUNGER := [Balance(None, 9)]] && tx.outputs == map[0 := Some("a")] && tx.pointer == Some(0)
    requires tx.loc == SECOND_TX
    ensures var rows := AllocateAll(tx, [YOUNGER]).0;
            |rows| == 1 && rows[0] == NewEntry(SECOND_TX, Some(9), YOUNGER, Some(0), Some("a"), None, Receive, tx.nextEvent)
  {
    var q := [Balance(None, 9)];
    assert DropLast([YOUNGER]) == [];
    assert Take(q, 0, 0).pieces == q;
    assert Sum(q, HeldBy(Anyone)) == 9 by {
      SumOne(q[0], HeldBy(Anyone));
    }
  }

  lemma YoungerIsClosed(x: State)
    requires IsYounger(x) && NothingAt(x.hist) && x.tx.loc == SECOND_TX
    requires x.tx.inputs == map[YOUNGER := [Balance(None, 9)]] && x.tx.outputs == map[0 := Some("a")] && x.tx.pointer == Some(0)
    ensures var y := Apply(x, DoEnd([YOUNGER]));
            && Enabled(x, DoEnd([YOUNGER])) && IsYounger(y) && y.tx.inputs == map[]
            && forall r :: ReceivesAt(y.hist, SPENT, r) == if r == YOUNGER then [Balance(Some("a"), 9)] else []
  {
    hide AllocateAll, MintCount, ReceivesAt, FromEtching;
    PremineIsAllocated(x.tx);
    var row := NewEntry(SECOND_TX, Some(9), YOUNGER, Some(0), Some("a"), None, Receive, x.tx.nextEvent);
    assert AllocateAll(x.tx, [YOUNGER]).0 == [row];
    NoMints([row], YOUNGER);
    MintCountAppend(x.hist, [row], YOUNGER);
    forall r ensures ReceivesAt(x.hist + [row], SPENT, r) == if r == YOUNGER then [Balance(Some("a"), 9)] else [] {
      OneReceivesAt(x.hist, row, r);
    }
  }

  lemma OneReceivesAt(hist: seq<Entry>, row: Entry, r: RuneId)
    ensures ReceivesAt(hist + [row], SPENT, r) ==
            ReceivesAt(hist, SPENT, r) + if IsReceiveAt(row, SPENT, r) then [Balance(row.address, row.Amount())] else []
  {
    assert DropLast(hist + [row]) == hist;
  }

  lemma ThirdBegins(y: State)
    requires IsYounger(y) && y.tx.inputs == map[]
    requires forall r :: ReceivesAt(y.hist, SPENT, r) == if r == YOUNGER then [Balance(Some("a"), 9)] else []
    ensures var z := Apply(y, Last(Twins()));
            && Enabled(y, Last(Twins())) && IsTwins(z)
  {
    hide MintCount, ReceivesAt, FromEtching;
    var part := map[YOUNGER := [Balance(Some("a"), 9)]];
    assert Gather([part]) == part by {
      var none: map<RuneId, seq<Balance>> := map[];
      assert DropLast([part]) == [];
      assert none.Keys + part.Keys == part.Keys;
      assert Extend(none, part)[YOUNGER] == [] + part[YOUNGER];
      assert [] + part[YOUNGER] == part[YOUNGER];
    }
  }

  ghost predicate IsTwins(z: State) {
    && YOUNGER in z.runes && z.runes[YOUNGER] == FromEtching(TWIN, SECOND_TX) && z.late == {YOUNGER}
    && MintCount(z.hist, YOUNGER) == 0 && z.tx.etching == None && z.tx.loc == THIRD_TX
    && z.tx.inputs == map[YOUNGER := [Balance(Some("a"), 9)]]
    && z.tx.outputs == map[0 := Some("a")] && z.tx.totalOutputs == 1
  }

  lemma TwinsAreLegal()
    ensures Legal(Init(map[]), Twins()) && IsTwins(RunFrom(Init(map[]), Twins()))
  {
    hide Enabled, Apply, IsTwins, IsElder, IsYounger, NothingAt, ReceivesAt;
    ElderIsEtched();
    var u := Apply(Apply(Init(map[]), Pair()[0]), Pair()[1]);
    ElderIsClosed(u);
    YoungerIsEtched(Apply(u, Pair()[2]));
    FiveActions(Init(map[]), Pair());
    var x := RunFrom(Init(map[]), Pair());
    YoungerIsClosed(x);
    LegalAppend(Init(map[]), Pair(), DoEnd([YOUNGER]));
    ThirdBegins(Apply(x, DoEnd([YOUNGER])));
    LegalAppend(Init(map[]), Pair() + [DoEnd([YOUNGER])], Last(Twins()));
  }

  /** The third transaction's mint of the second rune is honoured or skipped, and so is its edict: both ways are legal, and they
      write different rows. */
  lemma NameDependsOnEviction()
    ensures var start: map<RuneId, DbRune> := map[];
            var mint, edict := DoMint(YOUNGER, 0, FromEtching(TWIN, SECOND_TX)), Edict(YOUNGER, 4, 0);
            && Legal(Init(start), Twins() + [mint]) && MintCount(RunFrom(Init(start), Twins() + [mint]).hist, YOUNGER) == 1
            && Legal(Init(start), Twins() + [SkipMint(YOUNGER)])
            && MintCount(RunFrom(Init(start), Twins() + [SkipMint(YOUNGER)]).hist, YOUNGER) == 0
            && Legal(Init(start), Twins() + [DoEdict(edict)]) && Legal(Init(start), Twins() + [SkipEdict(edict)])
            && RunFrom(Init(start), Twins() + [DoEdict(edict)]).hist != RunFrom(Init(start), Twins() + [SkipEdict(edict)]).hist
  {
    hide Legal, RunFrom, StepOf, MintCount, RunesAfter, LateAfter, Twins;
    TwinsAreLegal();
    var z := RunFrom(Init(map[]), Twins());
    var mint, edict := DoMint(YOUNGER, 0, z.runes[YOUNGER]), Edict(YOUNGER, 4, 0);
    forall a | a in [mint, SkipMint(YOUNGER), DoEdict(edict), SkipEdict(edict)]
      ensures Legal(Init(map[]), Twins() + [a]) && RunFrom(Init(map[]), Twins() + [a]) == Apply(z, a)
    {
      LegalAppend(Init(map[]), Twins(), a);
    }
    ActionCounts(z, mint, YOUNGER);
    ActionCounts(z, SkipMint(YOUNGER), YOUNGER);
    FourMoved(z.tx);
  }

  /** An edict of four units for the only output writes a row. */
  lemma FourMoved(tx: Tx)
    requires tx.inputs == map[YOUNGER := [Balance(Some("a"), 9)]]
    requires tx.outputs == map[0 := Some("a")] && tx.totalOutputs == 1
    ensures |StepOf(tx, DoEdict(Edict(YOUNGER, 4, 0))).entries| > 0 && StepOf(tx, SkipEdict(Edict(YOUNGER, 4, 0))).entries == []
  {
  }
}
