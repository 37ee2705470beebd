/** Exactly what a transaction drops, and so what a whole run drops (src/db/cache/utils.rs:219-223,
    src/db/cache/transaction_cache.rs:99-129, src/db/index.rs:109-146). */
module TxDrops {
  import opened Basics
  import opened Ledger
  import opened Moves
  import opened MoveLaws
  import opened Artifacts
  import opened Edicts
  import opened Transactions
  import opened TransactionLaws
  import opened Outputs
  import opened Machine
  import opened Owners
  import opened Conservation
  import opened SupplyBounds
  import opened Drops
  import opened TxRuns

  // ----- The condition -----

  /** Some edict moves the rune, which has been etched in this transaction. */
  ghost predicate MovesRune(edicts: seq<Action>, rune: RuneId) {
    exists a :: a in edicts && a.DoEdict? && (a.edict.id == rune || a.edict.id == SELF_ID)
  }

  /** The transaction etches the rune with a premine of `Some(0)` and mints it as well. */
  ghost predicate MintsBehindZero(run: TxRun, rune: RuneId)
    requires Shaped(run)
  {
    && rune == run.begin.loc.Id()
    && (exists e :: run.etch == [DoEtch(e)] && e.premine == Some(0))
    && |run.mint| == 1 && run.mint[0].DoMint? && run.mint[0].rune == rune
    && IsRuneMintable(run.mint[0].dbRune, run.mint[0].totalMints, run.begin.loc.height)
  }

  /** What a transaction drops of a rune: the whole mint, if it mints behind a premine of zero and no edict moves the rune. */
  ghost function TxDrop(run: TxRun, rune: RuneId): nat
    requires Shaped(run)
  {
    if MintsBehindZero(run, rune) && !MovesRune(run.edicts, rune) then OrZero(run.mint[0].dbRune.termsAmount) else 0
  }

  // ----- The parts of a transaction -----

  lemma Parts(s: State, run: TxRun)
    ensures var s1 := Apply(s, run.begin);
            var s2 := RunFrom(s1, run.head);
            var s3 := RunFrom(s2, run.etch);
            var s4 := RunFrom(s3, run.mint);
            var s5 := RunFrom(s4, run.edicts);
            && RunFrom(s, run.All()) == Apply(s5, run.end)
            && (Legal(s, run.All()) <==>
                  && Enabled(s, run.begin) && Legal(s1, run.head) && Legal(s2, run.etch) && Legal(s3, run.mint)
                  && Legal(s4, run.edicts) && Enabled(s5, run.end))
  {
    hide RunFrom, Legal, Apply, Enabled;
    RunOne(s, run.begin);
    RunAppend(s, [run.begin], run.head);
    RunAppend(s, [run.begin] + run.head, run.etch);
    RunAppend(s, [run.begin] + run.head + run.etch, run.mint);
    RunAppend(s, [run.begin] + run.head + run.etch + run.mint, run.edicts);
    RunAppend(s, [run.begin] + run.head + run.etch + run.mint + run.edicts, [run.end]);
    RunOne(RunFrom(s, [run.begin] + run.head + run.etch + run.mint + run.edicts), run.end);
  }

  // ----- Nothing of an unknown rune -----

  lemma OwnedIsWorthSomething(q: seq<Balance>)
    ensures AllOwned(q) && q != [] ==> Total(q) > 0
  {
    if q != [] {
      assert Last(q) in q;
    }
  }

  /** A rune that nobody has etched is in no queue. */
  lemma UnknownIsNotQueued(start: map<RuneId, DbRune>, actions: seq<Action>, rune: RuneId)
    requires Legal(Init(start), actions) && rune != SELF_ID && rune !in RunFrom(Init(start), actions).runes
    requires AllOwned(Queue(RunFrom(Init(start), actions).tx.inputs, rune))
    ensures Queue(RunFrom(Init(start), actions).tx.inputs, rune) == []
  {
    hide Legal, RunFrom, IssuedAs, MintCount, RowSum, LossSum, Unspent, Total, Queue, AllOwned;
    var s := RunFrom(Init(start), actions);
    RunIsCounted(start, actions, rune);
    RunAccounts(start, actions, rune);
    IssuedSplit(s.issued, rune);
    OwnedIsWorthSomething(Queue(s.tx.inputs, rune));
  }

  // ----- The queue of one rune through a transaction -----

  lemma NothingDropped(s: State, a: Action, rune: RuneId)
    requires !a.DoEnd?
    ensures DroppedSum(Apply(s, a).lost, rune) == DroppedSum(s.lost, rune)
  {
    hide RunOrders, EdictOrders, IsRuneMintable, BurnAll, FromEtching, DroppedSum, RunesAfter, Gather;
    DroppedAppend([], [], rune);
    if !a.Begin? {
      var lost := StepOf(s.tx, a).lost;
      DroppedAppend(s.lost, lost, rune);
      if lost != [] {
        assert lost == [lost[0]];
        SumOne(lost[0], DropWeight(rune));
        OneUnrecorded(lost[0], rune);
      }
    }
  }

  lemma OneUnrecorded(l: Loss, rune: RuneId)
    requires l.fate == Unrecorded
    ensures DroppedSum([l], rune) == 0
  {
    SumOne(l, DropWeight(rune));
  }

  /** What does not change before the end, but for the queues, the pointer and the etching. */
  ghost predicate SameTx(s: State, t: State, rune: RuneId) {
    t.tx.loc == s.tx.loc && DroppedSum(t.lost, rune) == DroppedSum(s.lost, rune)
  }

  lemma HeadQueue(s: State, head: seq<Action>, rune: RuneId)
    requires head == [] || (|head| == 1 && (head[0].SetPointer? || head[0].DoBurnInputs?))
    ensures var t := RunFrom(s, head);
            && SameTx(s, t, rune) && t.runes == s.runes
            && (Queue(t.tx.inputs, rune) == Queue(s.tx.inputs, rune) || Queue(t.tx.inputs, rune) == [])
  {
    hide BurnAll, DroppedSum, Legal, Enabled;
    if head != [] {
      assert head == [head[0]];
      RunOne(s, head[0]);
      NothingDropped(s, head[0], rune);
    }
  }

  /** The balance an etching queues for the rune. */
  function Premined(etch: seq<Action>, loc: Location, rune: RuneId): seq<Balance> {
    if etch != [] && etch[0].DoEtch? && loc.Id() == rune && etch[0].etching.premine.Some? then
      [Balance(None, etch[0].etching.premine.value)]
    else []
  }

  lemma EtchQueue(s: State, etch: seq<Action>, rune: RuneId)
    requires etch == [] || (|etch| == 1 && (etch[0].DoEtch? || etch[0].DoEtchCenotaph?))
    ensures var t := RunFrom(s, etch);
            && SameTx(s, t, rune)
            && Queue(t.tx.inputs, rune) == Queue(s.tx.inputs, rune) + Premined(etch, s.tx.loc, rune)
            && (etch != [] ==> t.tx.etching.Some? && t.tx.etching.value.id == s.tx.loc.Id())
  {
    hide DroppedSum, FromEtching, Legal, Enabled;
    if etch != [] {
      assert etch == [etch[0]];
      RunOne(s, etch[0]);
      NothingDropped(s, etch[0], rune);
      if etch[0].DoEtch? {
        EtchedRune(etch[0].etching, s.tx.loc);
      }
    }
  }

  /** The balance a mint queues for the rune. */
  function MintedIn(mint: seq<Action>, height: u64, rune: RuneId): seq<Balance> {
    if mint != [] && mint[0].DoMint? && mint[0].rune == rune && IsRuneMintable(mint[0].dbRune, mint[0].totalMints, height) then
      [Balance(None, OrZero(mint[0].dbRune.termsAmount))]
    else []
  }

  lemma MintQueue(s: State, mint: seq<Action>, rune: RuneId)
    requires mint == [] || (|mint| == 1 && (mint[0].DoMint? || mint[0].DoMintInCenotaph? || mint[0].SkipMint?))
    ensures var t := RunFrom(s, mint);
            && SameTx(s, t, rune) && t.tx.etching == s.tx.etching
            && Queue(t.tx.inputs, rune) == Queue(s.tx.inputs, rune) + MintedIn(mint, s.tx.loc.height, rune)
  {
    hide DroppedSum, IsRuneMintable, Legal, Enabled;
    if mint != [] {
      assert mint == [mint[0]];
      RunOne(s, mint[0]);
      NothingDropped(s, mint[0], rune);
      if mint[0].DoMint? {
        MintableAmount(mint[0].dbRune, mint[0].totalMints, s.tx.loc.height);
      }
    }
  }

  /** A zero piece and one piece behind it: any move takes the zero piece away. */
  lemma ZeroLeavesFirst(loc: Location, rune: RuneId, q: seq<Balance>, outputs: map<u32, Option<Address>>, orders: seq<Order>, ev: nat)
    requires orders != [] && |q| == 2 && q[0].amount == 0
    ensures ZerosLast(RunOrders(loc, rune, q, outputs, orders, ev).rest)
  {
    hide MoveBalance, Move.Entries;
    var m := MoveBalance(loc, orders[0].output, rune, q, outputs, orders[0].amount, ev);
    MoveRows(loc, orders[0].output, rune, q, outputs, orders[0].amount, ev);
    AtMostOneLeft(q, orders[0].amount);
    RunKeepsZerosLast(loc, rune, m.rest, outputs, orders[1..], ev + |m.Entries()|);
  }

  lemma AtMostOneLeft(q: seq<Balance>, amount: nat)
    requires |q| == 2 && q[0].amount == 0
    ensures |Take(q, amount, 0).rest| <= 1
  {
    if amount > 0 {
      TakeShortens(q[1..], amount, 0);
    }
  }

  lemma {:induction false} TakeShortens(q: seq<Balance>, amount: nat, sent: nat)
    requires amount == 0 || sent < amount
    ensures |Take(q, amount, sent).rest| <= |q|
  {
    if q != [] {
      var taken := if amount == 0 then q[0].amount else Min(q[0].amount, amount - sent);
      if taken == q[0].amount && sent + taken != amount {
        TakeShortens(q[1..], amount, sent + taken);
      }
    }
  }

  lemma SomeOrder(edict: Edict, unallocated: nat, outputs: map<u32, Option<Address>>, totalOutputs: u32)
    ensures EdictOrders(edict, unallocated, outputs, totalOutputs) != []
  {
    hide SortedKeys, SplitOrders, EqualOrders;
    assert |outputs.Keys| == |outputs|;
  }

  lemma EdictQueue(tx: Tx, edict: Edict, rune: RuneId)
    ensures var q, t := Queue(tx.inputs, rune), MoveEdict(tx, edict).tx;
            && t.loc == tx.loc && t.etching == tx.etching
            && (EdictRune(tx, edict) != Some(rune) ==> Queue(t.inputs, rune) == q)
            && (ZerosLast(q) ==> ZerosLast(Queue(t.inputs, rune)))
            && (EdictRune(tx, edict) == Some(rune) && |q| == 2 && q[0].amount == 0 ==> ZerosLast(Queue(t.inputs, rune)))
  {
    hide RunOrders, EdictOrders, ZerosLast, Total;
    var id := EdictRune(tx, edict);
    if id == Some(rune) && rune in tx.inputs {
      var q := tx.inputs[rune];
      var orders := EdictOrders(edict, Total(q), tx.outputs, tx.totalOutputs);
      SomeOrder(edict, Total(q), tx.outputs, tx.totalOutputs);
      if ZerosLast(q) {
        RunKeepsZerosLast(tx.loc, rune, q, tx.outputs, orders, tx.nextEvent);
      }
      if |q| == 2 && q[0].amount == 0 {
        ZeroLeavesFirst(tx.loc, rune, q, tx.outputs, orders, tx.nextEvent);
      }
    }
  }

  lemma {:induction false} EdictsQueue(s: State, acts: seq<Action>, rune: RuneId)
    requires rune != SELF_ID && forall a :: a in acts ==> a.DoEdict? || a.SkipEdict?
    ensures var q, t := Queue(s.tx.inputs, rune), RunFrom(s, acts);
            && SameTx(s, t, rune) && t.tx.etching == s.tx.etching
            && (ZerosLast(q) ==> ZerosLast(Queue(t.tx.inputs, rune)))
            && (!MovesRune(acts, rune) ==> Queue(t.tx.inputs, rune) == q)
            && (MovesRune(acts, rune) && s.tx.etching.Some? && s.tx.etching.value.id == rune && |q| == 2 && q[0].amount == 0 ==>
                  ZerosLast(Queue(t.tx.inputs, rune)))
  {
    hide MoveEdict, ZerosLast, Queue, DroppedSum, MovesRune;
    MovesSome(acts, rune);
    if acts != [] {
      var t, a := RunFrom(s, DropLast(acts)), Last(acts);
      assert a in acts;
      EdictsQueue(s, DropLast(acts), rune);
      NothingDropped(t, a, rune);
      if a.DoEdict? {
        EdictQueue(t.tx, a.edict, rune);
      }
    }
  }

  lemma MovesSome(acts: seq<Action>, rune: RuneId)
    ensures MovesRune(acts, rune) <==>
            acts != [] && (MovesRune(DropLast(acts), rune)
                           || (Last(acts).DoEdict? && (Last(acts).edict.id == rune || Last(acts).edict.id == SELF_ID)))
  {
    if acts != [] {
      assert acts == DropLast(acts) + [Last(acts)];
    }
  }

  // ----- One transaction -----

  lemma OwnedThenMore(q: seq<Balance>, p: seq<Balance>, m: seq<Balance>)
    requires AllOwned(q) && |p| <= 1 && |m| <= 1
    requires p != [] && m != [] && p[0].amount == 0 ==> m[0].amount == 0
    ensures ZerosLast(q + p + m)
  {
    forall k | 0 <= k < |q| ensures q[k].amount > 0 {
      assert q[k] in q;
    }
  }

  /** The queue of a rune when the edicts begin. */
  lemma BeforeEdicts(start: map<RuneId, DbRune>, history: seq<Action>, run: TxRun, rune: RuneId)
    requires Legal(Init(start), history) && rune != SELF_ID && Shaped(run)
    requires Legal(RunFrom(Init(start), history), run.All())
    ensures var s := RunFrom(Init(start), history);
            var s4 := RunFrom(RunFrom(RunFrom(Apply(s, run.begin), run.head), run.etch), run.mint);
            var q := Queue(s4.tx.inputs, rune);
            && SameTx(Apply(s, run.begin), s4, rune) && s4.tx.loc == run.begin.loc
            && (run.etch != [] ==> s4.tx.etching.Some? && s4.tx.etching.value.id == run.begin.loc.Id())
            && (if MintsBehindZero(run, rune) then q == [Balance(None, 0), Balance(None, OrZero(run.mint[0].dbRune.termsAmount))]
                else ZerosLast(q))
  {
    hide RunFrom, Legal, Apply, Queue, IsRuneMintable, ZerosLast, AllOwned, DroppedSum, IsLookup, FreshSpend;
    var s := RunFrom(Init(start), history);
    Parts(s, run);
    var s1 := Apply(s, run.begin);
    var s2 := RunFrom(s1, run.head);
    var s3 := RunFrom(s2, run.etch);
    HeadQueue(s1, run.head, rune);
    EtchQueue(s2, run.etch, rune);
    MintQueue(s3, run.mint, rune);
    BeginQueue(start, history, run.begin, rune);
    var q := Queue(s2.tx.inputs, rune);
    var p, m := Premined(run.etch, run.begin.loc, rune), MintedIn(run.mint, run.begin.loc.height, rune);
    NothingQueuedOwned();
    if p != [] {
      RunOne(s2, run.etch[0]);
      assert run.etch == [run.etch[0]];
      assert q == [];
    }
    if MintsBehindZero(run, rune) {
      assert run.mint == [run.mint[0]];
    } else {
      NoDropWithoutZero(run, rune);
      OwnedThenMore(q, p, m);
    }
  }

  lemma NoDropWithoutZero(run: TxRun, rune: RuneId)
    requires Shaped(run) && !MintsBehindZero(run, rune)
    ensures var p, m := Premined(run.etch, run.begin.loc, rune), MintedIn(run.mint, run.begin.loc.height, rune);
            p == [] || m == [] || p[0].amount > 0
  {
    hide IsRuneMintable;
    if run.etch != [] {
      assert run.etch == [run.etch[0]];
    }
  }

  lemma BeginQueue(start: map<RuneId, DbRune>, history: seq<Action>, begin: Action, rune: RuneId)
    requires Legal(Init(start), history) && rune != SELF_ID && begin.Begin? && Enabled(RunFrom(Init(start), history), begin)
    ensures var s, t := RunFrom(Init(start), history), Apply(RunFrom(Init(start), history), begin);
            && t.tx.loc == begin.loc && t.runes == s.runes && t.lost == s.lost
            && AllOwned(Queue(t.tx.inputs, rune))
            && (rune !in s.runes ==> Queue(t.tx.inputs, rune) == [])
  {
    hide RunFrom, Legal, AllOwned, Queue, Gather, IsLookup, FreshSpend;
    var s := RunFrom(Init(start), history);
    RunIsOwnersSafe(start, history);
    SafeReceives(s);
    GatherOwned(s.hist, begin.ins, begin.parts, rune);
    RunAppend(Init(start), history, [begin]);
    RunOne(s, begin);
    if rune !in s.runes {
      UnknownIsNotQueued(start, history + [begin], rune);
    }
  }

  lemma SafeReceives(s: State)
    requires OwnersSafe(s)
    ensures ReceivesAreOwned(s.hist)
  {
  }

  lemma ZeroThen(m: nat)
    ensures var q := [Balance(None, 0), Balance(None, m)]; Total(q) == m && (Stalls(q) <==> m > 0)
  {
    assert [Balance(None, 0), Balance(None, m)] == [Balance(None, 0)] + [Balance(None, m)];
    SumOne(Balance(None, 0), HeldBy(Anyone));
    SumSnoc([Balance(None, 0)], Balance(None, m), HeldBy(Anyone));
  }

  /** A transaction drops exactly this much: a mint behind its own premine of zero that no edict moves, and nothing else. */
  lemma TxDropsExactly(start: map<RuneId, DbRune>, history: seq<Action>, run: TxRun, rune: RuneId)
    requires Legal(Init(start), history) && rune != SELF_ID && Shaped(run)
    requires Legal(RunFrom(Init(start), history), run.All())
    ensures var s := RunFrom(Init(start), history);
            DroppedSum(RunFrom(s, run.All()).lost, rune) == DroppedSum(s.lost, rune) + TxDrop(run, rune)
  {
    hide RunFrom, Legal, Queue, IsRuneMintable, ZerosLast, DroppedSum, Stalls, Total, AllocateRemaining, RunesAfter, BeginState;
    var s := RunFrom(Init(start), history);
    Parts(s, run);
    BeforeEdicts(start, history, run, rune);
    var s4 := RunFrom(RunFrom(RunFrom(Apply(s, run.begin), run.head), run.etch), run.mint);
    var s5 := RunFrom(s4, run.edicts);
    EdictsQueue(s4, run.edicts, rune);
    EndDrops(s5.tx, run.end.order, rune);
    DroppedAppend(s5.lost, AllocateRemaining(s5.tx, run.end.order).lost, rune);
    NothingDropped(s, run.begin, rune);
    if MintsBehindZero(run, rune) {
      ZeroThen(OrZero(run.mint[0].dbRune.termsAmount));
    }
    if ZerosLast(Queue(s5.tx.inputs, rune)) {
      ZerosLastNeverStalls(Queue(s5.tx.inputs, rune));
    }
  }

  // ----- Whole runs -----

  ghost function RunDrop(runs: seq<TxRun>, rune: RuneId): nat
    requires forall r :: r in runs ==> Shaped(r)
  {
    if runs == [] then 0 else RunDrop(DropLast(runs), rune) + (assert Last(runs) in runs; TxDrop(Last(runs), rune))
  }

  /** Any further transactions drop exactly what each of them drops. */
  lemma {:induction false} MoreDropsExactly(start: map<RuneId, DbRune>, history: seq<Action>, runs: seq<TxRun>, rune: RuneId)
    requires rune != SELF_ID && (forall r :: r in runs ==> Shaped(r))
    requires Legal(Init(start), history + Flat(runs))
    ensures DroppedSum(RunFrom(Init(start), history + Flat(runs)).lost, rune)
         == DroppedSum(RunFrom(Init(start), history).lost, rune) + RunDrop(runs, rune)
  {
    hide RunFrom, Legal, TxDrop, DroppedSum, Shaped, TxRun.All;
    if runs == [] {
      assert history + Flat(runs) == history;
    } else {
      var last, before := Last(runs), history + Flat(DropLast(runs));
      assert last in runs && history + Flat(runs) == before + last.All();
      RunAppend(Init(start), before, last.All());
      MoreDropsExactly(start, history, DropLast(runs), rune);
      TxDropsExactly(start, before, last, rune);
    }
  }

  /** A whole run drops exactly what its transactions drop: nothing, unless one of them mints behind its own premine of zero. */
  lemma RunDropsExactly(start: map<RuneId, DbRune>, runs: seq<TxRun>, rune: RuneId)
    requires rune != SELF_ID && (forall r :: r in runs ==> Shaped(r)) && Legal(Init(start), Flat(runs))
    ensures DroppedSum(RunFrom(Init(start), Flat(runs)).lost, rune) == RunDrop(runs, rune)
  {
    hide RunDrop, Legal, Shaped, Flat;
    assert [] + Flat(runs) == Flat(runs);
    NoRunDropsNothing(start, rune);
    MoreDropsExactly(start, [], runs, rune);
  }

  lemma NoRunDropsNothing(start: map<RuneId, DbRune>, rune: RuneId)
    ensures DroppedSum(RunFrom(Init(start), []).lost, rune) == 0
  {
  }

  // ----- A transaction that drops units -----

  const ZERO_PREMINE := Etching.Etching(None, Some(0), Some(7), None, None,
                                        Some(Terms(Some(5), Some(1), (None, None), (None, None))), false)
  const HERE := Location(1, 1, "t")
  const LOSER := TxRun(
    Begin(HERE, [], [], map[0 := Some("a")], Some(0), 1), [], [DoEtch(ZERO_PREMINE)],
    [DoMint(RuneId(1, 1), 0, FromEtching(ZERO_PREMINE, HERE))], [], DoEnd([RuneId(1, 1)]))

  lemma LoserIsLegal()
    ensures Legal(Init(map[]), LOSER.All())
  {
    hide Enabled, Apply, Legal, RunFrom;
    var s := Init(map[]);
    var t := Apply(s, LOSER.begin);
    var u := Apply(t, LOSER.etch[0]);
    var v := Apply(u, LOSER.mint[0]);
    LoserActs();
    RunOne(t, LOSER.etch[0]);
    RunOne(u, LOSER.mint[0]);
    NoActions(t);
    NoActions(v);
    Parts(s, LOSER);
  }

  lemma NoActions(s: State)
    ensures Legal(s, []) && RunFrom(s, []) == s
  {
  }

  lemma LoserActs()
    ensures var s := Init(map[]);
            var t := Apply(s, LOSER.begin);
            var u := Apply(t, LOSER.etch[0]);
            var v := Apply(u, LOSER.mint[0]);
            Enabled(s, LOSER.begin) && Enabled(t, LOSER.etch[0]) && Enabled(u, LOSER.mint[0]) && Enabled(v, LOSER.end)
  {
    hide MintCount, CenotaphMintCount;
    assert Gather([]) == map[];
    var u := Apply(Apply(Init(map[]), LOSER.begin), LOSER.etch[0]);
    NoMintedYet(u.hist, u.issued);
  }

  lemma NoMintedYet(hist: seq<Entry>, issued: seq<Issue>)
    requires forall e :: e in hist ==> e.operation == Operation.Etching
    requires forall i :: i in issued ==> i.origin == Premine
    ensures MintCount(hist, RuneId(1, 1)) == 0 && CenotaphMintCount(issued, RuneId(1, 1)) == 0
  {
    EtchingRowsAreNoMints(hist, RuneId(1, 1));
    NoIssuedMints(issued, RuneId(1, 1));
  }

  /** Etch with a premine of zero and mint the same rune in the same transaction: a legal run in which all five units minted are
      dropped, although the transaction has an output to receive them. */
  lemma ZeroPremineDropsTheMint()
    ensures Shaped(LOSER) && Legal(Init(map[]), LOSER.All()) && TxDrop(LOSER, RuneId(1, 1)) == 5
    ensures DroppedSum(RunFrom(Init(map[]), LOSER.All()).lost, RuneId(1, 1)) == 5
  {
    hide Legal, RunFrom, DroppedSum, Apply, Enabled;
    LoserIsLegal();
    assert LOSER.etch == [DoEtch(ZERO_PREMINE)];
    NoRunDropsNothing(map[], RuneId(1, 1));
    NoActions(Init(map[]));
    TxDropsExactly(map[], [], LOSER, RuneId(1, 1));
  }
}
