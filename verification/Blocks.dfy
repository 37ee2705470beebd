/** Transactions and blocks as they come in (src/db/index.rs:35-166), what the machine must do for them, and where a transaction
    leaves what it does not spend. */
module Blocks {
  import opened Basics
  import opened Ledger
  import opened Moves
  import opened Artifacts
  import opened Transactions
  import opened TransactionLaws
  import opened Outputs
  import opened Machine
  import opened TxRuns
  import opened Owners
  import opened Conservation
  import opened LedgerLaws
  import opened RowLaws
  import opened Closings
  import Runestones

  // ----- Transactions and blocks as they come in -----

  /** A script and the address it pays to on the network, if it has one. */
  datatype TxOut = TxOut(script: Runestones.Script, receiver: Option<Address>) {
    predicate OpReturn() {
      |script| > 0 && script[0] == Runestones.Op(Runestones.OP_RETURN)
    }
  }

  datatype TxData = TxData(index: u32, txId: string, inputs: seq<Outpoint>, outputs: seq<TxOut>) {
    function Scripts(): (scripts: seq<Runestones.Script>)
      ensures |scripts| == |outputs| && forall i :: 0 <= i < |scripts| ==> scripts[i] == outputs[i].script
    {
      seq(|outputs|, i requires 0 <= i < |outputs| => outputs[i].script)
    }
  }

  function LocationOf(height: u64, tx: TxData): Location {
    Location(height, tx.index, tx.txId)
  }

  /** The transactions have ids and indices of their own and spend no outpoint twice or early. */
  ghost predicate FreshBlock(height: u64, txs: seq<TxData>, spent: set<Outpoint>, txIds: set<string>, runes: set<RuneId>) {
    txs == [] ||
    (&& FreshSpend(spent, txIds, txs[0].txId, txs[0].inputs)
     && LocationOf(height, txs[0]).Id() !in runes + {SELF_ID}
     && |txs[0].outputs| <= U32_MAX
     && FreshBlock(height, txs[1..], spent + (set o | o in txs[0].inputs), txIds + {txs[0].txId},
                   runes + {LocationOf(height, txs[0]).Id()}))
  }

  /** The outputs that can receive runes, and the first of them. */
  ghost predicate AreEligible(outs: seq<TxOut>, eligible: map<u32, Option<Address>>, first: Option<u32>) {
    && (forall i: u32 :: i in eligible <==> i < |outs| && !outs[i].OpReturn())
    && (forall i: u32 :: i in eligible ==> eligible[i] == outs[i].receiver)
    && (first.None? <==> eligible == map[])
    && (first.Some? ==> first.value in eligible && forall i :: i in eligible ==> first.value <= i)
  }

  /** The eligible outputs of a transaction, its first one, and its output count (src/db/index.rs:35-66). */
  method TxOutputs(outs: seq<TxOut>) returns (eligible: map<u32, Option<Address>>, first: Option<u32>, total: u32)
    requires |outs| <= U32_MAX
    ensures total == |outs| && AreEligible(outs, eligible, first)
  {
    eligible, first, total := map[], None, |outs|;
    for i := 0 to |outs|
      invariant forall k: u32 :: k in eligible <==> k < i && !outs[k].OpReturn()
      invariant forall k: u32 :: k in eligible ==> eligible[k] == outs[k].receiver
      invariant first.None? <==> eligible == map[]
      invariant first.Some? ==> first.value in eligible && forall k :: k in eligible ==> first.value <= k
    {
      if !outs[i].OpReturn() {
        var k: u32 := i;
        eligible := eligible[k := outs[i].receiver];
        if first.None? {
          first := Some(k);
        }
      }
    }
  }

  // ----- What a transaction makes the machine do -----

  /** The pointer, etching, mint and edicts of a runestone; the burn, etching and mint of a cenotaph. */
  ghost predicate FollowsArtifact(r: TxRun, artifact: Option<Artifact>) {
    match artifact
    case None => r.head == [] && r.etch == [] && r.mint == [] && r.edicts == []
    case Some(RunestoneArtifact(rs)) =>
      && r.head == (if rs.pointer.Some? then [SetPointer(rs.pointer.value)] else [])
      && r.etch == (if rs.etching.Some? then [DoEtch(rs.etching.value)] else [])
      && IsMintOf(r.mint, rs.mint, false) && AreEdicts(r.edicts, rs.edicts)
    case Some(CenotaphArtifact(c)) =>
      && |r.head| == 1 && r.head[0].DoBurnInputs?
      && r.etch == (if c.etching.Some? then [DoEtchCenotaph(c.etching.value)] else [])
      && IsMintOf(r.mint, c.mint, true) && r.edicts == []
  }

  /** The actions are those of the transaction: its inputs, its outputs, and the artifact its scripts decipher to. */
  ghost predicate Follows(r: TxRun, height: u64, tx: TxData) {
    && |tx.outputs| <= U32_MAX
    && r.begin.Begin? && r.begin.loc == LocationOf(height, tx) && r.begin.ins == tx.inputs
    && r.begin.totalOutputs == |tx.outputs| && AreEligible(tx.outputs, r.begin.outputs, r.begin.first)
    && r.end.DoEnd?
    && FollowsArtifact(r, Runestones.DecipherOf(tx.Scripts()))
  }

  lemma FollowsIsShaped(r: TxRun, height: u64, tx: TxData)
    requires Follows(r, height, tx)
    ensures Shaped(r)
  {
    hide Runestones.DecipherOf, AreEligible;
  }

  // ----- Where what is left at the end goes -----

  /** The script does not start with OP_RETURN. */
  predicate CanReceive(out: TxOut) {
    |out.script| == 0 || out.script[0] != Runestones.Op(0x6A)
  }

  /** The first output from `i` on that can receive. */
  function FirstFrom(outs: seq<TxOut>, i: nat): Option<nat>
    requires i <= |outs|
    decreases |outs| - i
  {
    if i == |outs| then None else if CanReceive(outs[i]) then Some(i) else FirstFrom(outs, i + 1)
  }

  /** The output for what is left: the one a runestone points to, whether it can receive or not, or else the first that can. */
  ghost function Target(outs: seq<TxOut>, artifact: Option<Artifact>): Option<nat> {
    match artifact
    case Some(RunestoneArtifact(rs)) => if rs.pointer.Some? then Some(rs.pointer.value) else FirstFrom(outs, 0)
    case _ => FirstFrom(outs, 0)
  }

  /** The address that receives it, if there is one. */
  ghost function Payee(outs: seq<TxOut>, target: Option<nat>): Option<Address> {
    if target.Some? && target.value < |outs| && CanReceive(outs[target.value]) then outs[target.value].receiver else None
  }

  /** A row of the closing moves: its output is the target, and the address there receives, or is sent to; without one an owner
      burns. */
  ghost predicate GoesToTarget(e: Entry, target: Option<nat>, payee: Option<Address>) {
    if target.Some? && target.value <= U32_MAX && payee.Some? then GoesTo(e, target.value, payee.value) else IsBurned(e)
  }

  /** How the transaction that began in `s` ends: every owner's units, and those without an owner, go to the payee, or owners burn;
      a cenotaph has nothing left. */
  ghost predicate EndsAsTold(s: State, run: TxRun, outs: seq<TxOut>, artifact: Option<Artifact>)
    requires run.end.DoEnd?
  {
    var t, target := RunFrom(s, Opening(run)), Target(outs, artifact);
    var rows := StepOf(t.tx, run.end).entries;
    && RunFrom(s, run.All()).hist == t.hist + rows
    && (forall e :: e in rows ==> GoesToTarget(e, target, Payee(outs, target)))
    && Closes(t.tx, rows, Payee(outs, target))
    && (artifact.Some? && artifact.value.CenotaphArtifact? ==> rows == [])
  }

  lemma {:induction false} FirstFromIs(outs: seq<TxOut>, i: nat)
    requires i <= |outs|
    ensures FirstFrom(outs, i).None? <==> forall k :: i <= k < |outs| ==> !CanReceive(outs[k])
    ensures FirstFrom(outs, i).Some? ==>
              var f := FirstFrom(outs, i).value;
              i <= f < |outs| && CanReceive(outs[f]) && forall k :: i <= k < f ==> !CanReceive(outs[k])
    decreases |outs| - i
  {
    if i < |outs| {
      FirstFromIs(outs, i + 1);
    }
  }

  /** The machine's pointer and outputs are those of the transaction. */
  lemma ReceiverIsPayee(s: State, run: TxRun, h: u64, tx: TxData)
    requires Follows(run, h, tx)
    ensures var t, target := RunFrom(s, Opening(run)).tx, Target(tx.outputs, Runestones.DecipherOf(tx.Scripts()));
            && (t.pointer.Some? <==> target.Some?) && (t.pointer.Some? ==> t.pointer.value == target.value)
            && Receiver(t.outputs, t.pointer) == Payee(tx.outputs, target)
  {
    hide RunFrom, Opening, Runestones.DecipherOf;
    FollowsIsShaped(run, h, tx);
    PointerStands(s, run);
    FirstFromIs(tx.outputs, 0);
    EligibleIs(tx.outputs, run.begin.outputs, run.begin.first);
  }

  lemma EligibleIs(outs: seq<TxOut>, eligible: map<u32, Option<Address>>, first: Option<u32>)
    requires |outs| <= U32_MAX && AreEligible(outs, eligible, first)
    ensures forall i: u32 :: i in eligible <==> i < |outs| && CanReceive(outs[i])
    ensures forall i: u32 :: i in eligible ==> eligible[i] == outs[i].receiver
    ensures var f := FirstFrom(outs, 0); (first.Some? <==> f.Some?) && (first.Some? ==> first.value == f.value)
  {
    FirstFromIs(outs, 0);
  }

  lemma TransactionEndsAsTold(start: map<RuneId, DbRune>, history: seq<Action>, run: TxRun, h: u64, tx: TxData)
    requires Legal(Init(start), history + run.All()) && Follows(run, h, tx)
    ensures EndsAsTold(RunFrom(Init(start), history), run, tx.outputs, Runestones.DecipherOf(tx.Scripts()))
  {
    hide RunFrom, Legal, Runestones.DecipherOf, Closes, AllocateAll, Follows, Payee, Target, Opening;
    var s := RunFrom(Init(start), history);
    FollowsEnds(run, h, tx);
    RunAppend(Init(start), history, run.All());
    assert run.All() == Opening(run) + [run.end] by {
      OpeningThenEnd(run);
    }
    RunAppend(s, Opening(run), [run.end]);
    RunOne(RunFrom(s, Opening(run)), run.end);
    OpenIsSafe(start, history, Opening(run));
    ReceiverIsPayee(s, run, h, tx);
    var t := RunFrom(s, Opening(run)).tx;
    EndCloses(t, run.end.order);
    ClosingRowsTell(t, run.end.order);
    if Runestones.DecipherOf(tx.Scripts()).Some? && Runestones.DecipherOf(tx.Scripts()).value.CenotaphArtifact? {
      CenotaphEnds(s, run, h, tx);
    }
  }

  lemma OpeningThenEnd(run: TxRun)
    ensures run.All() == Opening(run) + [run.end]
  {
  }

  lemma FollowsEnds(run: TxRun, h: u64, tx: TxData)
    requires Follows(run, h, tx)
    ensures run.end.DoEnd? && |tx.outputs| <= U32_MAX
  {
    hide FollowsArtifact;
  }

  lemma OpenIsSafe(start: map<RuneId, DbRune>, history: seq<Action>, opening: seq<Action>)
    requires Legal(Init(start), history) && Legal(RunFrom(Init(start), history), opening)
    ensures QueuesOwned(RunFrom(RunFrom(Init(start), history), opening).tx)
  {
    hide RunFrom, Legal;
    RunAppend(Init(start), history, opening);
    RunIsOwnersSafe(start, history + opening);
    SafeQueues(RunFrom(Init(start), history + opening));
  }

  lemma CenotaphEnds(s: State, run: TxRun, h: u64, tx: TxData)
    requires Follows(run, h, tx) && Enabled(RunFrom(s, Opening(run)), run.end)
    requires var artifact := Runestones.DecipherOf(tx.Scripts()); artifact.Some? && artifact.value.CenotaphArtifact?
    ensures StepOf(RunFrom(s, Opening(run)).tx, run.end).entries == []
  {
    hide RunFrom, Runestones.DecipherOf, AreEligible, Opening;
    CenotaphIsEmptied(s, run);
    NothingAllocated(RunFrom(s, Opening(run)).tx, run.end.order);
  }

  // ----- Which rows are written -----

  /** Between two states the ledger grew by rows of this transaction, their event indices counting up from 0. */
  ghost predicate WroteRows(s: State, t: State, loc: Location) {
    s.hist <= t.hist && AreRows(t.hist[|s.hist|..], loc, 0)
  }

  lemma {:induction false} RowsCount(s: State, actions: seq<Action>)
    requires forall a :: a in actions ==> !a.Begin?
    ensures var t := RunFrom(s, actions);
            && s.hist <= t.hist && AreRows(t.hist[|s.hist|..], s.tx.loc, s.tx.nextEvent)
            && t.tx.loc == s.tx.loc && t.tx.nextEvent == s.tx.nextEvent + |t.hist| - |s.hist|
  {
    hide StepOf, AreRows;
    if actions == [] {
      NothingWritten(s.tx.loc, s.tx.nextEvent);
      assert s.hist[|s.hist|..] == [];
    } else {
      assert Last(actions) in actions;
      RowsCount(s, DropLast(actions));
      var t := RunFrom(s, DropLast(actions));
      var rows := StepOf(t.tx, Last(actions)).entries;
      StepRows(t.tx, Last(actions));
      RowsAppend(t.hist[|s.hist|..], rows, s.tx.loc, s.tx.nextEvent);
      assert (t.hist + rows)[|s.hist|..] == t.hist[|s.hist|..] + rows;
    }
  }

  lemma NothingWritten(loc: Location, ev: nat)
    ensures AreRows([], loc, ev)
  {
  }

  /** The rows of a transaction carry its height, its index and its id, and count up from 0. */
  lemma TransactionWritesItsRows(s: State, run: TxRun, h: u64, tx: TxData)
    requires Follows(run, h, tx)
    ensures WroteRows(s, RunFrom(s, run.All()), Location(h, tx.index, tx.txId))
  {
    hide RunFrom, AreRows, Follows, Shaped;
    FollowsIsShaped(run, h, tx);
    FollowsBegins(run, h, tx);
    var rest := run.head + run.etch + run.mint + run.edicts + [run.end];
    BeginThenRest(run);
    RunAppend(s, [run.begin], rest);
    RunOne(s, run.begin);
    BeginsAtZero(s, run.begin);
    RowsCount(Apply(s, run.begin), rest);
  }

  lemma FollowsBegins(run: TxRun, h: u64, tx: TxData)
    requires Follows(run, h, tx)
    ensures run.begin.Begin? && run.begin.loc == Location(h, tx.index, tx.txId)
  {
    hide FollowsArtifact, AreEligible;
  }

  lemma BeginThenRest(run: TxRun)
    requires Shaped(run)
    ensures var rest := run.head + run.etch + run.mint + run.edicts + [run.end];
            run.All() == [run.begin] + rest && forall a :: a in rest ==> !a.Begin?
  {
  }

  lemma BeginsAtZero(s: State, begin: Action)
    requires begin.Begin?
    ensures var t := Apply(s, begin); t.hist == s.hist && t.tx.nextEvent == 0 && t.tx.loc == begin.loc
  {
    hide Gather;
  }

  // ----- Where edicts go -----

  /** The i-th edict of a runestone moves with the outputs of the transaction: each of its rows is of its rune and goes where it
      says. */
  lemma EdictsGoAsTold(s: State, run: TxRun, h: u64, tx: TxData, rs: Runestone, i: nat)
    requires Follows(run, h, tx) && Runestones.DecipherOf(tx.Scripts()) == Some(RunestoneArtifact(rs)) && i < |rs.edicts|
    ensures |run.edicts| == |rs.edicts| && IsEdictAttempt(run.edicts[i], rs.edicts[i])
    ensures var t := RunFrom(s, [run.begin] + run.head + run.etch + run.mint + run.edicts[..i]).tx;
            && t.outputs == run.begin.outputs && t.totalOutputs == |tx.outputs| && t.loc == Location(h, tx.index, tx.txId)
            && (run.edicts[i] == DoEdict(rs.edicts[i]) ==>
                  forall e :: e in StepOf(t, run.edicts[i]).entries ==>
                      FollowsEdict(e, rs.edicts[i], run.begin.outputs, |tx.outputs|))
  {
    hide RunFrom, Runestones.DecipherOf, AreEligible, MoveEdict, FollowsEdict;
    FollowsIsShaped(run, h, tx);
    var part := TxRun(run.begin, run.head, run.etch, run.mint, run.edicts[..i], run.end);
    PointerStands(s, part);
    assert Opening(part) == [run.begin] + run.head + run.etch + run.mint + run.edicts[..i];
    EdictRowsTell(RunFrom(s, Opening(part)).tx, rs.edicts[i]);
  }
}
