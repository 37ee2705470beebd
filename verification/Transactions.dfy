/** One transaction's steps as functions on values (src/db/cache/transaction_cache.rs, src/db/models/db_rune.rs).
    The class `TransactionCache` runs them in place. */
module Transactions {
  import opened Basics
  import opened Ledger
  import opened Moves
  import opened MoveLaws
  import opened Artifacts
  import opened Edicts
  import opened EdictLaws

  /** A row of the `runes` table. The printed names are in one-to-one correspondence with the rune numbers. */
  datatype DbRune = DbRune(
    id: RuneId, name: u128, premine: u128, termsAmount: Option<u128>, termsCap: Option<u128>,
    heightStart: Option<u64>, heightEnd: Option<u64>, offsetStart: Option<u64>, offsetEnd: Option<u64>,
    height: u64, cenotaph: bool)

  function FromEtching(etching: Etching, loc: Location): DbRune {
    var name := if etching.rune.Some? then etching.rune.value else Reserved(loc.height, loc.txIndex);
    var premine := if etching.premine.Some? then etching.premine.value else 0;
    match etching.terms
    case None => DbRune(loc.Id(), name, premine, None, None, None, None, None, None, loc.height, false)
    case Some(t) =>
      DbRune(loc.Id(), name, premine, t.amount, t.cap, t.height.0, t.height.1, t.offset.0, t.offset.1, loc.height, false)
  }

  function FromCenotaphEtching(rune: u128, loc: Location): DbRune {
    DbRune(loc.Id(), rune, 0, None, None, None, None, None, None, loc.height, true)
  }

  /** u64 addition as the release build does it. */
  function WrappingAdd(a: u64, b: u64): u64 {
    (a + b) % (U64_MAX + 1)
  }

  /** src/db/cache/utils.rs:274-311 */
  predicate IsRuneMintable(rune: DbRune, totalMints: nat, height: u64) {
    && !rune.cenotaph
    && rune.termsAmount.Some?
    && (rune.termsCap.Some? ==> totalMints < rune.termsCap.value)
    && (rune.heightStart.Some? ==> rune.heightStart.value <= height)
    && (rune.heightEnd.Some? ==> height <= rune.heightEnd.value)
    && (rune.offsetStart.Some? ==> WrappingAdd(rune.height, rune.offsetStart.value) <= height)
    && (rune.offsetEnd.Some? ==> height <= WrappingAdd(rune.height, rune.offsetEnd.value))
  }

  /** What one transaction holds while it is indexed. */
  datatype Tx = Tx(
    loc: Location, nextEvent: nat, etching: Option<DbRune>, pointer: Option<u32>,
    inputs: map<RuneId, seq<Balance>>, outputs: map<u32, Option<Address>>, totalOutputs: u32)

  /** Names are unique in the table. */
  predicate HasName(runes: map<RuneId, DbRune>, name: u128) {
    exists r :: r in runes && runes[r].name == name
  }

  function Queue(inputs: map<RuneId, seq<Balance>>, rune: RuneId): seq<Balance> {
    if rune in inputs then inputs[rune] else []
  }

  function AddInput(inputs: map<RuneId, seq<Balance>>, rune: RuneId, b: Balance): map<RuneId, seq<Balance>> {
    inputs[rune := Queue(inputs, rune) + [b]]
  }

  /** Units that leave the queues without a ledger row: ownerless pieces of a burning move, and what `clear()` drops. */
  datatype Fate = Unrecorded | Dropped

  datatype Loss = Loss(rune: RuneId, balance: Balance, fate: Fate)

  /** Units that come into being: premines, mints, and mints that a cenotaph burns at once. */
  datatype Origin = Premine | Minted | CenotaphMint

  datatype Issue = Issue(rune: RuneId, amount: nat, origin: Origin)

  /** The transaction after a step, the rows it wrote, and what it lost and issued. */
  datatype Step = Step(tx: Tx, entries: seq<Entry>, lost: seq<Loss>, issued: seq<Issue>)

  function LossWeight(rune: RuneId, who: Who): Loss -> nat {
    (l: Loss) => if l.rune == rune && who.Matches(l.balance.address) then l.balance.amount else 0
  }

  ghost function LossSum(lost: seq<Loss>, rune: RuneId, who: Who): nat {
    Sum(lost, LossWeight(rune, who))
  }

  function IssueWeight(rune: RuneId): Issue -> nat {
    (i: Issue) => if i.rune == rune then i.amount else 0
  }

  ghost function IssueSum(issued: seq<Issue>, rune: RuneId): nat {
    Sum(issued, IssueWeight(rune))
  }

  // ----- Steps -----

  function NewTx(loc: Location, inputs: map<RuneId, seq<Balance>>, outputs: map<u32, Option<Address>>,
                 first: Option<u32>, totalOutputs: u32): Tx {
    Tx(loc, 0, None, first, inputs, outputs, totalOutputs)
  }

  /** One row for each balance of one rune. */
  function BurnRows(loc: Location, rune: RuneId, q: seq<Balance>, ev: nat): (rows: seq<Entry>)
    ensures |rows| == |q|
  {
    seq(|q|, i requires 0 <= i < |q| => NewEntry(loc, Some(q[i].amount), rune, None, q[i].address, None, Burn, ev + i))
  }

  /** A cenotaph burns its inputs, rune after rune in the map's iteration order. */
  function BurnAll(loc: Location, inputs: map<RuneId, seq<Balance>>, order: seq<RuneId>, ev: nat): seq<Entry> {
    if order == [] then []
    else
      var rows := BurnAll(loc, inputs, DropLast(order), ev);
      rows + BurnRows(loc, Last(order), Queue(inputs, Last(order)), ev + |rows|)
  }

  function BurnInputs(tx: Tx, order: seq<RuneId>): Step {
    var rows := BurnAll(tx.loc, tx.inputs, order, tx.nextEvent);
    Step(tx.(inputs := map[], nextEvent := tx.nextEvent + |rows|), rows, [], [])
  }

  /** What a clear of the queue would drop. */
  function Dropping(rune: RuneId, q: seq<Balance>): (lost: seq<Loss>)
    ensures |lost| == |q|
  {
    seq(|q|, i requires 0 <= i < |q| => Loss(rune, q[i], Dropped))
  }

  /** What a final move loses: ownerless units it burned, and everything it left for `clear()`. */
  function LostBy(rune: RuneId, m: Move): seq<Loss> {
    [Loss(rune, Balance(None, m.unrecorded), Unrecorded)] + Dropping(rune, m.rest)
  }

  /** The end of a transaction, rune after rune: move everything to the pointer, then clear. */
  function AllocateAll(tx: Tx, order: seq<RuneId>): (seq<Entry>, seq<Loss>) {
    if order == [] then ([], [])
    else
      var (rows, lost) := AllocateAll(tx, DropLast(order));
      var rune := Last(order);
      var m := MoveBalance(tx.loc, tx.pointer, rune, Queue(tx.inputs, rune), tx.outputs, 0, tx.nextEvent + |rows|);
      (rows + m.Entries(), lost + LostBy(rune, m))
  }

  function AllocateRemaining(tx: Tx, order: seq<RuneId>): Step {
    var (rows, lost) := AllocateAll(tx, order);
    Step(tx.(inputs := map[], nextEvent := tx.nextEvent + |rows|), rows, lost, [])
  }

  function Etch(tx: Tx, etching: Etching): Step {
    var rune := FromEtching(etching, tx.loc);
    var inputs := if etching.premine.Some? then AddInput(tx.inputs, rune.id, Balance(None, etching.premine.value)) else tx.inputs;
    Step(tx.(etching := Some(rune), inputs := inputs, nextEvent := tx.nextEvent + 1),
         [NewEntry(tx.loc, None, rune.id, None, None, None, Operation.Etching, tx.nextEvent)],
         [], [Issue(rune.id, rune.premine, Premine)])
  }

  function EtchCenotaph(tx: Tx, name: u128): Step {
    var rune := FromCenotaphEtching(name, tx.loc);
    Step(tx.(etching := Some(rune), nextEvent := tx.nextEvent + 1),
         [NewEntry(tx.loc, None, rune.id, None, None, None, Operation.Etching, tx.nextEvent)], [], [])
  }

  function MintRune(tx: Tx, rune: RuneId, totalMints: nat, dbRune: DbRune): Step {
    if !IsRuneMintable(dbRune, totalMints, tx.loc.height) then
      Step(tx, [], [], [])
    else
      var amount := dbRune.termsAmount.value;
      Step(tx.(inputs := AddInput(tx.inputs, rune, Balance(None, amount)), nextEvent := tx.nextEvent + 1),
           [NewEntry(tx.loc, Some(amount), rune, None, None, None, Mint, tx.nextEvent)],
           [], [Issue(rune, amount, Minted)])
  }

  /** A mint in a cenotaph is burned at once: its only trace is a Burn row. */
  function MintInCenotaph(tx: Tx, rune: RuneId, totalMints: nat, dbRune: DbRune): Step {
    if !IsRuneMintable(dbRune, totalMints, tx.loc.height) then
      Step(tx, [], [], [])
    else
      var amount := dbRune.termsAmount.value;
      Step(tx.(nextEvent := tx.nextEvent + 1),
           [NewEntry(tx.loc, Some(amount), rune, None, None, None, Burn, tx.nextEvent)],
           [], [Issue(rune, amount, CenotaphMint)])
  }

  /** The rune an edict is about: 0:0 is the rune etched in this transaction. */
  function EdictRune(tx: Tx, edict: Edict): Option<RuneId> {
    if edict.id != SELF_ID then Some(edict.id)
    else if tx.etching.Some? then Some(tx.etching.value.id)
    else None
  }

  function MoveEdict(tx: Tx, edict: Edict): Step {
    var rune := EdictRune(tx, edict);
    if rune.None? || rune.value !in tx.inputs then
      Step(tx, [], [], [])
    else
      var q := tx.inputs[rune.value];
      var r := RunOrders(tx.loc, rune.value, q, tx.outputs, EdictOrders(edict, Total(q), tx.outputs, tx.totalOutputs), tx.nextEvent);
      Step(tx.(inputs := tx.inputs[rune.value := r.rest], nextEvent := tx.nextEvent + |r.entries|),
           r.entries, [Loss(rune.value, Balance(None, r.unrecorded), Unrecorded)], [])
  }

  /** Each rune once, in any order: a hash map's iteration order. */
  ghost predicate Enumerates(order: seq<RuneId>, inputs: map<RuneId, seq<Balance>>) {
    && (forall i, j :: 0 <= i < j < |order| ==> order[i] != order[j])
    && (forall r :: r in order <==> r in inputs)
  }
}
