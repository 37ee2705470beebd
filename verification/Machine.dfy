/** The reference machine: the accounting of whole runs with no cache, no batching and no table. It looks at the complete
    history of ledger rows directly. `IndexCache` is shown to follow it, whatever its caches forget and whenever it flushes.
    A run is a sequence of actions; what the real program leaves open (hash map order, row order of a query, which runes it
    finds and how many mints it counts) is part of the action. */
module Machine {
  import opened Basics
  import opened Ledger
  import opened Artifacts
  import opened Transactions
  import opened Outputs

  datatype State = State(
    hist: seq<Entry>,              // every ledger row ever written
    lost: seq<Loss>,               // units that vanished without a row
    issued: seq<Issue>,            // units that came into being
    spent: set<Outpoint>,          // outpoints used as inputs
    txIds: set<string>,            // transactions begun
    runes: map<RuneId, DbRune>,    // runes known
    late: set<RuneId>,             // runes etched under a name that another rune had already
    tx: Tx)                        // the transaction being indexed

  datatype Action =
    | Begin(loc: Location, ins: seq<Outpoint>, parts: seq<map<RuneId, seq<Balance>>>,
            outputs: map<u32, Option<Address>>, first: Option<u32>, totalOutputs: u32)
    | SetPointer(pointer: u32)
    | DoEtch(etching: Etching)
    | DoEtchCenotaph(name: u128)
    | DoBurnInputs(order: seq<RuneId>)
    | DoMint(rune: RuneId, totalMints: nat, dbRune: DbRune)
    | DoMintInCenotaph(rune: RuneId, totalMints: nat, dbRune: DbRune)
    | DoEdict(edict: Edict)
    | SkipMint(rune: RuneId)       // a mint or an edict of a rune that is not found
    | SkipEdict(edict: Edict)
    | DoEnd(order: seq<RuneId>)

  const NOWHERE := Location(1, 0, "")

  /** Before the first transaction: an empty ledger and the runes the tables start with. */
  function Init(runes: map<RuneId, DbRune>): State {
    State([], [], [], {}, {}, runes, {}, NewTx(NOWHERE, map[], map[], None, 0))
  }

  function MintOne(rune: RuneId): Entry -> nat {
    (e: Entry) => if e.operation == Mint && e.rune == rune then 1 else 0
  }

  /** The true number of mints of a rune. */
  ghost function MintCount(hist: seq<Entry>, rune: RuneId): nat {
    Sum(hist, MintOne(rune))
  }

  function CenotaphMintOne(rune: RuneId): Issue -> nat {
    (i: Issue) => if i.origin == CenotaphMint && i.rune == rune then 1 else 0
  }

  /** The number of mints of a rune that cenotaphs burned at once. */
  ghost function CenotaphMintCount(issued: seq<Issue>, rune: RuneId): nat {
    Sum(issued, CenotaphMintOne(rune))
  }

  /** A stored rune may have lost its cenotaph flag, and nothing else. */
  predicate SameRune(a: DbRune, b: DbRune) {
    a == b || a == b.(cenotaph := false)
  }

  /** The rune and the count a mint is decided on. The count is never below the true number of mints, and above it by no more
      than the mints in cenotaphs, which the cached count sees and the stored one does not. For 0:0 it is the number of all
      mints that any rune has recorded under 0:0. */
  ghost predicate MintBasis(s: State, rune: RuneId, totalMints: nat, dbRune: DbRune) {
    if rune == SELF_ID then s.tx.etching == Some(dbRune) && totalMints == MintCount(s.hist, SELF_ID)
    else
      && rune in s.runes && SameRune(dbRune, s.runes[rune])
      && MintCount(s.hist, rune) <= totalMints <= MintCount(s.hist, rune) + CenotaphMintCount(s.issued, rune)
  }

  /** A lookup can find a rune that exists: in a cache, or in the table. */
  predicate CanBeFound(s: State, rune: RuneId) {
    if rune == SELF_ID then s.tx.etching.Some? else rune in s.runes
  }

  /** A lookup can fail for a rune that does not exist, and for one that came late to its name: the table has no room for it,
      so that it is found only while it is cached. */
  predicate CanBeMissed(s: State, rune: RuneId) {
    if rune == SELF_ID then s.tx.etching.None? else rune !in s.runes || rune in s.late
  }

  /** When a mint comes, the rune that its own transaction etched has just been put into the cache. */
  predicate JustEtched(tx: Tx, rune: RuneId) {
    tx.etching.Some? && tx.etching.value.id == rune
  }

  /** Transactions have ids of their own; an outpoint is spent at most once, and not before its transaction. */
  ghost predicate FreshSpend(spent: set<Outpoint>, txIds: set<string>, txId: string, ins: seq<Outpoint>) {
    && txId !in txIds
    && (forall o :: o in spent ==> o.txId != txId)
    && (forall i :: 0 <= i < |ins| ==> ins[i] !in spent && ins[i].txId != txId)
    && (forall i, j :: 0 <= i < j < |ins| ==> ins[i] != ins[j])
  }

  ghost predicate Enabled(s: State, a: Action) {
    match a
    case Begin(loc, ins, parts, _, _, _) =>
      s.tx.inputs == map[] && FreshSpend(s.spent, s.txIds, loc.txId, ins) && IsLookup(s.hist, ins, parts)
    case SetPointer(_) => true
    case DoEtch(_) => s.tx.loc.Id() !in s.runes
    case DoEtchCenotaph(_) => s.tx.loc.Id() !in s.runes
    case DoBurnInputs(order) => Enumerates(order, s.tx.inputs) && s.tx.nextEvent == 0
    case DoMint(rune, totalMints, dbRune) => MintBasis(s, rune, totalMints, dbRune)
    case DoMintInCenotaph(rune, totalMints, dbRune) => MintBasis(s, rune, totalMints, dbRune)
    case DoEdict(edict) => CanBeFound(s, edict.id)
    case SkipMint(rune) => CanBeMissed(s, rune) && !JustEtched(s.tx, rune)
    case SkipEdict(edict) => CanBeMissed(s, edict.id)
    case DoEnd(order) => Enumerates(order, s.tx.inputs)
  }

  /** The step a transaction takes. */
  function StepOf(tx: Tx, a: Action): Step
    requires !a.Begin?
  {
    match a
    case SetPointer(p) => Step(tx.(pointer := Some(p)), [], [], [])
    case SkipMint(_) => Step(tx, [], [], [])
    case SkipEdict(_) => Step(tx, [], [], [])
    case DoEtch(etching) => Etch(tx, etching)
    case DoEtchCenotaph(name) => EtchCenotaph(tx, name)
    case DoBurnInputs(order) => BurnInputs(tx, order)
    case DoMint(rune, totalMints, dbRune) => MintRune(tx, rune, totalMints, dbRune)
    case DoMintInCenotaph(rune, totalMints, dbRune) => MintInCenotaph(tx, rune, totalMints, dbRune)
    case DoEdict(edict) => MoveEdict(tx, edict)
    case DoEnd(order) => AllocateRemaining(tx, order)
  }

  /** The runes known after an action. */
  function RunesAfter(s: State, a: Action): map<RuneId, DbRune> {
    match a
    case DoEtch(etching) => s.runes[s.tx.loc.Id() := FromEtching(etching, s.tx.loc)]
    case DoEtchCenotaph(name) => s.runes[s.tx.loc.Id() := FromCenotaphEtching(name, s.tx.loc)]
    case _ => s.runes
  }

  function LateIf(s: State, rune: DbRune): set<RuneId> {
    if HasName(s.runes, rune.name) then s.late + {rune.id} else s.late
  }

  /** The runes that came late to their names. */
  function LateAfter(s: State, a: Action): set<RuneId> {
    match a
    case DoEtch(etching) => LateIf(s, FromEtching(etching, s.tx.loc))
    case DoEtchCenotaph(name) => LateIf(s, FromCenotaphEtching(name, s.tx.loc))
    case _ => s.late
  }

  function BeginState(s: State, loc: Location, ins: seq<Outpoint>, parts: seq<map<RuneId, seq<Balance>>>,
                      outputs: map<u32, Option<Address>>, first: Option<u32>, totalOutputs: u32): State {
    s.(spent := s.spent + (set o | o in ins),
       txIds := s.txIds + {loc.txId},
       tx := NewTx(loc, Gather(parts), outputs, first, totalOutputs))
  }

  function Apply(s: State, a: Action): State {
    if a.Begin? then
      BeginState(s, a.loc, a.ins, a.parts, a.outputs, a.first, a.totalOutputs)
    else
      var step := StepOf(s.tx, a);
      s.(hist := s.hist + step.entries, lost := s.lost + step.lost, issued := s.issued + step.issued,
         runes := RunesAfter(s, a), late := LateAfter(s, a), tx := step.tx)
  }

  /** The state after a run. */
  function RunFrom(s: State, actions: seq<Action>): State {
    if actions == [] then s else Apply(RunFrom(s, DropLast(actions)), Last(actions))
  }

  /** Every action of a run is enabled when it happens. */
  ghost predicate Legal(s: State, actions: seq<Action>) {
    actions == [] || (Legal(s, DropLast(actions)) && Enabled(RunFrom(s, DropLast(actions)), Last(actions)))
  }
}
