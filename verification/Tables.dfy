/** The tables and what each statement does to them (src/db/mod.rs), and the rows waiting to be inserted
    (src/db/cache/db_cache.rs, src/db/cache/index_cache.rs:337-446). */
module Tables {
  import opened Basics
  import opened Ledger
  import opened Transactions

  datatype Supply = Supply(minted: nat, totalMints: nat, burned: nat, totalBurns: nat, totalOperations: nat)

  const NO_SUPPLY := Supply(0, 0, 0, 0, 0)

  function Plus(a: Supply, b: Supply): Supply {
    Supply(a.minted + b.minted, a.totalMints + b.totalMints, a.burned + b.burned, a.totalBurns + b.totalBurns,
           a.totalOperations + b.totalOperations)
  }

  /** SQL numerics are signed. */
  datatype Holding = Holding(balance: int, totalOperations: nat)

  datatype Tables = Tables(
    runes: map<RuneId, DbRune>,
    ledger: seq<Entry>,
    supply: map<(RuneId, u64), Supply>,
    balances: map<(RuneId, u64, Address), Holding>)

  datatype SupplyChange = SupplyChange(height: u64, change: Supply)

  datatype BalanceChange = BalanceChange(height: u64, amount: nat)

  type SupplyChanges = map<RuneId, SupplyChange>
  type BalanceChanges = map<(RuneId, Address), BalanceChange>

  /** Rows that have yet to be inserted. */
  datatype Pending = Pending(
    runes: seq<DbRune>, entries: seq<Entry>, supply: SupplyChanges, increases: BalanceChanges, deductions: BalanceChanges)

  const NOTHING_PENDING := Pending([], [], map[], map[], map[])

  // ----- Accumulating one ledger row -----

  /** What one row adds to the supply of its rune. */
  function RowSupply(e: Entry): Supply {
    match e.operation
    case Mint => Supply(e.Amount(), 1, 0, 0, 1)
    case Burn => Supply(0, 0, e.Amount(), 1, 1)
    case _ => Supply(0, 0, 0, 0, 1)
  }

  function AddSupply(m: SupplyChanges, e: Entry): SupplyChanges {
    if e.rune in m then m[e.rune := m[e.rune].(change := Plus(m[e.rune].change, RowSupply(e)))]
    else m[e.rune := SupplyChange(e.height, RowSupply(e))]
  }

  /** Send rows count as deductions, Receive rows as increases; a Burn row touches neither. */
  function AddBalance(m: BalanceChanges, e: Entry, op: Operation): BalanceChanges {
    if e.operation != op || e.address.None? then m
    else
      var k := (e.rune, e.address.value);
      if k in m then m[k := m[k].(amount := m[k].amount + e.Amount())]
      else m[k := BalanceChange(e.height, e.Amount())]
  }

  function AddEntry(p: Pending, e: Entry): Pending {
    Pending(p.runes, p.entries + [e], AddSupply(p.supply, e), AddBalance(p.increases, e, Receive), AddBalance(p.deductions, e, Send))
  }

  function SupplyFold(es: seq<Entry>): SupplyChanges {
    if es == [] then map[] else AddSupply(SupplyFold(DropLast(es)), Last(es))
  }

  function BalanceFold(es: seq<Entry>, op: Operation): BalanceChanges {
    if es == [] then map[] else AddBalance(BalanceFold(DropLast(es), op), Last(es), op)
  }

  /** The pending rows after some ledger rows since the last flush. */
  function PendingOf(runes: seq<DbRune>, es: seq<Entry>): Pending {
    Pending(runes, es, SupplyFold(es), BalanceFold(es, Receive), BalanceFold(es, Send))
  }

  lemma PendingAfter(runes: seq<DbRune>, es: seq<Entry>, e: Entry)
    ensures AddEntry(PendingOf(runes, es), e) == PendingOf(runes, es + [e])
  {
    assert DropLast(es + [e]) == es;
  }

  // ----- The statements -----

  predicate IsGreatest(m: u64, s: set<u64>) {
    m in s && forall x :: x in s ==> x <= m
  }

  lemma {:induction false} GreatestExists(s: set<u64>)
    requires s != {}
    ensures exists m :: IsGreatest(m, s)
  {
    var m :| m in s;
    var rest := s - {m};
    if rest == {} {
      assert s == {m};
      assert IsGreatest(m, s);
    } else {
      GreatestExists(rest);
      var k :| IsGreatest(k, rest);
      assert s == rest + {m};
      assert IsGreatest(if m <= k then k else m, s);
    }
  }

  function Greatest(s: set<u64>): (m: u64)
    requires s != {}
    ensures IsGreatest(m, s)
  {
    GreatestExists(s);
    var m :| IsGreatest(m, s);
    m
  }

  function SupplyHeights(t: map<(RuneId, u64), Supply>, rune: RuneId): set<u64> {
    set k | k in t && k.0 == rune :: k.1
  }

  /** `DISTINCT ON (rune_id) ... ORDER BY block_height DESC`, zero when there is no row. */
  function LatestSupply(t: map<(RuneId, u64), Supply>, rune: RuneId): (s: Supply)
    ensures SupplyHeights(t, rune) == {} ==> s == NO_SUPPLY
    ensures SupplyHeights(t, rune) != {} ==>
              var h := Greatest(SupplyHeights(t, rune)); (rune, h) in t && s == t[(rune, h)]
  {
    var hs := SupplyHeights(t, rune);
    if hs == {} then NO_SUPPLY else t[(rune, Greatest(hs))]
  }

  function BalanceHeights(t: map<(RuneId, u64, Address), Holding>, rune: RuneId, a: Address): set<u64> {
    set k | k in t && k.0 == rune && k.2 == a :: k.1
  }

  function LatestHolding(t: map<(RuneId, u64, Address), Holding>, rune: RuneId, a: Address): (s: Holding)
    ensures BalanceHeights(t, rune, a) == {} ==> s == Holding(0, 0)
    ensures BalanceHeights(t, rune, a) != {} ==>
              var h := Greatest(BalanceHeights(t, rune, a)); (rune, h, a) in t && s == t[(rune, h, a)]
  {
    var hs := BalanceHeights(t, rune, a);
    if hs == {} then Holding(0, 0) else t[(rune, Greatest(hs), a)]
  }

  /** src/db/mod.rs:142-216 */
  function InsertSupply(t: map<(RuneId, u64), Supply>, changes: SupplyChanges): map<(RuneId, u64), Supply> {
    var rows := set r | r in changes :: (r, changes[r].height);
    map k | k in t.Keys + rows :: if k in rows then Plus(LatestSupply(t, k.0), changes[k.0].change) else t[k]
  }

  /** src/db/mod.rs:218-282 */
  function InsertBalances(t: map<(RuneId, u64, Address), Holding>, changes: BalanceChanges, increase: bool):
      map<(RuneId, u64, Address), Holding> {
    var rows := set k | k in changes :: (k.0, changes[k].height, k.1);
    map k | k in t.Keys + rows ::
      if k in rows then
        var p := LatestHolding(t, k.0, k.2);
        var amount := changes[(k.0, k.2)].amount;
        Holding(if increase then p.balance + amount else p.balance - amount, p.totalOperations + 1)
      else t[k]
  }

  /** `ON CONFLICT (name) DO NOTHING`; the cenotaph column keeps its default. */
  function InsertRune(t: map<RuneId, DbRune>, r: DbRune): map<RuneId, DbRune> {
    if r.id in t || HasName(t, r.name) then t else t[r.id := r.(cenotaph := false)]
  }

  function InsertRunes(t: map<RuneId, DbRune>, rows: seq<DbRune>): map<RuneId, DbRune> {
    if rows == [] then t else InsertRune(InsertRunes(t, DropLast(rows)), Last(rows))
  }

  /** src/db/cache/db_cache.rs:39-91, in its order. */
  function Flushed(t: Tables, p: Pending): Tables {
    Tables(InsertRunes(t.runes, p.runes), t.ledger + p.entries, InsertSupply(t.supply, p.supply),
           InsertBalances(InsertBalances(t.balances, p.increases, true), p.deductions, false))
  }

  function LedgerWithout(es: seq<Entry>, hs: set<u64>): seq<Entry> {
    if es == [] then []
    else LedgerWithout(DropLast(es), hs) + if Last(es).height in hs then [] else [Last(es)]
  }

  /** The tables without the rows of some heights. */
  function Without(t: Tables, hs: set<u64>): Tables {
    Tables(map r | r in t.runes && t.runes[r].height !in hs :: t.runes[r],
           LedgerWithout(t.ledger, hs),
           map k | k in t.supply && k.1 !in hs :: t.supply[k],
           map k | k in t.balances && k.1 !in hs :: t.balances[k])
  }

  /** src/db/mod.rs:334-364 */
  function RollBack(t: Tables, height: u64): Tables {
    Without(t, {height})
  }
}
