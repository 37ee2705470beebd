# A verified model of the runes indexer

This project models the parts of the runes indexer in which money could go wrong, and proves that it does not, or says exactly
when it does. `dafny verify dfyconfig.toml` checks all of it.

**The accounting engine.** Transactions take owner-labelled balances off queues, move them to outputs, and write ledger rows.
Rows are folded into pending totals, cached by outpoint in a block map and an LRU cache, and flushed into cumulative tables
whenever a cache misses.

- `Machine` is the reference: a state machine over whole runs that looks at the complete history of ledger rows and knows no
  cache, batch or table. `Moves`, `Edicts` and `Transactions` are its steps; `MoveLaws`, `EdictLaws` and `TransactionLaws` are
  what a step keeps, and `RowLaws` says whom each of its rows names. Over whole runs: `Conservation` and `Owners` (no address
  ever loses a unit), `LedgerLaws` (conservation in terms of ledger rows and stored tables), `NameLaws` (which rune a name
  belongs to), `MintLaws` (which mints and edicts are honoured), `SupplyBounds` and `UncappedMints` (which runes stay within
  their supply), `Drops` and `TxDrops` (what a transaction drops, exactly).
- `Closings` and `Blocks` tie transactions as they come in to runs: which actions a transaction stands for, and, from its outputs
  and its artifact, where its edicts go and what it does not spend.
- `TransactionCaches`, `Databases`, `DbCaches` and `IndexCaches` are the program's own objects with their fields updated in
  place. `IndexCache` carries a ghost log of machine actions. The main theorem is the contract of `IndexBlock`: whatever an LRU
  cache forgets and whenever a flush is forced, a block extends a legal run by exactly the actions that the scripts of its
  transactions decipher to, in order, and afterwards the tables are a function of that run's ledger and every stored balance
  is what its address holds (`TablesTellTheRun`).
- `Tables`, `TableLaws`, `FlushCounts` and `RollBacks` are the statements as functions on tables, independence of flush points
  and the one field that depends on them, and roll-back as an inverse. `Restarts` is a new process over tables from which blocks
  were dropped, and what goes wrong when the running one keeps its caches.
- `Mempool` is the second edict engine, which takes from the other end; it pays every output the same.

**The runestone codec.** `Varints` (section 7.6 of DWARF version 5, restricted to u128), `RuneIds`, `Messages`, `Runestones` and
`RunestoneLaws`: from lists of script instructions to artifacts and back. `ProtocolNumbers` says what messages mean in bytes and
numbers alone, without the constants that reading and writing share.

**Numerals and schedules.** `Letters`, `RuneNames`, `SpacedNames`, `Sats` and `PgNumerics`.

What the program leaves open is open here too: the iteration order of a hash map, the order in which a query returns rows, what
an LRU cache evicts, and with it which runes are found and which count of mints is consulted, are arbitrary values a proof may
not choose.

## Where the code differs from what it says or suggests

The model follows the code.

- Amount 0 means "move everything", but the loop also stops when the running total equals the amount, so a zero piece in front
  makes it mean "move nothing" (`src/db/cache/utils.rs:221`). `TxDrops.TxDropsExactly` says exactly which transactions lose
  units that way, and how many; `TxDrops.ZeroPremineDropsTheMint` is one that does. No owned unit is ever lost
  (`Conservation.OwnersLoseNothing`).
- Ownerless pieces burned by a move leave no ledger row (`src/db/cache/utils.rs:208`, `src/db/cache/utils.rs:248`). The machine
  counts them as lost without a row, and conservation (`LedgerLaws.RunConserves`) accounts for them.
- Burn rows do not touch balance deductions (`src/db/cache/index_cache.rs:368-382`): a stored balance is received minus sent,
  that is, what is unspent and what was burned (`LedgerLaws.StoredBalanceIsHeld`).
- Mints in cenotaphs are Burn rows. The cached mint count sees them and the stored total does not
  (`src/db/cache/index_cache.rs:255-260`), so the count consulted can be too high by as many, never too low.
- No etching is refused for its name, but the statement that inserts runes ignores a rune whose name is taken
  (`src/db/mod.rs:127`): the second rune of a name lives in the cache only, and once it is evicted its mints and edicts are
  skipped (`MintLaws.NameDependsOnEviction`). The first rune of a name is always found.
- These are the two ways in which evictions decide a mint, and the second is the only one for an edict:
  `MintLaws.OutcomeIsOpenExactly` and `MintLaws.EdictIsOpenExactly` say exactly when.
- A missing cap means unlimited mints (`src/db/cache/utils.rs:285`), so the supply check of an etching bounds nothing then.
  `UncappedMints.SupplyBoundExactly` says which runes stay within their supply.
- A mint of id 0:0 is recorded under 0:0, and its cap is compared with the number of all mints that any runes have recorded there
  (`src/db/cache/index_cache.rs:323-332`). The bounds exclude that key.
- The statement that inserts runes omits the cenotaph column (`src/db/mod.rs:123-127`), so a cenotaph's rune read back from the
  table no longer says so; it has no terms and stays unmintable.
- The migration inserts rune 1:0 with the height of block 840000, so dropping that block deletes it for good
  (`RollBacks.UncommonGoodsIsDropped`).
- A reorganisation rolls the tables back and goes on with the same caches (`src/service.rs:166-180`). An outpoint that is still
  cached when its transaction is mined again ends up with every balance twice (`Restarts.MinedAgainDoubles`).
- Balance operation counts count flush sides, not operations (`FlushCounts.CountsFlushes`).
- The numeric decoder computes its last round in 16 bits, so at weight 32767 it reads 0 (`src/db/types/pg_numeric_u128.rs:59`);
  `PgNumerics.ServerNumbersAreRead` says when it reads what a server means. No number of 128 bits needs that weight.
- A degree with an hour of 6 or more can be accepted through wrap-around (`Sats.WrappedHour`).

## Integers

Amounts inside the engine are unbounded naturals, with `IndexCache.TablesRespectTheCaps` as the theorem about u128. The codec, the
names and the wire format have their widths written out: checked operations as such, unchecked ones (shifts of a u32 by more
than 31, degree products, block offsets of terms, powers in the wire format) as wrapping, as a release build does them.

## Model

| member | source | states |
|---|---|---|
| Moves.TakeBalances | src/db/cache/utils.rs:192-224 | the popping loop takes exactly the pieces, and leaves exactly the queue, of the move it stands for; the sum and the owned senders are those of the pieces |
| Moves.MoveRuneBalanceToOutput | src/db/cache/utils.rs:146-271 | one whole move against its meaning: queue left and ledger rows, in order, with consecutive event indices, whatever the receiver |
| MoveLaws.TakeCutsTheLine | src/db/cache/utils.rs:192-224 | what a move takes followed by what it leaves is the old line of owner-labelled units: nothing lost, relabelled or reordered |
| MoveLaws.TakeAll | src/db/cache/utils.rs:192-224 | amount 0 takes everything, except exactly when the first piece is empty: then it takes that piece only |
| MoveLaws.TakeTotal | src/db/cache/utils.rs:192-224 | how many units a move takes: the amount or all there is; for amount 0 everything, or nothing when a zero piece stands before a positive balance |
| MoveLaws.MoveTakesASegment | src/db/cache/utils.rs:192-224 | a move takes the first units of the line and leaves the others in order |
| MoveLaws.MoveIsFifo | src/db/cache/utils.rs:192-270 | first in, first out: Send or Burn rows carry exactly the owned labels of the segment taken, the Receive row comes first and carries its length, ownerless burned units leave no row |
| MoveLaws.MoveKeepsUnits | src/db/cache/utils.rs:146-271 | queued before = queued after + received + burned on a row + burned without a row |
| MoveLaws.MoveKeepsOwner | src/db/cache/utils.rs:146-271 | one owner's units: queued before = queued after + sent + burned |
| RowLaws.MoveRowsTell | src/db/cache/utils.rs:146-271 | every row of a move has the rune and the output of the order; with an address there it is received or sent to that address, without one an owner burns and nobody receives; one Receive row, first, exactly when units arrive, with their number |
| RowLaws.EdictRowsTell | src/db/cache/transaction_cache.rs:255-393 | every row of an edict is of its rune (0:0 being the rune etched here) and goes where the edict says: to its output, to eligible outputs if that is the output count, or burns |
| RowLaws.StepRowsTell | src/db/cache/transaction_cache.rs:79-393 | every row of every step: place in the chain, operation, rune, output, sender, receiver, and for mints the amount, in terms of the step and the outputs |
| Edicts.SortedKeysAscend | src/db/cache/transaction_cache.rs:311-312 | collected and sorted keys are all keys, strictly ascending |
| EdictLaws.RunIsFifo | src/db/cache/transaction_cache.rs:255-393 | the moves of an edict eat the line of units from the front, segment after segment, each labelling exactly its own |
| EdictLaws.RunRows | src/db/cache/transaction_cache.rs:255-393 | the rows of an edict are those of its moves in order |
| EdictLaws.SizesAreShares | src/db/cache/transaction_cache.rs:310-353 | how a balance is fragmented does not matter: with positive pieces, or no "everything" while something is left, sizes depend on the total only |
| EdictLaws.SplitEdict | src/db/cache/transaction_cache.rs:310-353 | output = output count: the i-th eligible output in ascending order gets U / len + (1 if i < U mod len) for amount 0, and min(a, what i outputs left) otherwise, whatever the fragmentation; no zero share turns into "everything" |
| EdictLaws.SplitIsExplicit | src/db/cache/transaction_cache.rs:317-336 | an even split hands out the whole balance |
| EdictLaws.LeftAfterIs | src/db/cache/transaction_cache.rs:338-351 | what i outputs of a apiece leave of U is max(0, U - i * a) |
| EdictLaws.RunKeepsUnits | src/db/cache/transaction_cache.rs:255-393 | an edict keeps the units of its rune |
| EdictLaws.RunKeepsOwner | src/db/cache/transaction_cache.rs:255-393 | an edict keeps every owner's units |
| EdictLaws.SingleEdict | src/db/cache/transaction_cache.rs:288-391 | any other edict gives its amount, or everything for amount 0, to the address of its output and to nobody else, burns when there is none, and leaves the rest queued |
| MoveLaws.ReceivedByMove | src/db/cache/utils.rs:146-271 | a move gives what it takes to its receiver and nothing to anybody else |
| TransactionLaws.MintableExactly | src/db/cache/utils.rs:274-311 | a rune etched with these terms is mintable exactly below its cap and inside both height windows; one etched in a cenotaph never is |
| TransactionLaws.NameIs | src/db/cache/transaction_cache.rs:131-182 | an etching stores its own name, or the one reserved for its place in the chain if it has none, by numbers |
| TransactionLaws.MintPaysItsTerms | src/db/cache/transaction_cache.rs:184-221 | a mint of an etched rune queues the amount of its terms, and a Mint row says so, exactly when it is mintable |
| TransactionLaws.EtchQueuesItsPremine | src/db/cache/transaction_cache.rs:131-160 | an etching appends one ownerless piece of its premine to the queue of its rune, if it has one, and changes no other queue |
| TransactionCaches.TransactionCache.ApplyCenotaphInputBurn | src/db/cache/transaction_cache.rs:79-97 | new state and rows of the burn of all inputs, for some order of the runes (a hash map's) |
| TransactionCaches.TransactionCache.AllocateRemainingBalances | src/db/cache/transaction_cache.rs:101-129 | new state and rows of the closing moves, for some order of the runes; afterwards no queue is left |
| TransactionCaches.TransactionCache.ApplyEtching | src/db/cache/transaction_cache.rs:131-160 | new state, stored rune and Etching row; a premine joins the queue without an owner |
| TransactionCaches.TransactionCache.ApplyCenotaphEtching | src/db/cache/transaction_cache.rs:162-182 | new state, unmintable rune and Etching row |
| TransactionCaches.TransactionCache.ApplyMint | src/db/cache/transaction_cache.rs:184-221 | a row exactly when the rune is mintable; then the amount joins the queue |
| TransactionCaches.TransactionCache.ApplyCenotaphMint | src/db/cache/transaction_cache.rs:223-253 | a Burn row exactly when the rune is mintable; no queue changes |
| TransactionCaches.TransactionCache.ApplyEdict | src/db/cache/transaction_cache.rs:255-393 | new state and rows for all shapes of edict, including 0:0, unknown runes, no eligible output and outputs beyond the last |
| TransactionLaws.BurnInputsBalanced | src/db/cache/transaction_cache.rs:79-97 | burning the inputs keeps every rune's and every owner's units |
| TransactionLaws.AllocateRemainingBalanced | src/db/cache/transaction_cache.rs:101-129 | the end of a transaction keeps every rune's and every owner's units, counting what is lost |
| TransactionLaws.EtchBalanced | src/db/cache/transaction_cache.rs:131-160 | an etching issues its premine and nothing else |
| TransactionLaws.MintBalanced | src/db/cache/transaction_cache.rs:184-221 | a mint issues its amount and nothing else |
| TransactionLaws.MintInCenotaphBalanced | src/db/cache/transaction_cache.rs:223-253 | what a cenotaph mint issues it burns |
| TransactionLaws.MoveEdictBalanced | src/db/cache/transaction_cache.rs:255-393 | an edict keeps every rune's and every owner's units, counting ownerless burns |
| Drops.EndReceives | src/db/cache/transaction_cache.rs:99-129 | what is left at the end goes to the address of the pointer and to nobody else: all of it unless the queue stalls |
| Closings.PointerStands | src/db/cache/index_cache.rs:132-145 | when the closing moves come, the pointer is the one the transaction set, or else its first eligible output, and its outputs are as they came in |
| Closings.EndCloses | src/db/cache/transaction_cache.rs:99-129 | for every rune and address: everything queued is received at the pointer and every owner sends what it had, or, if nobody is there, every owner burns what it had |
| Blocks.TransactionEndsAsTold | src/db/index.rs:87-147 | the same over any transaction of a legal run, in terms of its outputs and the artifact of its scripts: the rows at the end go to the output pointed to, eligible or not, or to the first that does not start with OP_RETURN; a cenotaph has nothing left |
| Blocks.EdictsGoAsTold | src/db/index.rs:129-131 | the i-th edict of the artifact is attempted i-th, on the outputs of the transaction, and each of its rows goes where that edict says |
| Blocks.TransactionWritesItsRows | src/db/index.rs:94-108 | all rows of a transaction carry its height, its index and its id, with event indices 0, 1, 2 and so on |
| Drops.EndDrops | src/db/cache/transaction_cache.rs:101-129 | the closing `clear()` drops units of a rune if and only if its queue starts with a zero piece and is not worth zero; then it drops all of it |
| TxDrops.TxDropsExactly | src/db/index.rs:87-147 | exactly what a transaction drops of a rune in any legal run: its whole mint, if it etched the rune with premine Some(0), minted it, and no edict moves it; nothing otherwise |
| TxDrops.RunDropsExactly | src/db/index.rs:87-147 | a whole run drops exactly the sum of what its transactions drop |
| TxDrops.ZeroPremineDropsTheMint | src/db/cache/utils.rs:219-223 | the failing case as a legal list of actions: premine Some(0) and a mint of the same rune in one transaction lose the five minted units although an output could receive them |
| Conservation.SpendAll | src/db/cache/utils.rs:31-82 | spending distinct unspent outpoints moves exactly their amounts into the input queues, for every rune and owner |
| Conservation.RunAccounts | src/db/index.rs:87-150 | in every run, for every rune: units issued = unspent + on Burn rows + lost without a row + queued |
| LedgerLaws.RunIsRecorded | src/db/cache/transaction_cache.rs:131-253 | in every run what was issued is what the tables say: the mints are the Mint rows, the mints in cenotaphs the ownerless Burn rows, the premine that of the stored rune |
| LedgerLaws.RunConserves | src/db/index.rs:87-150 | in every run, for every rune: stored premine + Mint rows + ownerless Burn rows = unspent + Burn rows + queued + ownerless units lost without a row |
| Conservation.OwnersLoseNothing | src/db/cache/transaction_cache.rs:101-129 | in every run no unit that has an owner is lost without a row: a queue never stalls in front of an owned piece |
| Conservation.RunConservesOwner | src/db/index.rs:87-150 | in every run, for every address and rune: received = sent + unspent + burned from it + queued, all of them naturals |
| LedgerLaws.StoredBalanceIsHeld | src/db/mod.rs:219-282 | between transactions the latest stored balance of an address is what it holds on unspent outpoints and what was burned from it, and so not negative |
| MintLaws.MintIsTrueUnlessOpen | src/db/cache/index_cache.rs:200-262 | whatever is forgotten, a mint, also in a cenotaph, takes the step it should take if the rune is found and its true number of mints counts, or none at all where its outcome is open |
| MintLaws.MintIsHonoured | src/db/cache/index_cache.rs:200-262 | in every run a mint of a rune that was first to its name and that no cenotaph has minted is never skipped, and writes its row if and only if its true number of mints is below the cap and its windows are open; a mint of 0:0 is decided on the number of all mints recorded under 0:0 |
| MintLaws.OutcomeIsOpenExactly | src/db/cache/index_cache.rs:287-333 | evictions decide the outcome of a mint, skips included, if and only if the rune is mintable at its true count, and either another rune etched its name earlier (and its etching is of an earlier transaction) or the mints in cenotaphs reach its cap |
| MintLaws.OutcomeDependsOnEviction | src/db/cache/index_cache.rs:255-260 | the failing case: two legal runs that differ in the count consulted only, one with a Mint row and one without |
| MintLaws.EdictIsFollowed | src/db/cache/index_cache.rs:264-285 | in every run an edict of a rune that was first to its name is never skipped, and one of a rune that does not exist always is |
| MintLaws.EdictIsOpenExactly | src/db/cache/index_cache.rs:264-307 | evictions decide whether an edict is followed if and only if another rune etched the name of its rune earlier, and this makes a difference exactly when the transaction has a queue of it |
| MintLaws.NameDependsOnEviction | src/db/cache/index_cache.rs:296-306 | the failing case: two etchings of one name, and a third transaction whose mint and whose edict of the second rune are followed or skipped, both in legal runs with different rows |
| NameLaws.LateExactly | src/db/index.rs:113-131 | the runes recorded as late to their names are exactly those etched when another rune had the name already |
| NameLaws.RunKeepsNames | src/db/mod.rs:83-140 | in every run each name in use has a rune that was not late to it, and only one if the tables start with distinct names |
| SupplyBounds.MintCap | src/db/cache/utils.rs:274-311 | in every run a rune with cap c has at most c Mint rows, and one without an amount has none |
| SupplyBounds.SupplyBound | src/db/cache/transaction_cache.rs:280-285 | in every run, at every moment, unspent + queued units of a rune with bounded mints are at most premine + cap * amount |
| SupplyBounds.EtchingSupplyIsMax | crates/ordinals/src/etching.rs:18-26 | the supply check of a deciphered etching is exactly that maximum, and below 2^128 |
| SupplyBounds.UncappedMintOverflows | src/db/cache/utils.rs:285 | any etching without a cap that can be minted at once: a legal run queues premine + amount, while the supply that was checked is the premine alone |
| UncappedMints.OneMintPassesTheCheck | crates/ordinals/src/etching.rs:18-26 | for every unlimited rune (an amount, no cap, windows that open) one mint takes premine + minted past the supply that was checked |
| UncappedMints.LimitedStaysBounded | src/db/cache/utils.rs:274-311 | in every run a rune that is not unlimited stays within premine + cap * amount |
| UncappedMints.UnlimitedPassesAnyBound | src/db/cache/utils.rs:274-311 | for every unlimited rune and every bound there is a legal run that passes it |
| UncappedMints.SupplyBoundExactly | src/db/cache/utils.rs:274-311 | an etched rune stays within its maximum supply in every legal run if and only if it is not unlimited |
| TableLaws.InsertSupplyConsistent | src/db/mod.rs:142-217 | the upsert of supply rows keeps them, at every height, the totals of all ledger rows up to that height |
| TableLaws.InsertBalancesConsistent | src/db/mod.rs:219-282 | the upsert of either side of the balances keeps them, at every height, what was received less what was sent up to that height |
| TableLaws.FlushIsConsistent | src/db/cache/db_cache.rs:39-91 | a flush keeps the cumulative tables a function of the ledger: one row for each rune (and address) and height with a ledger row, holding the totals up to that height |
| TableLaws.ConsistentIsUnique | src/db/mod.rs:142-282 | consistent tables are determined by their ledger, all fields of supply rows and all balances |
| TableLaws.FlushPointIndependence | src/db/cache/index_cache.rs:301-327 | wherever flushes are forced inside a block, runes, ledger, supply rows and balances end up as with a single flush at its end |
| FlushCounts.CountsFlushes | src/db/mod.rs:265-275 | the operation count after any flushes inside a block: the old count + flushes with a Receive row of the key + flushes with a Send row of it |
| FlushCounts.WaysOfFlushingAgree | src/db/mod.rs:265-275 | two ways of flushing a block leave the same balance rows, counts included, if and only if they flush either side of every key equally often |
| FlushCounts.OperationCountDependsOnFlushes | src/db/mod.rs:265-275 | the failing case: any two Receive rows of one address and rune in a block count once when flushed together and twice when not |
| TableLaws.LatestSupplyIsTotal | src/db/mod.rs:425-455 | the latest supply row is the total over the whole ledger |
| TableLaws.SupplyRowsTell | src/db/cache/index_cache.rs:337-446 | at each height a supply row has the amount on Mint rows and their number, the amount on Burn rows and their number, and the number of all rows of the rune, of the ledger up to that height; so has the latest one of the whole ledger |
| RollBacks.RollBackAllIs | src/scan/bitcoin.rs:23-27 | dropping a list of heights, in any order and with repetitions, removes exactly the rows of those heights |
| RollBacks.RollBackIsInverse | src/db/mod.rs:335-364 | blocks indexed, with flushes anywhere, then dropped in any order: all four tables are exactly as before if and only if they had no row at a dropped height |
| RollBacks.UncommonGoodsIsDropped | migrations/V1__runes.sql:26-35 | the failing case: the tables as shipped have rune 1:0 at height 840000, and dropping that block, whatever was indexed at the dropped heights, leaves them without it |
| RollBacks.RollBackIsConsistent | src/db/mod.rs:335-364 | a consistent database without any upward-closed set of its heights is consistent, so later totals restart correctly |
| Databases.Database.PgInsertRunes | src/db/mod.rs:83-140 | rows in order, a taken name inserts nothing |
| Databases.Database.PgRollBackBlock | src/db/mod.rs:335-364 | the four deletions of one height |
| Databases.Database.PgGetInputRuneBalances | src/db/mod.rs:457-535 | whatever order rows come back in: for each queried outpoint and rune exactly the balances received there, none filed elsewhere |
| DbCaches.DbCache.Flush | src/db/cache/db_cache.rs:39-91 | all five kinds of pending rows go into the tables, increases before deductions, and nothing stays pending |
| CacheLaws.LookupIsTransparent | src/db/cache/utils.rs:31-82 | block cache, then LRU cache, then a table that may lack this block's rows: the balances found at an outpoint are exactly those of all Receive rows ever written for it, whatever was evicted |
| CacheLaws.MergedIsFaithful | src/db/cache/utils.rs:84-102 | after a block is merged into the LRU cache every entry left is complete, whatever was evicted |
| CacheLaws.StoredCountIsTrue | src/db/mod.rs:425-455 | the stored mint total counts every Mint row flushed |
| CacheLaws.InsertStores | src/db/mod.rs:83-140 | an insertion of runes stores exactly the first row of each name that the table does not have yet, as it is but for the cenotaph flag |
| CacheLaws.EtchedIsStored | src/db/mod.rs:83-140 | the table and the rows to be inserted hold exactly the runes that were first to their names: a rune etched now joins them if and only if its name is free |
| Blocks.TxOutputs | src/db/index.rs:35-66 | exactly the outputs that do not start with OP_RETURN are eligible, with their addresses, and the first is the least of them |
| Outputs.GatherKeepsOrder | src/db/cache/utils.rs:70-80 | whatever order the maps are visited in, the queue of a rune is its balances at the first input, then at the second, and so on |
| IndexCaches.LruPut | src/db/cache/index_cache.rs:305 | after a `put` the entry is there and every other entry is unchanged or gone |
| IndexCaches.ExtendWith | src/db/cache/utils.rs:70-80 | extends the queue of every rune of one input, in whatever order the map is visited |
| IndexCaches.IndexCache.constructor | src/db/cache/index_cache.rs:50-76 | an index over tables without ledger rows is in step with the empty run |
| IndexCaches.IndexCache.Over | src/db/cache/index_cache.rs:50-76 | an index with empty caches over any tables that tell a run is in step with that run |
| IndexCaches.IndexCache.AddLedgerEntriesToDbCache | src/db/cache/index_cache.rs:337-446 | pending rows and the block's outputs grow by exactly these rows |
| IndexCaches.IndexCache.LookInCaches | src/db/cache/utils.rs:38-58 | each input is a hit in one of the caches, block cache first, or one recorded miss |
| IndexCaches.IndexCache.InputRuneBalances | src/db/cache/utils.rs:31-82 | the input queues are those of the complete history: per input and rune every balance ever received there, in the order of the inputs |
| IndexCaches.IndexCache.GetCachedRuneByRuneId | src/db/cache/index_cache.rs:287-307 | what is found is the rune; nothing is found only when there is none, or when it is not cached and came late to its name |
| IndexCaches.IndexCache.GetCachedRuneTotalMints | src/db/cache/index_cache.rs:309-333 | the count found is at least the true number of mints, and at most that number and the mints in cenotaphs; for 0:0 it is exactly the number of mints recorded under 0:0; nothing is found only when there is no mint |
| IndexCaches.IndexCache.BeginTransaction | src/db/cache/index_cache.rs:83-120 | the machine begins this transaction, with these inputs and outputs |
| IndexCaches.IndexCache.ApplyRunestone | src/db/cache/index_cache.rs:135-145 | sets the pointer exactly when there is one |
| IndexCaches.IndexCache.ApplyCenotaph | src/db/cache/index_cache.rs:147-156 | burns all inputs |
| IndexCaches.IndexCache.ApplyEtching | src/db/cache/index_cache.rs:158-176 | the machine etches exactly this rune, which caches and pending rows then know |
| IndexCaches.IndexCache.ApplyCenotaphEtching | src/db/cache/index_cache.rs:178-198 | the machine etches exactly this name |
| IndexCaches.IndexCache.ApplyMint | src/db/cache/index_cache.rs:200-230 | the machine attempts exactly this mint, on a count between the true number of mints and that number with the mints in cenotaphs, and so the cached count stays; skipped only when the rune does not exist or came late to its name |
| IndexCaches.IndexCache.ApplyCenotaphMint | src/db/cache/index_cache.rs:232-262 | the same for a cenotaph, whose mint is a Burn row and raises the cached count only |
| IndexCaches.IndexCache.ApplyEdict | src/db/cache/index_cache.rs:264-285 | the machine moves exactly this edict; skipped only when the rune does not exist or came late to its name |
| IndexCaches.IndexCache.EndTransaction | src/db/cache/index_cache.rs:123-126 | allocates what is left; no queue stays open |
| IndexCaches.IndexCache.MoveBlockOutputCacheToOutputCache | src/db/cache/utils.rs:84-102 | every LRU entry afterwards is an old one, a new one, or an old one extended by the new, and the block cache is empty |
| IndexCaches.IndexCache.IndexTransaction | src/db/index.rs:88-147 | one transaction makes the machine do exactly what its scripts decipher to, in the order begin, pointer or burn, etching, mint, edicts, end, whatever the caches have forgotten; it ends as told (what is left goes to the output pointed to, or to the first eligible one, or burns), its rows carry its height, index and id and count up from 0, and supplies that fit u128 still do |
| IndexCaches.IndexCache.IndexTransactions | src/db/index.rs:88-147 | the same for all transactions of a block, in order |
| IndexCaches.IndexCache.EndBlock | src/db/index.rs:148-153 | merges the outputs and flushes: all rows are in the tables, and the caches hold nothing that the tables do not |
| IndexCaches.IndexCache.IndexBlock | src/db/index.rs:69-166 | one block extends the run by exactly the actions of its transactions and ends with everything in the tables |
| IndexCaches.IndexCache.TablesTellTheRun | src/db/index.rs:69-166 | between blocks: the ledger is that of a legal run, the tables are functions of it, the latest supply row of a rune has the amounts and numbers of its Mint and Burn rows and the number of all its rows, every rune is conserved, and every stored balance is what its address holds unspent and what was burned from it |
| IndexCaches.IndexCache.TablesRespectTheCaps | src/db/index.rs:69-166 | between blocks: every cap is respected by the ledger and by the stored mint totals, and circulation of runes that can be minted out fits u128 |
| IndexCaches.IndexCache.MintsWereHonoured | src/db/index.rs:69-166 | every mint the index followed took its true step, and was not skipped, if its rune was first to its name and no cenotaph had minted it |
| IndexCaches.IndexCache.EdictsWereFollowed | src/db/index.rs:69-166 | every edict the index met was followed if its rune existed and was first to its name |
| IndexCaches.IndexCache.TableHasFirstRunes | src/db/index.rs:69-166 | between blocks the table has exactly the runes that no other rune preceded in their names |
| IndexCaches.IndexCache.TransactionsDropExactly | src/db/index.rs:87-147 | the latest transactions of the index dropped exactly the mints that stood behind a premine of zero of their own transaction |
| Restarts.Resume | src/db/cache/index_cache.rs:50-76 | a new process over the tables another index left between two blocks carries on that one's run |
| Restarts.DropBlocks | src/scan/bitcoin.rs:23-27 | the loop drops all heights of the range |
| Restarts.ResumeBefore | src/scan/bitcoin.rs:23-27 | a new process over tables from which all blocks from one on were dropped is in step with the run as it was before that block, provided no rune known from the start is of a dropped height |
| Restarts.KeptCacheIsFaithful | src/service.rs:166-168 | an LRU cache that is kept while blocks are dropped is right about the rest if and only if it holds nothing received in them |
| Restarts.MinedAgainDoubles | src/db/cache/utils.rs:89-96 | the failing case: an outpoint that is still cached and is mined again has every balance twice |
| Mempool.TakeBalances | src/mempool.rs:800-832 | the popping loop on a vector against its meaning |
| Mempool.MoveRuneBalanceToOutput | src/mempool.rs:755-877 | one whole move of the mempool engine against its meaning: vector left, entries, event indices |
| Mempool.CollectEdicts | src/mempool.rs:626-753 | one whole edict of the mempool engine, all shapes |
| Mempool.CollectedRowsTell | src/mempool.rs:626-877 | every row of a mempool edict is of its rune and goes where the edict says: to the address of an output, received or sent, or an owner burns |
| Mempool.MoveBackInOrder | src/mempool.rs:755-877 | rows count up, only the first can be a Receive row, there is one exactly when an address receives units, and it carries what left the queue |
| Mempool.EdictsInOrder | src/mempool.rs:626-877 | the event indices over any mempool edicts count up without a gap |
| Mempool.EdictsKeepOwners | src/mempool.rs:626-877 | over any mempool edicts, for every rune and address: queued before = queued after + sent + burned |
| Mempool.BackIsFrontReversed | src/mempool.rs:800-832 | popping from the back is popping from the front of the reversed vector |
| Mempool.EdictsAgree | src/mempool.rs:626-753 | one edict gives the same receipts and the same totals in both engines, from equal totals in positive pieces |
| Mempool.EnginesAgree | src/mempool.rs:626-877 | any sequence of edicts without 0:0 gives the same Receive rows in the same order and leaves the same totals in both engines, whatever the pieces and their order |
| Mempool.EdictsAgreeExactly | src/mempool.rs:626-877 | with any pieces of equal totals, zero or not: one edict gives the same receipts, and leaves the same totals if and only if it is not a burn of everything that a piece of zero stalls at one end only |
| Mempool.EnginesAgreeExactly | src/mempool.rs:626-877 | and so over any edicts without 0:0: the totals stay equal throughout if and only if no edict is such a burn, and then all receipts agree |
| Bits.OrAdds | crates/ordinals/src/varint.rs:25 | or-ing bits above a number adds them |
| Varints.EncodeToVec | crates/ordinals/src/varint.rs:3-9 | the shift loop appends the base-128 form, low groups first, bit 7 on all but the last |
| Varints.DecodeBuffer | crates/ordinals/src/varint.rs:11-33 | the loop with shifts and ors returns the value, the length, or the right one of its three errors, and no shift or or loses a bit |
| Varints.DecodeIsShort | crates/ordinals/src/varint.rs:11-33 | decoding reads between 1 and 19 bytes of the buffer and its value fits u128 |
| Varints.DecodeEncode | crates/ordinals/src/varint.rs:3-33 | every u128 followed by any bytes decodes to itself and its own length, at most 19 |
| Varints.DecodeIsCanonicalUnlessPadded | crates/ordinals/src/varint.rs:11-33 | the bytes read are the encoding of the value if and only if they do not end in a padding zero |
| Varints.IntegersOf | crates/ordinals/src/runestone.rs:237-248 | the loop reads all integers of a payload, or stops with the first error |
| Varints.IntegersOfEncodings | crates/ordinals/src/runestone.rs:237-248 | the concatenated encodings of any list read back as the list |
| RuneIds.DeltaInvertsNext | crates/ordinals/src/rune_id.rs:32-53 | the difference exists exactly in id order; adding it gives the later id if that id is valid; every successful step is the difference of its ends |
| RuneIds.SortIsStable | crates/ordinals/src/runestone.rs:172-173 | sorted by id, with the edicts of each id in their old order |
| RuneIds.StableSortIsUnique | crates/ordinals/src/runestone.rs:172-173 | only one sequence is sorted and stable, so any stable sort gives it |
| RuneIds.SortedChain | crates/ordinals/src/runestone.rs:175-184 | the differences of sorted edicts always exist: the `unwrap` cannot fail, for any edicts |
| RuneIds.ReadWrittenEdicts | crates/ordinals/src/runestone/message.rs:18-40 | written edicts read back without a flaw if and only if each is acceptable, and then as they were |
| RuneIds.WriteReadEdicts | crates/ordinals/src/runestone/message.rs:18-40 | for any integers: edicts read are acceptable and in id order, and a body without a flaw is what writing them gives |
| Messages.EdictsFromIntegers | crates/ordinals/src/runestone/message.rs:19-38 | the loop in steps of four returns the edicts up to the first flaw, and that flaw |
| Messages.FromPayload | crates/ordinals/src/runestone/message.rs:10-55 | the loop in steps of two returns fields, edicts and flaw of the payload's pairs and body |
| Messages.Take | crates/ordinals/src/runestone/tag.rs:28-50 | takes the first value if the conversion accepts it, else changes nothing; other tags are untouched and no empty queue stays |
| Messages.TakeTwo | crates/ordinals/src/runestone/tag.rs:28-50 | the same for two values |
| Messages.ScanWritten | crates/ordinals/src/runestone/message.rs:15-48 | pairs written are found again, and behind them what follows |
| Messages.ScanLosesNothing | crates/ordinals/src/runestone/message.rs:15-48 | every payload is its pairs followed by its body or half a pair |
| Messages.FieldsAreQueues | crates/ordinals/src/runestone/message.rs:47 | the map holds for each tag its values in order, and no empty queue |
| Messages.MessageDependsOnQueues | crates/ordinals/src/runestone/message.rs:10-55 | fields in any order that keeps the values of each tag in order give the same message |
| Messages.PairsCommute | crates/ordinals/src/runestone/message.rs:10-55 | neighbouring pairs of different tags can change places |
| Runestones.FindPayload | crates/ordinals/src/runestone.rs:198-235 | the joined pushes of the first output that starts with OP_RETURN and OP_13, or the flaw of its first other instruction |
| Runestones.PeelFlags | crates/ordinals/src/runestone/flag.rs:14-19 | taking the etching, terms and turbo flags off the flag word one after another reads each as it was in the whole word, and leaves exactly the flags that count as unrecognized |
| Runestones.TakeAll | crates/ordinals/src/runestone.rs:51-97 | the draining takes, in the order of the source, read each tag as if on its own and leave exactly the values not wanted |
| Runestones.DecipherMessage | crates/ordinals/src/runestone.rs:45-127 | the artifact by draining fields and flags is the meaning of the message: first flaw in order of precedence, fields per tag |
| Runestones.Decipher | crates/ordinals/src/runestone.rs:26-128 | the whole of `decipher` against its meaning, for every list of scripts |
| Runestones.EncodeEdicts | crates/ordinals/src/runestone.rs:175-184 | the loop over sorted edicts appends their integers; the difference is there each time |
| Runestones.Encipher | crates/ordinals/src/runestone.rs:130-196 | the whole of `encipher` against its meaning, for any runestone: script, fields in order, body, pushes |
| RunestoneLaws.PayloadOfEncipher | crates/ordinals/src/runestone.rs:186-235 | the payload comes back from the first runestone output, wherever it is, in one piece |
| RunestoneLaws.RoundTrip | crates/ordinals/src/runestone.rs:26-248 | decipher after encipher is the identity up to stably sorting the edicts by id, for every well-formed runestone and any other outputs |
| RunestoneLaws.RoundTripExactly | crates/ordinals/src/runestone.rs:26-248 | and for no other runestone: the round trip holds if and only if the runestone is well-formed for the output count |
| RunestoneLaws.DecipheredIsWellFormed | crates/ordinals/src/runestone.rs:26-128 | whatever the transaction, a runestone read from it has valid ascending edict ids, outputs and pointer in range, fields in range and a supply in u128 |
| RunestoneLaws.FixedPoint | crates/ordinals/src/runestone.rs:26-248 | a runestone that was read is written and read again unchanged, in any transaction with as many outputs |
| RunestoneLaws.UnknownOddTagIsIgnored | crates/ordinals/src/runestone.rs:110-127 | inserting a pair with an unknown odd tag anywhere changes nothing |
| RunestoneLaws.UnknownEvenTagMakesACenotaph | crates/ordinals/src/runestone.rs:110-120 | inserting one with an unknown even tag makes a cenotaph, with the flaw there was or that of the tag, and the same mint |
| ProtocolNumbers.NumberIsSpelled | crates/ordinals/src/varint.rs:11-33 | a number is read from a buffer if and only if the bytes read are 1 to 19 groups of seven bits, low first, all but the last marked, below 2^128, and its value is theirs |
| ProtocolNumbers.NumberFails | crates/ordinals/src/varint.rs:11-33 | exactly when reading fails, by bytes: a bit beyond bit 127, a nineteenth byte that goes on, or an end too early |
| ProtocolNumbers.WrittenNumberIsSpelled | crates/ordinals/src/varint.rs:3-9 | the bytes written for a number spell it |
| ProtocolNumbers.IntegersAreSpelled | crates/ordinals/src/runestone.rs:237-248 | a payload reads as these integers if and only if its bytes spell them one after the other |
| ProtocolNumbers.BodyGroups | crates/ordinals/src/runestone/message.rs:18-40 | the edicts read are the body in groups of four: block step, transaction step, amount, output |
| ProtocolNumbers.EveryPayloadSplits | crates/ordinals/src/runestone/message.rs:15-48 | every list of integers is pairs without the number 0 and, behind them, nothing, half a pair, or 0 and a body, so the laws by numbers cover every message |
| ProtocolNumbers.MessageByNumber | crates/ordinals/src/runestone/tag.rs:3-24 | the meaning of every message by numbers: cap is the first value under 8, amount that under 10, heights 12 and 14, offsets 16 and 18, rune 4, premine 6, divisibility 1, spacers 3, symbol 5, mint 20, pointer 22; bits 0, 1 and 2 of the value under 2 are etching, terms and turbo; flaws in their order |
| ProtocolNumbers.DecipheredByNumber | crates/ordinals/src/runestone.rs:26-128 | the whole of `decipher` by numbers: the first output that starts with 0x6A 0x5D speaks, with its joined pushes, the integers they spell and what these mean; any other instruction and any unreadable payload is a cenotaph with that flaw |
| ProtocolNumbers.EncipheredByNumber | crates/ordinals/src/runestone.rs:130-196 | the whole of `encipher` by numbers, for any runestone: 0x6A 0x5D, full pushes of 520 bytes and a last shorter one, and in them exactly the values of each number, then 0 and the groups of the sorted edicts |
| Letters.RankIsShortlex | crates/ordinals/src/rune.rs:114-160 | ranks are ordered as strings are, shorter first, then by dictionary |
| Letters.Spell | crates/ordinals/src/rune.rs:121-135 | the loop from the last letter, turned round, is the name |
| RuneNames.Display | crates/ordinals/src/rune.rs:114-139 | printing, including the name written out for the largest number |
| RuneNames.PrintIsName | crates/ordinals/src/rune.rs:116-119 | the name written out for 2^128 - 1 is its true name |
| RuneNames.FromStr | crates/ordinals/src/rune.rs:141-160 | the checked loop fails on range or character exactly as the rank of the letters ahead says |
| RuneNames.ParsePrint | crates/ordinals/src/rune.rs:114-160 | every u128 is the parse of its name |
| RuneNames.PrintParse | crates/ordinals/src/rune.rs:114-160 | a non-empty string of capitals parses exactly when its rank fits, and is then the name of its number |
| RuneNames.NameFails | crates/ordinals/src/rune.rs:141-160 | exactly why a string is rejected: capitals if they come after BCGDENLQRQWDSLRUGSNLBTMFIJAV, another character if an A in its place would parse, and otherwise the range is reported first |
| RuneNames.NamesAreOrdered | crates/ordinals/src/rune.rs:114-160 | n < m if and only if the name of n comes before that of m |
| RuneNames.NameLengths | crates/ordinals/src/rune.rs:13-42 | names of length k are exactly the numbers from step k - 1 to step k; there are none longer than 28 |
| RuneNames.ReservedNames | crates/ordinals/src/rune.rs:93-99 | reserved numbers belong to one id each and have names of 27 letters |
| RuneNames.NamesByNumber | crates/ordinals/src/rune.rs:6-44 | by numbers: 0 is A, 26 is AA, names are capitals, the first heights of the networks, and the reserved numbers |
| RuneNames.MinimumInInterval | crates/ordinals/src/rune.rs:59-87 | in the j-th twelfth of the unlock period the minimum lies above step 11 - j and at most at step 12 - j |
| RuneNames.MinimumByNumber | crates/ordinals/src/rune.rs:59-87 | at height 839999 + 17500 k the names of 13 - k letters unlock, all of them and none shorter |
| RuneNames.MinimumOutside | crates/ordinals/src/rune.rs:59-87 | before the unlock period the minimum is 99246114928149462, after it 0 |
| RuneNames.MinimumNeverRises | crates/ordinals/src/rune.rs:59-87 | on every network the minimum never rises over all u32 heights |
| Sats.EpochsAddUp | crates/ordinals/src/epoch.rs:8-58 | each table entry is the one before plus 210000 subsidies |
| Sats.EpochOfSat | crates/ordinals/src/epoch.rs:71-143 | the chain of comparisons finds the one epoch that encloses a sat |
| Sats.SatInBlock | crates/ordinals/src/sat.rs:21-52 | a sat lies in the block of its height, at its offset, below the subsidy |
| Sats.BlockOfSat | crates/ordinals/src/height.rs:11-20 | every block and offset below its subsidy are those of one sat |
| Sats.DecimalsAreUnique | crates/ordinals/src/sat.rs:200-220 | decimal notation names every sat once |
| Sats.FromDegreeOf | crates/ordinals/src/sat.rs:128-198 | the degree of a sat leads back to it |
| Sats.AcceptedDegrees | crates/ordinals/src/sat.rs:161-197 | an accepted degree is the degree of the sat it gives if and only if its hour is below 6 |
| Sats.DegreeByNumber | crates/ordinals/src/degree.rs:1-25 | a sat at some offset of the block at some height has hour height / 1260000, minute height mod 210000, second height mod 2016, and that offset |
| Sats.DegreeFails | crates/ordinals/src/sat.rs:161-197 | exactly why a degree is rejected: minute or second out of range, or no height at all with both |
| Sats.WrappedHour | crates/ordinals/src/sat.rs:161-177 | the failing case: 2147483648 degrees wrap around to sat 0 |
| Sats.FromName | crates/ordinals/src/sat.rs:112-126 | the loop fails on range or character in the order it meets them |
| Sats.SatNames | crates/ordinals/src/sat.rs:74-126 | names and sats belong together one to one, earlier sats having later names |
| Sats.NameFails | crates/ordinals/src/sat.rs:112-126 | exactly why a string is no name: its letters come after the name of sat 0, or another character follows letters that do not |
| Sats.LastNames | crates/ordinals/src/sat.rs:74-87 | the last sat is a, the one before b |
| PgNumerics.Encode | src/db/types/pg_numeric_u128.rs:12-36 | the division loop, reversal and byte writes give at most ten groups in wire form, and to a server the bytes are exactly the number: positive, without decimals |
| PgNumerics.Decode | src/db/types/pg_numeric_u128.rs:45-65 | the byte reads and the summing loop, wrapping at each step, give the total modulo 2^128, or nothing when bytes are missing |
| PgNumerics.NumericRoundTrip | src/db/types/pg_numeric_u128.rs:12-65 | every u128 survives, also when zero groups at the end are left out and the weight is kept |
| PgNumerics.WireStandsFor | src/db/types/pg_numeric_u128.rs:12-36 | what a server reads from the bytes, by count, weight, sign, scale and groups to the base 10000, is exactly +n with scale 0, for every u128 |
| PgNumerics.ServerNumbersAreRead | src/db/types/pg_numeric_u128.rs:45-65 | bytes that are a whole number below 2^128 to a server, in whatever form, read as that number, if and only if the weight is below 32767 or the number is 0 |
| PgNumerics.NothingOverflows | src/db/types/pg_numeric_u128.rs:57-64 | on the way every power and partial sum stays within u128 |
| SpacedNames.ParseSpaced | crates/ordinals/src/spaced_rune.rs:20-46 | the loop over letters and spacers against the reading of a string from the left, error by error |
| SpacedNames.DisplaySpaced | crates/ordinals/src/spaced_rune.rs:49-63 | a bullet behind every letter but the last whose bit is set |
| SpacedNames.BulletsStand | crates/ordinals/src/spaced_rune.rs:49-63 | in print U+2022 stands behind a letter that another follows if and only if the bit with the number of the letter is set, and nowhere else |
| SpacedNames.ParsePrintSpaced | crates/ordinals/src/spaced_rune.rs:17-63 | parsing what was printed gives the rune and the spacers between its letters |
| SpacedNames.SpacedFails | crates/ordinals/src/spaced_rune.rs:20-46 | exactly what every string parses to: the error of the first wrong character (neither capital nor spacer, a spacer ahead of every letter, a second spacer on one bit), a trailing spacer, the error of its capitals as a name, or that name with exactly the bits of its spacers |
| SpacedNames.PrintParseSpaced | crates/ordinals/src/spaced_rune.rs:17-63 | printing what any string parsed to gives the string with bullets for dots |

## Left out

- REST service, command line, configuration, ZMQ and RPC plumbing, scanning, logging, timing: input and output only.
- Mempool allocation of remainders and mempool minting: they differ from the block engine on purpose (no default pointer, no
  mints); only the movement of edicts is compared.
- Statement texts, parameter batches of 500 rows, connections and process exits: each statement is its effect on the tables. The
  exit on a second rune with one id is not part of this model; such a row is ignored here.
- Raw script bytes, the script builder and address decoding: scripts are instruction lists, an output's address is an input.
- Rune numbers, block hashes, timestamps and symbols of stored runes: they take no part in the accounting.
- Runs of an `IndexCache` with a roll-back inside: `RollBacks` is about the tables, `Restarts` about a new process over them and
  about what a kept cache does.
- Blocks whose transactions repeat an id, spend an outpoint twice or before its transaction: excluded by the chain itself.
- String splitting and number parsing of degrees and decimals, percentiles, charms, rarity, sat points: library behaviour,
  floating point, or easy.
- `Rune::commitment` and `is_reserved`: they would only add easy members.
- The first transaction of block 0, whose id would be 0:0: it is a coinbase without runes.
- Transactions with more than 2^32 - 1 outputs: the source's own conversion fails there.
- Mempool.EnginesAgree: compares receipts and totals, not Send rows, because the two engines take from different owners first.
