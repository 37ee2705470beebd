/** Ledger rows and the balances they come from (src/db/models/db_ledger_entry.rs,
    src/db/cache/input_rune_balance.rs, src/db/cache/transaction_location.rs). */
module Ledger {
  import opened Basics

  type Address = string

  datatype Outpoint = Outpoint(txId: string, vout: u32)

  datatype Location = Location(height: u64, txIndex: u32, txId: string) {
    function Id(): RuneId { RuneId(height, txIndex) }
  }

  /** A piece of balance and its previous owner. `None` means it was just minted or premined. */
  datatype Balance = Balance(address: Option<Address>, amount: nat)

  datatype Operation = Etching | Mint | Burn | Send | Receive

  datatype Entry = Entry(
    rune: RuneId, height: u64, txIndex: u32, eventIndex: nat, txId: string,
    output: Option<u32>, address: Option<Address>, receiver: Option<Address>,
    amount: Option<nat>, operation: Operation)
  {
    function Amount(): nat { if amount.Some? then amount.value else 0 }

    function Created(): Option<Outpoint> {
      if output.Some? then Some(Outpoint(txId, output.value)) else None
    }
  }

  function NewEntry(loc: Location, amount: Option<nat>, rune: RuneId, output: Option<u32>,
                    address: Option<Address>, receiver: Option<Address>, operation: Operation, ev: nat): Entry {
    Entry(rune, loc.height, loc.txIndex, ev, loc.txId, output, address, receiver, amount, operation)
  }

  /** Whose share of a balance is being counted. */
  datatype Who = Anyone | Nobody | Owner(address: Address) {
    predicate Matches(a: Option<Address>) {
      match this
      case Anyone => true
      case Nobody => a.None?
      case Owner(o) => a == Some(o)
    }
  }

  function HeldBy(who: Who): Balance -> nat {
    (b: Balance) => if who.Matches(b.address) then b.amount else 0
  }

  /** The part of a balance list that belongs to `who`. */
  function Held(q: seq<Balance>, who: Who): nat {
    Sum(q, HeldBy(who))
  }

  function Total(q: seq<Balance>): nat {
    Held(q, Anyone)
  }

  function RowWeight(op: Operation, rune: RuneId, who: Who): Entry -> nat {
    (e: Entry) => if e.operation == op && e.rune == rune && who.Matches(e.address) then e.Amount() else 0
  }

  /** The amount on the rows of one operation, one rune and one address (or all of them). */
  ghost function RowSum(es: seq<Entry>, op: Operation, rune: RuneId, who: Who): nat {
    Sum(es, RowWeight(op, rune, who))
  }

  lemma RowSumEmpty(op: Operation, rune: RuneId, who: Who)
    ensures RowSum([], op, rune, who) == 0
  {
  }

  lemma RowSumAppend(a: seq<Entry>, b: seq<Entry>, op: Operation, rune: RuneId, who: Who)
    ensures RowSum(a + b, op, rune, who) == RowSum(a, op, rune, who) + RowSum(b, op, rune, who)
  {
    SumAppend(a, b, RowWeight(op, rune, who));
  }

  lemma RowSumOther(es: seq<Entry>, op: Operation, rune: RuneId, who: Who)
    requires forall e :: e in es ==> e.rune != rune || e.operation != op
    ensures RowSum(es, op, rune, who) == 0
  {
    SumZero(es, RowWeight(op, rune, who));
  }
}
