/** What a transaction can carry (crates/ordinals/src/{etching,terms,edict,runestone,cenotaph,flaw,artifact}.rs). */
module Artifacts {
  import opened Basics

  datatype Terms = Terms(
    amount: Option<u128>, cap: Option<u128>,
    height: (Option<u64>, Option<u64>), offset: (Option<u64>, Option<u64>))

  const MAX_DIVISIBILITY: nat := 38
  const MAX_SPACERS: nat := 0x7FF_FFFF

  function OrZero(x: Option<nat>): nat {
    if x.Some? then x.value else 0
  }

  datatype Etching = Etching(
    divisibility: Option<u8>, premine: Option<u128>, rune: Option<u128>, spacers: Option<u32>,
    symbol: Option<char>, terms: Option<Terms>, turbo: bool)
  {
    /** `premine + cap * amount`, or nothing when that leaves u128. */
    function Supply(): Option<u128> {
      var cap := if terms.Some? then OrZero(terms.value.cap) else 0;
      var amount := if terms.Some? then OrZero(terms.value.amount) else 0;
      var total := OrZero(premine) + cap * amount;
      if cap * amount > U128_MAX || total > U128_MAX then None else Some(total)
    }
  }

  const RESERVED: u128 := 6402364363415443603228541259936211926

  /** The name of a rune etched without one. It always fits u128. */
  function Reserved(block: u64, tx: u32): u128 {
    RESERVED + (0x1_0000_0000 * block + tx)
  }

  datatype Edict = Edict(id: RuneId, amount: u128, output: u32)

  datatype Runestone = Runestone(edicts: seq<Edict>, etching: Option<Etching>, mint: Option<RuneId>, pointer: Option<u32>)

  datatype Flaw =
    | EdictOutput
    | EdictRuneId
    | InvalidScript
    | Opcode
    | SupplyOverflow
    | TrailingIntegers
    | TruncatedField
    | UnrecognizedEvenTag
    | UnrecognizedFlag
    | VarintFlaw

  datatype Cenotaph = Cenotaph(etching: Option<u128>, flaw: Option<Flaw>, mint: Option<RuneId>)

  datatype Artifact = CenotaphArtifact(cenotaph: Cenotaph) | RunestoneArtifact(runestone: Runestone)
}
