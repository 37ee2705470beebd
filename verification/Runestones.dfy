/** Reading and writing runestones (crates/ordinals/src/runestone.rs, runestone/flag.rs). Scripts are lists of instructions. */
module Runestones {
  import opened Basics
  import opened Artifacts
  import opened RuneIds
  import opened Messages
  import opened Varints

  datatype Instruction = Op(code: u8) | PushBytes(bytes: seq<u8>) | Broken

  type Script = seq<Instruction>

  const OP_RETURN: u8 := 0x6A
  const MAGIC_NUMBER: u8 := 0x5D
  const MAX_STACK_ELEMENT_SIZE: nat := 520

  datatype Payload = Valid(bytes: seq<u8>) | Invalid(flaw: Flaw)

  // ----- Finding the payload -----

  predicate IsRunestone(script: Script) {
    |script| >= 2 && script[0] == Op(OP_RETURN) && script[1] == Op(MAGIC_NUMBER)
  }

  /** All pushes joined, or the first instruction that is not a push. */
  function Pushes(script: Script): Payload {
    if script == [] then Valid([])
    else
      match script[0]
      case Op(_) => Invalid(Opcode)
      case Broken => Invalid(InvalidScript)
      case PushBytes(bytes) =>
        match Pushes(script[1..])
        case Valid(rest) => Valid(bytes + rest)
        case Invalid(flaw) => Invalid(flaw)
  }

  /** The payload of the first output that is a runestone. */
  function PayloadOf(outputs: seq<Script>): Option<Payload> {
    if outputs == [] then None
    else if IsRunestone(outputs[0]) then Some(Pushes(outputs[0][2..]))
    else PayloadOf(outputs[1..])
  }

  function BytesThen(bytes: seq<u8>, p: Payload): Payload {
    match p
    case Valid(rest) => Valid(bytes + rest)
    case Invalid(flaw) => Invalid(flaw)
  }

  method JoinPushes(script: Script) returns (p: Payload)
    ensures p == Pushes(script)
  {
    var payload: seq<u8> := [];
    ghost var goal := Pushes(script);
    assert script[0..] == script && (goal.Valid? ==> [] + goal.bytes == goal.bytes);
    for i := 0 to |script|
      invariant goal == BytesThen(payload, Pushes(script[i..]))
    {
      assert script[i..][1..] == script[i + 1..];
      match script[i] {
        case Op(_) => return Invalid(Opcode);
        case Broken => return Invalid(InvalidScript);
        case PushBytes(bytes) =>
          ghost var rest := Pushes(script[i + 1..]);
          assert rest.Valid? ==> payload + (bytes + rest.bytes) == (payload + bytes) + rest.bytes;
          payload := payload + bytes;
      }
    }
    assert payload + [] == payload;
    return Valid(payload);
  }

  method FindPayload(outputs: seq<Script>) returns (p: Option<Payload>)
    ensures p == PayloadOf(outputs)
  {
    assert outputs[0..] == outputs;
    for i := 0 to |outputs|
      invariant PayloadOf(outputs) == PayloadOf(outputs[i..])
    {
      assert outputs[i..][1..] == outputs[i + 1..];
      if |outputs[i]| == 0 || outputs[i][0] != Op(OP_RETURN) {
        continue;
      }
      if |outputs[i]| == 1 || outputs[i][1] != Op(MAGIC_NUMBER) {
        continue;
      }
      var payload := JoinPushes(outputs[i][2..]);
      return Some(payload);
    }
    return None;
  }

  // ----- Flags -----

  const ETCHING_FLAG: u128 := 1
  const TERMS_FLAG: u128 := 2
  const TURBO_FLAG: u128 := 4

  function FlagSet(mask: u128, flags: u128): bool
    requires mask > 0
  {
    (flags / mask) % 2 == 1
  }

  /** Clears a flag, reporting whether it was set. The masks are powers of two. */
  method TakeFlag(mask: u128, flags: u128) returns (isSet: bool, flags': u128)
    requires mask > 0
    ensures isSet == FlagSet(mask, flags) && flags' == if isSet then flags - mask else flags
  {
    isSet := FlagSet(mask, flags);
    flags' := flags;
    if isSet {
      AtLeastTheMask(mask, flags);
      flags' := flags - mask;
    }
  }

  lemma AtLeastTheMask(mask: u128, flags: u128)
    requires mask > 0 && FlagSet(mask, flags)
    ensures flags >= mask
  {
  }

  // ----- What each field means -----

  function Whole(v: u128): Option<u128> { Some(v) }

  function ToU64(v: u128): Option<u64> { if v <= U64_MAX then Some(v) else None }

  function ToDivisibility(v: u128): Option<u8> { if v <= MAX_DIVISIBILITY then Some(v) else None }

  function ToSpacers(v: u128): Option<u32> { if v <= MAX_SPACERS then Some(v) else None }

  /** Unicode scalar values only. */
  function ToSymbol(v: u128): Option<char> {
    if v < 0xD800 || 0xE000 <= v < 0x11_0000 then Some(v as char) else None
  }

  function ToMint(block: u128, tx: u128): Option<RuneId> {
    if block > U64_MAX || tx > U32_MAX then None else New(block, tx)
  }

  function ToPointer(outputs: u32): u128 -> Option<u32> {
    (v: u128) => if v <= U32_MAX && v < outputs then Some(v as u32) else None
  }

  function ReadTerms(fields: Fields): Terms {
    Terms(Read(fields, TAG_AMOUNT, Whole), Read(fields, TAG_CAP, Whole),
          (Read(fields, TAG_HEIGHT_START, ToU64), Read(fields, TAG_HEIGHT_END, ToU64)),
          (Read(fields, TAG_OFFSET_START, ToU64), Read(fields, TAG_OFFSET_END, ToU64)))
  }

  function ReadFlags(fields: Fields): u128 {
    if Values(fields, TAG_FLAGS) == [] then 0 else Values(fields, TAG_FLAGS)[0]
  }

  function ReadEtching(fields: Fields): Option<Etching> {
    var flags := ReadFlags(fields);
    if !FlagSet(ETCHING_FLAG, flags) then None
    else
      Some(Etching(
        Read(fields, TAG_DIVISIBILITY, ToDivisibility), Read(fields, TAG_PREMINE, Whole), Read(fields, TAG_RUNE, Whole),
        Read(fields, TAG_SPACERS, ToSpacers), Read(fields, TAG_SYMBOL, ToSymbol),
        if FlagSet(TERMS_FLAG, flags) then Some(ReadTerms(fields)) else None,
        FlagSet(TURBO_FLAG, flags)))
  }

  /** Flags nobody asked for: without an etching the other flags are not looked at. */
  function LeftFlags(flags: u128): nat {
    if FlagSet(ETCHING_FLAG, flags) then flags - flags % 8 else flags
  }

  function Used<T>(fields: Fields, tag: u128, with: u128 -> Option<T>): nat {
    if Read(fields, tag, with).Some? then 1 else 0
  }

  function TermsUsed(fields: Fields, tag: u128): nat {
    if tag == TAG_CAP || tag == TAG_AMOUNT then Used(fields, tag, Whole)
    else if tag == TAG_HEIGHT_START || tag == TAG_HEIGHT_END || tag == TAG_OFFSET_START || tag == TAG_OFFSET_END then
      Used(fields, tag, ToU64)
    else 0
  }

  function EtchingUsed(fields: Fields, tag: u128, termed: bool): nat {
    if tag == TAG_DIVISIBILITY then Used(fields, tag, ToDivisibility)
    else if tag == TAG_PREMINE || tag == TAG_RUNE then Used(fields, tag, Whole)
    else if tag == TAG_SPACERS then Used(fields, tag, ToSpacers)
    else if tag == TAG_SYMBOL then Used(fields, tag, ToSymbol)
    else if termed then TermsUsed(fields, tag)
    else 0
  }

  /** How many values of a tag are taken. */
  function Consumed(outputs: u32, fields: Fields, tag: u128): nat {
    var flags := ReadFlags(fields);
    if tag == TAG_FLAGS then Used(fields, tag, Whole)
    else if tag == TAG_MINT then if ReadTwo(fields, TAG_MINT, ToMint).Some? then 2 else 0
    else if tag == TAG_POINTER then Used(fields, tag, ToPointer(outputs))
    else if FlagSet(ETCHING_FLAG, flags) then EtchingUsed(fields, tag, FlagSet(TERMS_FLAG, flags))
    else 0
  }

  ghost predicate LeftEvenTag(outputs: u32, fields: Fields) {
    exists t :: t in fields && t % 2 == 0 && |fields[t]| > Consumed(outputs, fields, t)
  }

  ghost function FlawOf(outputs: u32, m: Message): Option<Flaw> {
    var etching := ReadEtching(m.fields);
    if m.flaw.Some? then m.flaw
    else if etching.Some? && etching.value.Supply().None? then Some(SupplyOverflow)
    else if LeftFlags(ReadFlags(m.fields)) != 0 then Some(UnrecognizedFlag)
    else if LeftEvenTag(outputs, m.fields) then Some(UnrecognizedEvenTag)
    else None
  }

  /** The meaning of a message: each tag is read on its own, whatever the order of the fields. */
  ghost function Interpret(outputs: u32, m: Message): Artifact {
    var etching := ReadEtching(m.fields);
    var flaw := FlawOf(outputs, m);
    if flaw.Some? then
      CenotaphArtifact(Cenotaph(if etching.Some? then etching.value.rune else None, flaw, ReadTwo(m.fields, TAG_MINT, ToMint)))
    else
      RunestoneArtifact(Runestone(
        m.edicts, etching, ReadTwo(m.fields, TAG_MINT, ToMint), Read(m.fields, TAG_POINTER, ToPointer(outputs))))
  }

  ghost function DecipherOf(outputs: seq<Script>): Option<Artifact>
    requires |outputs| <= U32_MAX
  {
    match PayloadOf(outputs)
    case None => None
    case Some(Invalid(flaw)) => Some(CenotaphArtifact(Cenotaph(None, Some(flaw), None)))
    case Some(Valid(payload)) =>
      match Integers(payload)
      case Err(_) => Some(CenotaphArtifact(Cenotaph(None, Some(VarintFlaw), None)))
      case Ok(integers) => Some(Interpret(|outputs|, MessageOf(|outputs|, integers)))
  }

  // ----- Deciphering, field by field -----

  /** The tags in `done` have been taken from `fields`; `now` is what is left. */
  ghost predicate UpTo(outputs: u32, fields: Fields, now: Fields, done: set<u128>) {
    && Tidy(now)
    && (forall t :: Consumed(outputs, fields, t) <= |Values(fields, t)|)
    && forall t :: Values(now, t) == if t in done then Values(fields, t)[Consumed(outputs, fields, t)..] else Values(fields, t)
  }

  lemma NothingTaken(outputs: u32, fields: Fields)
    requires Tidy(fields)
    ensures UpTo(outputs, fields, fields, {})
  {
    forall t ensures Consumed(outputs, fields, t) <= |Values(fields, t)| {
      UsedAtMostAll(outputs, fields, t);
    }
  }

  lemma UsedAtMostAll(outputs: u32, fields: Fields, t: u128)
    ensures Consumed(outputs, fields, t) <= |Values(fields, t)|
  {
    hide FlagSet, ReadFlags, Values, Whole, ToU64, ToMint, ToSymbol, ToDivisibility, ToSpacers, ToPointer;
  }

  lemma UntakenReads<T>(outputs: u32, fields: Fields, now: Fields, done: set<u128>, tag: u128, with: u128 -> Option<T>)
    requires UpTo(outputs, fields, now, done) && tag !in done
    ensures Read(now, tag, with) == Read(fields, tag, with)
  {
    hide Consumed, Values;
    assert Values(now, tag) == Values(fields, tag);
  }

  lemma UntakenReadsTwo<T>(outputs: u32, fields: Fields, now: Fields, done: set<u128>, tag: u128, with: (u128, u128) -> Option<T>)
    requires UpTo(outputs, fields, now, done) && tag !in done
    ensures ReadTwo(now, tag, with) == ReadTwo(fields, tag, with) && Tidy(now)
  {
    hide Consumed, Values;
    assert Values(now, tag) == Values(fields, tag);
  }

  lemma TakenNext(outputs: u32, fields: Fields, now: Fields, now': Fields, done: set<u128>, tag: u128, n: nat)
    requires UpTo(outputs, fields, now, done) && tag !in done
    requires TookValues(now, now', tag, n) && n == Consumed(outputs, fields, tag)
    ensures UpTo(outputs, fields, now', done + {tag})
  {
    hide Consumed, Values, Tidy;
  }

  /** Takes a tag not taken before. */
  method TakeNext<T>(tag: u128, now: Fields, with: u128 -> Option<T>, ghost outputs: u32, ghost fields: Fields, ghost done: set<u128>)
    returns (value: Option<T>, now': Fields)
    requires UpTo(outputs, fields, now, done) && tag !in done
    requires Consumed(outputs, fields, tag) == Used(fields, tag, with)
    ensures value == Read(fields, tag, with)
    ensures UpTo(outputs, fields, now', done + {tag})
  {
    hide Consumed, Values, TookValues, Read;
    UntakenReads(outputs, fields, now, done, tag, with);
    value, now' := Take(tag, now, with);
    TakenNext(outputs, fields, now, now', done, tag, Used(fields, tag, with));
  }

  const TERMS_TAGS := {TAG_CAP, TAG_HEIGHT_START, TAG_HEIGHT_END, TAG_AMOUNT, TAG_OFFSET_START, TAG_OFFSET_END}
  const ETCHING_TAGS := {TAG_DIVISIBILITY, TAG_PREMINE, TAG_RUNE, TAG_SPACERS, TAG_SYMBOL}

  method TakeTerms(now: Fields, ghost outputs: u32, ghost fields: Fields, ghost done: set<u128>) returns (terms: Terms, now': Fields)
    requires UpTo(outputs, fields, now, done) && done !! TERMS_TAGS
    requires FlagSet(ETCHING_FLAG, ReadFlags(fields)) && FlagSet(TERMS_FLAG, ReadFlags(fields))
    ensures terms == ReadTerms(fields)
    ensures UpTo(outputs, fields, now', done + TERMS_TAGS)
  {
    hide UpTo, Read, Used, FlagSet, ReadFlags, ReadTwo;
    var cap, heightStart, heightEnd, amount, offsetStart, offsetEnd;
    ghost var d := done;
    cap, now' := TakeNext(TAG_CAP, now, Whole, outputs, fields, d);
    d := d + {TAG_CAP};
    heightStart, now' := TakeNext(TAG_HEIGHT_START, now', ToU64, outputs, fields, d);
    d := d + {TAG_HEIGHT_START};
    heightEnd, now' := TakeNext(TAG_HEIGHT_END, now', ToU64, outputs, fields, d);
    d := d + {TAG_HEIGHT_END};
    amount, now' := TakeNext(TAG_AMOUNT, now', Whole, outputs, fields, d);
    d := d + {TAG_AMOUNT};
    offsetStart, now' := TakeNext(TAG_OFFSET_START, now', ToU64, outputs, fields, d);
    d := d + {TAG_OFFSET_START};
    offsetEnd, now' := TakeNext(TAG_OFFSET_END, now', ToU64, outputs, fields, d);
    d := d + {TAG_OFFSET_END};
    assert d == done + TERMS_TAGS;
    terms := Terms(amount, cap, (heightStart, heightEnd), (offsetStart, offsetEnd));
  }

  lemma SkipTags(outputs: u32, fields: Fields, now: Fields, done: set<u128>, more: set<u128>)
    requires UpTo(outputs, fields, now, done) && forall t :: t in more ==> Consumed(outputs, fields, t) == 0
    ensures UpTo(outputs, fields, now, done + more)
  {
    hide Consumed, Values, Tidy;
  }

  lemma UnreadTags(outputs: u32, fields: Fields)
    ensures !FlagSet(ETCHING_FLAG, ReadFlags(fields)) ==>
              forall t :: t in ETCHING_TAGS + TERMS_TAGS ==> Consumed(outputs, fields, t) == 0
    ensures !FlagSet(TERMS_FLAG, ReadFlags(fields)) ==> forall t :: t in TERMS_TAGS ==> Consumed(outputs, fields, t) == 0
    ensures forall t :: t !in {TAG_FLAGS, TAG_MINT, TAG_POINTER} + ETCHING_TAGS + TERMS_TAGS ==> Consumed(outputs, fields, t) == 0
  {
    hide FlagSet, ReadFlags, Used, ReadTwo;
  }

  lemma FlagDigits(q: nat, r: nat)
    requires r < 8 && 8 * q + r <= U128_MAX
    ensures FlagSet(ETCHING_FLAG, 8 * q + r) <==> r == 1 || r == 3 || r == 5 || r == 7
    ensures FlagSet(TERMS_FLAG, 8 * q + r) <==> r == 2 || r == 3 || r == 6 || r == 7
    ensures FlagSet(TURBO_FLAG, 8 * q + r) <==> r >= 4
  {
    assert (8 * q + r) / 2 == 4 * q + r / 2;
    assert (8 * q + r) / 4 == 2 * q + r / 4;
  }

  lemma PeelFlags(flags: u128)
    requires FlagSet(ETCHING_FLAG, flags)
    ensures FlagSet(TERMS_FLAG, flags - 1) == FlagSet(TERMS_FLAG, flags)
    ensures var rest := flags - 1 - if FlagSet(TERMS_FLAG, flags) then 2 else 0;
            FlagSet(TURBO_FLAG, rest) == FlagSet(TURBO_FLAG, flags) &&
            LeftFlags(flags) == rest - if FlagSet(TURBO_FLAG, flags) then 4 else 0
  {
    hide FlagSet;
    var q := flags / 8;
    var r := flags % 8;
    FlagDigits(q, r);
    FlagDigits(q, r - 1);
    if r >= 3 {
      FlagDigits(q, r - 3);
    }
  }

  method TakeNames(now: Fields, ghost outputs: u32, ghost fields: Fields, ghost done: set<u128>)
    returns (divisibility: Option<u8>, premine: Option<u128>, rune: Option<u128>, spacers: Option<u32>, symbol: Option<char>,
             now': Fields)
    requires UpTo(outputs, fields, now, done) && done !! ETCHING_TAGS
    requires FlagSet(ETCHING_FLAG, ReadFlags(fields))
    ensures divisibility == Read(fields, TAG_DIVISIBILITY, ToDivisibility) && premine == Read(fields, TAG_PREMINE, Whole)
    ensures rune == Read(fields, TAG_RUNE, Whole) && spacers == Read(fields, TAG_SPACERS, ToSpacers)
    ensures symbol == Read(fields, TAG_SYMBOL, ToSymbol)
    ensures UpTo(outputs, fields, now', done + ETCHING_TAGS)
  {
    hide UpTo, Read, Used, FlagSet, ReadFlags, ReadTwo;
    ghost var d := done;
    divisibility, now' := TakeNext(TAG_DIVISIBILITY, now, ToDivisibility, outputs, fields, d);
    d := d + {TAG_DIVISIBILITY};
    premine, now' := TakeNext(TAG_PREMINE, now', Whole, outputs, fields, d);
    d := d + {TAG_PREMINE};
    rune, now' := TakeNext(TAG_RUNE, now', Whole, outputs, fields, d);
    d := d + {TAG_RUNE};
    spacers, now' := TakeNext(TAG_SPACERS, now', ToSpacers, outputs, fields, d);
    d := d + {TAG_SPACERS};
    symbol, now' := TakeNext(TAG_SYMBOL, now', ToSymbol, outputs, fields, d);
    d := d + {TAG_SYMBOL};
    assert d == done + ETCHING_TAGS;
  }

  method TakeEtching(flags: u128, now: Fields, ghost outputs: u32, ghost fields: Fields, ghost done: set<u128>)
    returns (etching: Option<Etching>, flags': u128, now': Fields)
    requires UpTo(outputs, fields, now, done) && done !! ETCHING_TAGS + TERMS_TAGS
    requires flags == ReadFlags(fields)
    ensures etching == ReadEtching(fields) && flags' == LeftFlags(flags)
    ensures UpTo(outputs, fields, now', done + ETCHING_TAGS + TERMS_TAGS)
  {
    hide UpTo, Read, Used, FlagSet, ReadFlags, ReadTwo, ReadTerms, LeftFlags, Consumed;
    UnreadTags(outputs, fields);
    NoEtchingFlag(flags);
    var etched;
    etching, now' := None, now;
    etched, flags' := TakeFlag(ETCHING_FLAG, flags);
    if etched {
      PeelFlags(flags);
      var divisibility, premine, rune, spacers, symbol, termed, turbo;
      divisibility, premine, rune, spacers, symbol, now' := TakeNames(now', outputs, fields, done);
      var terms := None;
      termed, flags' := TakeFlag(TERMS_FLAG, flags');
      if termed {
        var taken;
        taken, now' := TakeTerms(now', outputs, fields, done + ETCHING_TAGS);
        terms := Some(taken);
      } else {
        SkipTags(outputs, fields, now', done + ETCHING_TAGS, TERMS_TAGS);
      }
      turbo, flags' := TakeFlag(TURBO_FLAG, flags');
      etching := Some(Etching(divisibility, premine, rune, spacers, symbol, terms, turbo));
    } else {
      SkipTags(outputs, fields, now', done, ETCHING_TAGS + TERMS_TAGS);
      assert done + ETCHING_TAGS + TERMS_TAGS == done + (ETCHING_TAGS + TERMS_TAGS);
    }
  }

  lemma NoEtchingFlag(flags: u128)
    ensures !FlagSet(ETCHING_FLAG, flags) ==> LeftFlags(flags) == flags
  {
  }

  const ALL_TAGS := {TAG_FLAGS} + ETCHING_TAGS + TERMS_TAGS + {TAG_MINT} + {TAG_POINTER}

  lemma LeftAt(outputs: u32, fields: Fields, now: Fields, t: u128)
    requires UpTo(outputs, fields, now, ALL_TAGS)
    ensures t in now <==> t in fields && |fields[t]| > Consumed(outputs, fields, t)
  {
    hide Consumed, FlagSet, ReadFlags;
    UnreadTags(outputs, fields);
    assert Values(now, t) == Values(fields, t)[Consumed(outputs, fields, t)..];
  }

  /** After all takes, an even tag is still there exactly when one had values nobody wanted. */
  lemma WhatIsLeft(outputs: u32, fields: Fields, now: Fields)
    requires UpTo(outputs, fields, now, ALL_TAGS)
    ensures LeftEvenTag(outputs, fields) <==> exists t :: t in now && t % 2 == 0
  {
    hide Consumed, UpTo;
    forall t: u128 ensures t in now <==> t in fields && |fields[t]| > Consumed(outputs, fields, t) {
      LeftAt(outputs, fields, now, t);
    }
  }

  /** The takes in the order of the source. */
  method TakeAll(outputs: u32, fields: Fields)
    returns (etching: Option<Etching>, mint: Option<RuneId>, pointer: Option<u32>, flags: u128, now: Fields)
    requires Tidy(fields)
    ensures etching == ReadEtching(fields) && flags == LeftFlags(ReadFlags(fields))
    ensures mint == ReadTwo(fields, TAG_MINT, ToMint) && pointer == Read(fields, TAG_POINTER, ToPointer(outputs))
    ensures UpTo(outputs, fields, now, ALL_TAGS)
  {
    hide UpTo, Used, FlagSet, ReadTwo, LeftFlags, Consumed, ReadEtching, TookValues, Read, ReadFlags;
    ConsumedOther(outputs, fields);
    FlagsAreWhole(fields);
    NothingTaken(outputs, fields);
    var flagField;
    flagField, now := TakeNext(TAG_FLAGS, fields, Whole, outputs, fields, {});
    flags := if flagField.Some? then flagField.value else 0;
    assert {} + {TAG_FLAGS} == {TAG_FLAGS};
    etching, flags, now := TakeEtching(flags, now, outputs, fields, {TAG_FLAGS});
    ghost var done := {TAG_FLAGS} + ETCHING_TAGS + TERMS_TAGS;
    UntakenReadsTwo(outputs, fields, now, done, TAG_MINT, ToMint);
    ghost var before := now;
    mint, now := TakeTwo(TAG_MINT, now, ToMint);
    TakenNext(outputs, fields, before, now, done, TAG_MINT, if mint.Some? then 2 else 0);
    pointer, now := TakeNext(TAG_POINTER, now, ToPointer(outputs), outputs, fields, done + {TAG_MINT});
  }

  lemma FlagsAreWhole(fields: Fields)
    ensures ReadFlags(fields) == if Read(fields, TAG_FLAGS, Whole).Some? then Read(fields, TAG_FLAGS, Whole).value else 0
  {
  }

  method DecipherMessage(outputs: u32, m: Message) returns (a: Artifact)
    requires Tidy(m.fields)
    ensures a == Interpret(outputs, m)
  {
    hide UpTo, ReadTwo, LeftFlags, ReadEtching, LeftEvenTag, Read, ReadFlags, Etching.Supply;
    var flaw := m.flaw;
    var etching, mint, pointer, flags, fields := TakeAll(outputs, m.fields);
    WhatIsLeft(outputs, m.fields, fields);
    if etching.Some? && etching.value.Supply().None? {
      flaw := FirstFlaw(flaw, Some(SupplyOverflow));
    }
    if flags != 0 {
      flaw := FirstFlaw(flaw, Some(UnrecognizedFlag));
    }
    if exists t :: t in fields && t % 2 == 0 {
      flaw := FirstFlaw(flaw, Some(UnrecognizedEvenTag));
    }
    if flaw.Some? {
      return CenotaphArtifact(Cenotaph(if etching.Some? then etching.value.rune else None, flaw, mint));
    }
    return RunestoneArtifact(Runestone(m.edicts, etching, mint, pointer));
  }

  lemma ConsumedOther(outputs: u32, fields: Fields)
    ensures Consumed(outputs, fields, TAG_FLAGS) == Used(fields, TAG_FLAGS, Whole)
    ensures Consumed(outputs, fields, TAG_POINTER) == Used(fields, TAG_POINTER, ToPointer(outputs))
    ensures Consumed(outputs, fields, TAG_MINT) == if ReadTwo(fields, TAG_MINT, ToMint).Some? then 2 else 0
  {
  }

  /** The whole of `decipher`, loops and takes, against its meaning. */
  method Decipher(outputs: seq<Script>) returns (r: Option<Artifact>)
    requires |outputs| <= U32_MAX
    ensures r == DecipherOf(outputs)
  {
    hide PayloadOf, Integers, MessageOf, Interpret;
    var payload := FindPayload(outputs);
    if payload.None? {
      return None;
    }
    if payload.value.Invalid? {
      return Some(CenotaphArtifact(Cenotaph(None, Some(payload.value.flaw), None)));
    }
    var integers := IntegersOf(payload.value.bytes);
    if integers.Err? {
      return Some(CenotaphArtifact(Cenotaph(None, Some(VarintFlaw), None)));
    }
    var m := FromPayload(|outputs|, integers.value);
    MessageIsTidy(|outputs|, integers.value);
    var a := DecipherMessage(|outputs|, m);
    return Some(a);
  }

  lemma MessageIsTidy(outputs: u32, payload: seq<u128>)
    ensures Tidy(MessageOf(outputs, payload).fields)
  {
    FieldsAreQueues(ScanOf(payload).pairs, 0);
  }

  // ----- Enciphering -----

  function Opt(tag: u128, v: Option<nat>): seq<Pair>
    requires v.Some? ==> v.value <= U128_MAX
  {
    if v.Some? then [(tag, v.value)] else []
  }

  function SymbolNumber(symbol: Option<char>): Option<nat> {
    if symbol.Some? then Some(symbol.value as nat) else None
  }

  function TermsPairs(t: Terms): seq<Pair> {
    Opt(TAG_AMOUNT, t.amount) + Opt(TAG_CAP, t.cap) + Opt(TAG_HEIGHT_START, t.height.0) + Opt(TAG_HEIGHT_END, t.height.1)
    + Opt(TAG_OFFSET_START, t.offset.0) + Opt(TAG_OFFSET_END, t.offset.1)
  }

  function EtchingFlags(e: Etching): u128 {
    ETCHING_FLAG + (if e.terms.Some? then TERMS_FLAG else 0) + if e.turbo then TURBO_FLAG else 0
  }

  function EtchingPairs(e: Etching): seq<Pair> {
    [(TAG_FLAGS, EtchingFlags(e))] + Opt(TAG_RUNE, e.rune) + Opt(TAG_DIVISIBILITY, e.divisibility) + Opt(TAG_SPACERS, e.spacers)
    + Opt(TAG_SYMBOL, SymbolNumber(e.symbol)) + Opt(TAG_PREMINE, e.premine) + if e.terms.Some? then TermsPairs(e.terms.value) else []
  }

  function PairsOf(r: Runestone): seq<Pair> {
    (if r.etching.Some? then EtchingPairs(r.etching.value) else [])
    + (if r.mint.Some? then [(TAG_MINT, r.mint.value.block), (TAG_MINT, r.mint.value.tx)] else [])
    + Opt(TAG_POINTER, r.pointer)
  }

  function TailOf(r: Runestone): seq<u128> {
    if r.edicts == [] then []
    else
      SortedChain(r.edicts);
      [TAG_BODY] + BodyOf(SELF_ID, SortById(r.edicts))
  }

  function Chunks(bytes: seq<u8>): Script {
    if |bytes| == 0 then []
    else if |bytes| <= MAX_STACK_ELEMENT_SIZE then [PushBytes(bytes)]
    else [PushBytes(bytes[..MAX_STACK_ELEMENT_SIZE])] + Chunks(bytes[MAX_STACK_ELEMENT_SIZE..])
  }

  function EncipherOf(r: Runestone): Script {
    [Op(OP_RETURN), Op(MAGIC_NUMBER)] + Chunks(EncodeAll(Flatten(PairsOf(r)) + TailOf(r)))
  }

  function PairBytes(pairs: seq<Pair>): seq<u8> {
    EncodeAll(Flatten(pairs))
  }

  lemma PairBytesSnoc(pairs: seq<Pair>, tag: u128, value: u128)
    ensures PairBytes(pairs + [(tag, value)]) == PairBytes(pairs) + Encode(tag) + Encode(value)
  {
    hide Encode, EncodeAll;
    FlattenAppend(pairs, [(tag, value)]);
    assert Flatten([(tag, value)]) == [tag] + ([value] + []);
    EncodeAllAppend(Flatten(pairs), [tag] + ([value] + []));
    EncodeAllCons(tag, [value] + []);
    EncodeAllCons(value, []);
    NoIntegers();
    assert Encode(value) + [] == Encode(value);
    assert PairBytes(pairs) + (Encode(tag) + Encode(value)) == PairBytes(pairs) + Encode(tag) + Encode(value);
  }

  method EncodeField(tag: u128, value: u128, payload: seq<u8>, ghost pairs: seq<Pair>) returns (payload': seq<u8>)
    requires payload == PairBytes(pairs)
    ensures payload' == PairBytes(pairs + [(tag, value)])
  {
    hide PairBytes, Encode;
    payload' := EncodeToVec(tag, payload);
    payload' := EncodeToVec(value, payload');
    PairBytesSnoc(pairs, tag, value);
  }

  method EncodeOption(tag: u128, v: Option<nat>, payload: seq<u8>, ghost pairs: seq<Pair>) returns (payload': seq<u8>)
    requires payload == PairBytes(pairs) && (v.Some? ==> v.value <= U128_MAX)
    ensures payload' == PairBytes(pairs + Opt(tag, v))
  {
    hide PairBytes;
    payload' := payload;
    if v.Some? {
      payload' := EncodeField(tag, v.value, payload, pairs);
    } else {
      assert pairs + [] == pairs;
    }
  }

  method EncodeTerms(t: Terms, payload: seq<u8>, ghost pairs: seq<Pair>) returns (payload': seq<u8>)
    requires payload == PairBytes(pairs)
    ensures payload' == PairBytes(pairs + TermsPairs(t))
  {
    hide PairBytes, Opt;
    ghost var p := pairs;
    payload' := EncodeOption(TAG_AMOUNT, t.amount, payload, p);
    p := p + Opt(TAG_AMOUNT, t.amount);
    payload' := EncodeOption(TAG_CAP, t.cap, payload', p);
    p := p + Opt(TAG_CAP, t.cap);
    payload' := EncodeOption(TAG_HEIGHT_START, t.height.0, payload', p);
    p := p + Opt(TAG_HEIGHT_START, t.height.0);
    payload' := EncodeOption(TAG_HEIGHT_END, t.height.1, payload', p);
    p := p + Opt(TAG_HEIGHT_END, t.height.1);
    payload' := EncodeOption(TAG_OFFSET_START, t.offset.0, payload', p);
    p := p + Opt(TAG_OFFSET_START, t.offset.0);
    payload' := EncodeOption(TAG_OFFSET_END, t.offset.1, payload', p);
    p := p + Opt(TAG_OFFSET_END, t.offset.1);
    assert p == pairs + TermsPairs(t);
  }

  method EncodeEtching(e: Etching) returns (payload: seq<u8>)
    ensures payload == PairBytes(EtchingPairs(e))
  {
    hide PairBytes, Opt, TermsPairs, SymbolNumber;
    var flags: u128 := ETCHING_FLAG;
    if e.terms.Some? {
      flags := flags + TERMS_FLAG;
    }
    if e.turbo {
      flags := flags + TURBO_FLAG;
    }
    NoPairs();
    SymbolFits(e.symbol);
    payload := EncodeField(TAG_FLAGS, flags, [], []);
    ghost var p: seq<Pair> := [] + [(TAG_FLAGS, flags)];
    payload := EncodeOption(TAG_RUNE, e.rune, payload, p);
    p := p + Opt(TAG_RUNE, e.rune);
    payload := EncodeOption(TAG_DIVISIBILITY, e.divisibility, payload, p);
    p := p + Opt(TAG_DIVISIBILITY, e.divisibility);
    payload := EncodeOption(TAG_SPACERS, e.spacers, payload, p);
    p := p + Opt(TAG_SPACERS, e.spacers);
    payload := EncodeOption(TAG_SYMBOL, SymbolNumber(e.symbol), payload, p);
    p := p + Opt(TAG_SYMBOL, SymbolNumber(e.symbol));
    payload := EncodeOption(TAG_PREMINE, e.premine, payload, p);
    p := p + Opt(TAG_PREMINE, e.premine);
    if e.terms.Some? {
      payload := EncodeTerms(e.terms.value, payload, p);
      p := p + TermsPairs(e.terms.value);
    }
    assert p == EtchingPairs(e);
  }

  lemma NoPairs()
    ensures PairBytes([]) == []
  {
  }

  lemma SymbolFits(symbol: Option<char>)
    ensures SymbolNumber(symbol).Some? ==> SymbolNumber(symbol).value < 0x11_0000
  {
  }

  /** The loop over the sorted edicts. The difference to the edict before is always there. */
  method EncodeEdicts(edicts: seq<Edict>, payload: seq<u8>) returns (payload': seq<u8>)
    requires AscendingFrom(SELF_ID, edicts)
    ensures payload' == payload + EncodeAll(BodyOf(SELF_ID, edicts))
  {
    hide Encode, EncodeAll;
    payload' := payload;
    var previous := SELF_ID;
    ghost var goal := payload + EncodeAll(BodyOf(SELF_ID, edicts));
    assert edicts[0..] == edicts;
    for i := 0 to |edicts|
      invariant AscendingFrom(previous, edicts[i..])
      invariant goal == payload' + EncodeAll(BodyOf(previous, edicts[i..]))
    {
      var e := edicts[i];
      assert edicts[i..][0] == e && edicts[i..][1..] == edicts[i + 1..];
      var d := Delta(previous, e.id);
      assert d.Some?;
      FourIntegers(d.value.0, d.value.1, e.amount, e.output, BodyOf(e.id, edicts[i + 1..]));
      payload' := EncodeToVec(d.value.0, payload');
      payload' := EncodeToVec(d.value.1, payload');
      payload' := EncodeToVec(e.amount, payload');
      payload' := EncodeToVec(e.output, payload');
      previous := e.id;
    }
    NoIntegers();
    assert payload' + [] == payload';
  }

  lemma NoIntegers()
    ensures EncodeAll([]) == []
  {
  }

  lemma FourIntegers(a: u128, b: u128, c: u128, d: u128, rest: seq<u128>)
    ensures EncodeAll([a, b, c, d] + rest) == Encode(a) + (Encode(b) + (Encode(c) + (Encode(d) + EncodeAll(rest))))
  {
    hide Encode, EncodeAll;
    assert [a, b, c, d] + rest == [a] + ([b] + ([c] + ([d] + rest)));
    EncodeAllCons(a, [b] + ([c] + ([d] + rest)));
    EncodeAllCons(b, [c] + ([d] + rest));
    EncodeAllCons(c, [d] + rest);
    EncodeAllCons(d, rest);
  }

  lemma ChunksStep(bytes: seq<u8>)
    requires bytes != []
    ensures var n := Min(MAX_STACK_ELEMENT_SIZE, |bytes|);
            Chunks(bytes) == [PushBytes(bytes[..n])] + Chunks(bytes[n..])
  {
    if |bytes| <= MAX_STACK_ELEMENT_SIZE {
      assert bytes[..|bytes|] == bytes;
    }
  }

  method PushChunks(payload: seq<u8>) returns (script: Script)
    ensures script == [Op(OP_RETURN), Op(MAGIC_NUMBER)] + Chunks(payload)
  {
    script := [Op(OP_RETURN), Op(MAGIC_NUMBER)];
    var i := 0;
    assert payload[0..] == payload;
    while i < |payload|
      invariant i <= |payload|
      invariant script + Chunks(payload[i..]) == [Op(OP_RETURN), Op(MAGIC_NUMBER)] + Chunks(payload)
    {
      var next := Min(i + MAX_STACK_ELEMENT_SIZE, |payload|);
      var rest := payload[i..];
      assert rest[..next - i] == payload[i..next] && rest[next - i..] == payload[next..];
      ChunksStep(rest);
      script := script + [PushBytes(payload[i..next])];
      i := next;
    }
    assert script + [] == script;
  }

  /** The whole of `encipher` for any runestone, acceptable or not. */
  method Encipher(r: Runestone) returns (script: Script)
    ensures script == EncipherOf(r)
  {
    hide PairBytes, EtchingPairs, Chunks, EncodeAll, Encode, SortById, AscendingFrom, BodyOf, Flatten, Opt;
    var payload: seq<u8> := [];
    ghost var p: seq<Pair> := [];
    NoPairs();
    if r.etching.Some? {
      payload := EncodeEtching(r.etching.value);
      p := EtchingPairs(r.etching.value);
    }
    if r.mint.Some? {
      payload := EncodeField(TAG_MINT, r.mint.value.block, payload, p);
      p := p + [(TAG_MINT, r.mint.value.block)];
      payload := EncodeField(TAG_MINT, r.mint.value.tx, payload, p);
      p := p + [(TAG_MINT, r.mint.value.tx)];
    }
    payload := EncodeOption(TAG_POINTER, r.pointer, payload, p);
    p := p + Opt(TAG_POINTER, r.pointer);
    assert p == PairsOf(r);
    if r.edicts != [] {
      payload := EncodeToVec(TAG_BODY, payload);
      SortedChain(r.edicts);
      payload := EncodeEdicts(SortById(r.edicts), payload);
    }
    PayloadInParts(r);
    script := PushChunks(payload);
  }

  lemma PayloadInParts(r: Runestone)
    ensures r.edicts == [] ==> EncodeAll(Flatten(PairsOf(r)) + TailOf(r)) == PairBytes(PairsOf(r))
    ensures r.edicts != [] ==>
              AscendingFrom(SELF_ID, SortById(r.edicts)) &&
              EncodeAll(Flatten(PairsOf(r)) + TailOf(r)) ==
              PairBytes(PairsOf(r)) + Encode(TAG_BODY) + EncodeAll(BodyOf(SELF_ID, SortById(r.edicts)))
  {
    hide PairsOf, SortById, AscendingFrom, BodyOf, Flatten, Encode;
    EncodeAllAppend(Flatten(PairsOf(r)), TailOf(r));
    if r.edicts == [] {
      assert Flatten(PairsOf(r)) + [] == Flatten(PairsOf(r));
    } else {
      SortedChain(r.edicts);
      var body := BodyOf(SELF_ID, SortById(r.edicts));
      assert ([TAG_BODY] + body)[1..] == body;
    }
  }
}
