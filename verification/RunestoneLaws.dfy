/** Laws of the runestone codec (crates/ordinals/src/runestone.rs:26-248). */
module RunestoneLaws {
  import opened Basics
  import opened Artifacts
  import opened RuneIds
  import opened Messages
  import opened Varints
  import opened Runestones

  /** What a reader accepts in a transaction with this many outputs. */
  ghost predicate WellFormed(r: Runestone, outputs: u32) {
    && (r.etching.Some? ==>
          && (r.etching.value.divisibility.Some? ==> r.etching.value.divisibility.value <= MAX_DIVISIBILITY)
          && (r.etching.value.spacers.Some? ==> r.etching.value.spacers.value <= MAX_SPACERS)
          && r.etching.value.Supply().Some?)
    && (r.mint.Some? ==> ValidId(r.mint.value))
    && (r.pointer.Some? ==> r.pointer.value < outputs)
    && forall e :: e in r.edicts ==> EdictFits(outputs, e)
  }

  // ----- The payload -----

  lemma {:induction false} PushesOfChunks(bytes: seq<u8>)
    ensures Pushes(Chunks(bytes)) == Valid(bytes)
    decreases |bytes|
  {
    if |bytes| > 0 {
      ChunksStep(bytes);
      var n := Min(MAX_STACK_ELEMENT_SIZE, |bytes|);
      PushesOfChunks(bytes[n..]);
      assert Chunks(bytes)[1..] == Chunks(bytes[n..]);
      assert bytes[..n] + bytes[n..] == bytes;
    } else {
      assert bytes == [];
    }
  }

  /** The payload comes from the first runestone output, wherever it is. */
  lemma {:induction false} PayloadOfEncipher(before: seq<Script>, r: Runestone, after: seq<Script>)
    requires forall s :: s in before ==> !IsRunestone(s)
    ensures PayloadOf(before + [EncipherOf(r)] + after) == Some(Valid(EncodeAll(Flatten(PairsOf(r)) + TailOf(r))))
  {
    hide Pushes, PairsOf, TailOf, EncodeAll, Flatten, Chunks;
    var outputs := before + [EncipherOf(r)] + after;
    if before == [] {
      assert outputs[0] == EncipherOf(r);
      assert EncipherOf(r)[2..] == Chunks(EncodeAll(Flatten(PairsOf(r)) + TailOf(r)));
      PushesOfChunks(EncodeAll(Flatten(PairsOf(r)) + TailOf(r)));
    } else {
      assert outputs[0] == before[0] && before[0] in before;
      assert outputs[1..] == before[1..] + [EncipherOf(r)] + after;
      PayloadOfEncipher(before[1..], r, after);
    }
  }

  // ----- The fields -----

  function OptValues(v: Option<nat>): seq<nat> {
    if v.Some? then [v.value] else []
  }

  lemma OptQueue(tag: u128, v: Option<nat>, t: u128)
    requires v.Some? ==> v.value <= U128_MAX
    ensures TagQueue(Opt(tag, v), t) == if t == tag then OptValues(v) else []
  {
    if v.Some? {
      QueueOne((tag, v.value), t);
    }
  }

  function TermsValue(te: Terms, t: u128): Option<nat> {
    if t == TAG_AMOUNT then te.amount else if t == TAG_CAP then te.cap
    else if t == TAG_HEIGHT_START then te.height.0 else if t == TAG_HEIGHT_END then te.height.1
    else if t == TAG_OFFSET_START then te.offset.0 else if t == TAG_OFFSET_END then te.offset.1
    else None
  }

  function EtchingValue(e: Etching, t: u128): Option<nat> {
    if t == TAG_FLAGS then Some(EtchingFlags(e)) else if t == TAG_RUNE then e.rune
    else if t == TAG_DIVISIBILITY then e.divisibility else if t == TAG_SPACERS then e.spacers
    else if t == TAG_SYMBOL then SymbolNumber(e.symbol) else if t == TAG_PREMINE then e.premine
    else if e.terms.Some? then TermsValue(e.terms.value, t) else None
  }

  /** The values a written runestone has for a tag. */
  function Written(r: Runestone, t: u128): seq<nat> {
    if t == TAG_MINT then if r.mint.Some? then [r.mint.value.block, r.mint.value.tx] else []
    else if t == TAG_POINTER then OptValues(r.pointer)
    else if r.etching.Some? then OptValues(EtchingValue(r.etching.value, t)) else []
  }

  lemma TermsQueues(te: Terms, t: u128)
    ensures TagQueue(TermsPairs(te), t) == OptValues(TermsValue(te, t))
  {
    hide TagQueue, Opt;
    var a, b := Opt(TAG_AMOUNT, te.amount), Opt(TAG_CAP, te.cap);
    var c, d := Opt(TAG_HEIGHT_START, te.height.0), Opt(TAG_HEIGHT_END, te.height.1);
    var e, f := Opt(TAG_OFFSET_START, te.offset.0), Opt(TAG_OFFSET_END, te.offset.1);
    QueueAppend(a + b + c + d + e, f, t);
    QueueAppend(a + b + c + d, e, t);
    QueueAppend(a + b + c, d, t);
    QueueAppend(a + b, c, t);
    QueueAppend(a, b, t);
    OptQueue(TAG_AMOUNT, te.amount, t);
    OptQueue(TAG_CAP, te.cap, t);
    OptQueue(TAG_HEIGHT_START, te.height.0, t);
    OptQueue(TAG_HEIGHT_END, te.height.1, t);
    OptQueue(TAG_OFFSET_START, te.offset.0, t);
    OptQueue(TAG_OFFSET_END, te.offset.1, t);
  }

  lemma EtchingQueues(e: Etching, t: u128)
    ensures TagQueue(EtchingPairs(e), t) == OptValues(EtchingValue(e, t))
  {
    hide TagQueue, Opt, TermsPairs, TermsValue, SymbolNumber;
    SymbolFits(e.symbol);
    NoPairsQueue(t);
    var a, b, c := [(TAG_FLAGS, EtchingFlags(e))], Opt(TAG_RUNE, e.rune), Opt(TAG_DIVISIBILITY, e.divisibility);
    var d, f, g := Opt(TAG_SPACERS, e.spacers), Opt(TAG_SYMBOL, SymbolNumber(e.symbol)), Opt(TAG_PREMINE, e.premine);
    var h := if e.terms.Some? then TermsPairs(e.terms.value) else [];
    QueueAppend(a + b + c + d + f + g, h, t);
    QueueAppend(a + b + c + d + f, g, t);
    QueueAppend(a + b + c + d, f, t);
    QueueAppend(a + b + c, d, t);
    QueueAppend(a + b, c, t);
    QueueAppend(a, b, t);
    QueueOne((TAG_FLAGS, EtchingFlags(e)), t);
    OptQueue(TAG_RUNE, e.rune, t);
    OptQueue(TAG_DIVISIBILITY, e.divisibility, t);
    OptQueue(TAG_SPACERS, e.spacers, t);
    OptQueue(TAG_SYMBOL, SymbolNumber(e.symbol), t);
    OptQueue(TAG_PREMINE, e.premine, t);
    if e.terms.Some? {
      TermsQueues(e.terms.value, t);
      TermsTags(e.terms.value, t);
    }
  }

  lemma TermsTags(te: Terms, t: u128)
    ensures (t == TAG_FLAGS || t == TAG_RUNE || t == TAG_DIVISIBILITY || t == TAG_SPACERS || t == TAG_SYMBOL || t == TAG_PREMINE) ==>
              TermsValue(te, t) == None
  {
  }

  lemma NoPairsQueue(t: u128)
    ensures TagQueue([], t) == []
  {
  }

  lemma WrittenQueues(r: Runestone, t: u128)
    ensures TagQueue(PairsOf(r), t) == Written(r, t)
  {
    hide TagQueue, Opt, EtchingPairs, EtchingValue;
    NoPairsQueue(t);
    var a := if r.etching.Some? then EtchingPairs(r.etching.value) else [];
    var b: seq<Pair> := if r.mint.Some? then [(TAG_MINT, r.mint.value.block), (TAG_MINT, r.mint.value.tx)] else [];
    QueueAppend(a + b, Opt(TAG_POINTER, r.pointer), t);
    QueueAppend(a, b, t);
    OptQueue(TAG_POINTER, r.pointer, t);
    if r.etching.Some? {
      EtchingQueues(r.etching.value, t);
      EtchingTags(r.etching.value, t);
    }
    if r.mint.Some? {
      var x: Pair, y: Pair := (TAG_MINT, r.mint.value.block), (TAG_MINT, r.mint.value.tx);
      assert b == [x] + [y];
      QueueAppend([x], [y], t);
      QueueOne(x, t);
      QueueOne(y, t);
    }
  }

  lemma EtchingTags(e: Etching, t: u128)
    ensures t == TAG_MINT || t == TAG_POINTER ==> EtchingValue(e, t) == None
  {
  }

  lemma WrittenValues(r: Runestone, t: u128)
    ensures Values(FieldsOf(PairsOf(r)), t) == Written(r, t) && Tidy(FieldsOf(PairsOf(r)))
  {
    hide Values, FieldsOf, PairsOf, Written;
    FieldsAreQueues(PairsOf(r), t);
    WrittenQueues(r, t);
  }

  lemma FlagBits(e: Etching)
    ensures var flags := EtchingFlags(e);
            FlagSet(ETCHING_FLAG, flags) && (FlagSet(TERMS_FLAG, flags) <==> e.terms.Some?) && (FlagSet(TURBO_FLAG, flags) <==> e.turbo)
            && LeftFlags(flags) == 0
  {
  }

  lemma FlagsBack(r: Runestone)
    ensures ReadFlags(FieldsOf(PairsOf(r))) == if r.etching.Some? then EtchingFlags(r.etching.value) else 0
  {
    hide FieldsOf, PairsOf, EtchingFlags;
    WrittenValues(r, TAG_FLAGS);
  }

  lemma TermsBack(r: Runestone)
    requires r.etching.Some? && r.etching.value.terms.Some?
    ensures ReadTerms(FieldsOf(PairsOf(r))) == r.etching.value.terms.value
  {
    hide FieldsOf, PairsOf, EtchingFlags, Values;
    WrittenValues(r, TAG_AMOUNT);
    WrittenValues(r, TAG_CAP);
    WrittenValues(r, TAG_HEIGHT_START);
    WrittenValues(r, TAG_HEIGHT_END);
    WrittenValues(r, TAG_OFFSET_START);
    WrittenValues(r, TAG_OFFSET_END);
  }

  lemma NamesBack(r: Runestone, outputs: u32)
    requires WellFormed(r, outputs) && r.etching.Some?
    ensures var f, e := FieldsOf(PairsOf(r)), r.etching.value;
            && Read(f, TAG_DIVISIBILITY, ToDivisibility) == e.divisibility && Read(f, TAG_PREMINE, Whole) == e.premine
            && Read(f, TAG_RUNE, Whole) == e.rune && Read(f, TAG_SPACERS, ToSpacers) == e.spacers
            && Read(f, TAG_SYMBOL, ToSymbol) == e.symbol
  {
    hide FieldsOf, PairsOf, EtchingFlags, Values, Etching.Supply;
    WrittenValues(r, TAG_DIVISIBILITY);
    WrittenValues(r, TAG_PREMINE);
    WrittenValues(r, TAG_RUNE);
    WrittenValues(r, TAG_SPACERS);
    WrittenValues(r, TAG_SYMBOL);
  }

  lemma EtchingBack(r: Runestone, outputs: u32)
    requires WellFormed(r, outputs)
    ensures ReadEtching(FieldsOf(PairsOf(r))) == r.etching
    ensures LeftFlags(ReadFlags(FieldsOf(PairsOf(r)))) == 0
  {
    hide FieldsOf, PairsOf, EtchingFlags, Values, Etching.Supply, ReadTerms, Read, ReadFlags, EdictFits;
    FlagsBack(r);
    if r.etching.Some? {
      FlagBits(r.etching.value);
      NamesBack(r, outputs);
      if r.etching.value.terms.Some? {
        TermsBack(r);
      }
    }
  }

  lemma MintAndPointerBack(r: Runestone, outputs: u32)
    requires WellFormed(r, outputs)
    ensures ReadTwo(FieldsOf(PairsOf(r)), TAG_MINT, ToMint) == r.mint
    ensures Read(FieldsOf(PairsOf(r)), TAG_POINTER, ToPointer(outputs)) == r.pointer
  {
    hide FieldsOf, PairsOf, EtchingFlags, Values, Etching.Supply, EtchingValue;
    WrittenValues(r, TAG_MINT);
    WrittenValues(r, TAG_POINTER);
  }

  lemma TakenWhole(r: Runestone, outputs: u32, t: u128)
    requires WellFormed(r, outputs) && t % 2 == 0
    ensures |Values(FieldsOf(PairsOf(r)), t)| <= Consumed(outputs, FieldsOf(PairsOf(r)), t)
  {
    hide FieldsOf, PairsOf, EtchingFlags, Values, Etching.Supply, EdictFits, FlagSet, ReadFlags, ToPointer;
    WrittenValues(r, t);
    FlagsBack(r);
    MintAndPointerBack(r, outputs);
    if r.etching.Some? {
      FlagBits(r.etching.value);
    }
  }

  lemma NothingLeft(r: Runestone, outputs: u32)
    requires WellFormed(r, outputs)
    ensures !LeftEvenTag(outputs, FieldsOf(PairsOf(r)))
  {
    hide FieldsOf, PairsOf, Consumed, WellFormed;
    var f := FieldsOf(PairsOf(r));
    forall t | t in f && t % 2 == 0 ensures |f[t]| <= Consumed(outputs, f, t) {
      TakenWhole(r, outputs, t);
    }
  }

  // ----- The message -----

  lemma {:induction false} NoBodyWithoutQueue(pairs: seq<Pair>)
    requires TagQueue(pairs, TAG_BODY) == []
    ensures NoBodyTag(pairs)
  {
    if pairs != [] {
      NoBodyWithoutQueue(DropLast(pairs));
      assert pairs == DropLast(pairs) + [Last(pairs)];
    }
  }

  lemma PairTags(r: Runestone)
    ensures NoBodyTag(PairsOf(r))
  {
    hide TagQueue, PairsOf;
    WrittenQueues(r, TAG_BODY);
    NoBodyWithoutQueue(PairsOf(r));
  }

  lemma WrittenMessage(outputs: u32, r: Runestone)
    ensures AscendingFrom(SELF_ID, SortById(r.edicts))
    ensures var body := ReadEdicts(outputs, SELF_ID, BodyOf(SELF_ID, SortById(r.edicts)));
            MessageOf(outputs, Flatten(PairsOf(r)) + TailOf(r)) == Message(body.flaw, body.edicts, FieldsOf(PairsOf(r)))
  {
    hide FieldsOf, PairsOf, AscendingFrom, BodyOf, ReadEdicts, Flatten, SortById;
    PairTags(r);
    SortedChain(r.edicts);
    ScanWritten(PairsOf(r), TailOf(r));
    assert PairsOf(r) + [] == PairsOf(r);
    if r.edicts == [] {
      EmptyBody(outputs, r.edicts);
    } else {
      assert TailOf(r)[1..] == BodyOf(SELF_ID, SortById(r.edicts));
    }
  }

  lemma EmptyBody(outputs: u32, edicts: seq<Edict>)
    requires edicts == []
    ensures SortById(edicts) == [] && AscendingFrom(SELF_ID, SortById(edicts))
    ensures ReadEdicts(outputs, SELF_ID, BodyOf(SELF_ID, SortById(edicts))) == ReadBody([], None)
  {
  }

  /** The edicts of a well-formed runestone come back sorted by id, those of one id in their order. */
  lemma EdictsBack(outputs: u32, edicts: seq<Edict>)
    requires AscendingFrom(SELF_ID, SortById(edicts)) && forall e :: e in edicts ==> EdictFits(outputs, e)
    ensures ReadEdicts(outputs, SELF_ID, BodyOf(SELF_ID, SortById(edicts))) == ReadBody(SortById(edicts), None)
  {
    hide SortById, AscendingFrom, BodyOf, ReadEdicts, EdictFits, WithId;
    SortIsStable(edicts, SELF_ID);
    ReadWrittenEdicts(outputs, SELF_ID, SortById(edicts));
  }

  function Normal(r: Runestone): Runestone {
    r.(edicts := SortById(r.edicts))
  }

  ghost function Carrying(before: seq<Script>, r: Runestone, after: seq<Script>): seq<Script> {
    before + [EncipherOf(r)] + after
  }

  /** Deciphering what was enciphered gives the runestone back with its edicts stably sorted by id. */
  lemma RoundTrip(before: seq<Script>, r: Runestone, after: seq<Script>)
    requires |Carrying(before, r, after)| <= U32_MAX && forall s :: s in before ==> !IsRunestone(s)
    requires WellFormed(r, |Carrying(before, r, after)|)
    ensures DecipherOf(Carrying(before, r, after)) == Some(RunestoneArtifact(Normal(r)))
  {
    hide PairsOf, TailOf, EncodeAll, Flatten, MessageOf, SortById, FieldsOf, ReadEdicts, AscendingFrom, BodyOf, Integers, PayloadOf,
      ReadEtching, Read, ReadTwo, LeftFlags, LeftEvenTag, ReadFlags, IsRunestone, EncipherOf, Etching.Supply, EdictFits;
    var outputs := |Carrying(before, r, after)|;
    PayloadOfEncipher(before, r, after);
    IntegersOfEncodings(Flatten(PairsOf(r)) + TailOf(r));
    WrittenMessage(outputs, r);
    EdictsBack(outputs, r.edicts);
    EtchingBack(r, outputs);
    MintAndPointerBack(r, outputs);
    NothingLeft(r, outputs);
  }

  // ----- What a reader can return -----

  lemma ReadsAreWellFormed(outputs: u32, fields: Fields)
    ensures var e := ReadEtching(fields);
            e.Some? ==> (e.value.divisibility.Some? ==> e.value.divisibility.value <= MAX_DIVISIBILITY)
                        && (e.value.spacers.Some? ==> e.value.spacers.value <= MAX_SPACERS)
    ensures ReadTwo(fields, TAG_MINT, ToMint).Some? ==> ValidId(ReadTwo(fields, TAG_MINT, ToMint).value)
    ensures var p := Read<u32>(fields, TAG_POINTER, ToPointer(outputs)); p.Some? ==> p.value < outputs
  {
    hide Values, ReadTerms, ReadFlags, FlagSet;
  }

  lemma MessageEdicts(outputs: u32, payload: seq<u128>)
    ensures AscendingIds(MessageOf(outputs, payload).edicts)
    ensures forall e :: e in MessageOf(outputs, payload).edicts ==> EdictFits(outputs, e)
  {
    hide ScanOf, FieldsOf, ReadEdicts, AscendingFrom, BodyOf, EdictFits;
    var s := ScanOf(payload);
    if s.body.Some? {
      WriteReadEdicts(outputs, SELF_ID, s.body.value);
      ChainAscends(SELF_ID, ReadEdicts(outputs, SELF_ID, s.body.value).edicts);
    }
  }

  lemma InterpretedIsWellFormed(outputs: u32, m: Message, r: Runestone)
    requires Interpret(outputs, m) == RunestoneArtifact(r)
    requires forall e :: e in m.edicts ==> EdictFits(outputs, e)
    ensures WellFormed(r, outputs) && r.edicts == m.edicts
  {
    hide ReadEtching, Read, ReadTwo, LeftFlags, LeftEvenTag, ReadFlags, Etching.Supply, EdictFits, ValidId;
    ReadsAreWellFormed(outputs, m.fields);
  }

  /** Whatever the transaction, a runestone read from it is well-formed and has its edicts in id order. */
  lemma DecipheredIsWellFormed(outputs: seq<Script>, r: Runestone)
    requires |outputs| <= U32_MAX && DecipherOf(outputs) == Some(RunestoneArtifact(r))
    ensures WellFormed(r, |outputs|) && AscendingIds(r.edicts)
  {
    hide PayloadOf, Integers, MessageOf, Interpret, WellFormed, EdictFits, AscendingIds;
    var integers := Integers(PayloadOf(outputs).value.bytes).value;
    var m := MessageOf(|outputs|, integers);
    MessageEdicts(|outputs|, integers);
    InterpretedIsWellFormed(|outputs|, m, r);
  }

  lemma NormalIsWellFormed(r: Runestone, outputs: u32)
    ensures WellFormed(Normal(r), outputs) <==> WellFormed(r, outputs)
  {
    hide SortById, Etching.Supply, EdictFits, ValidId, WithId, AscendingIds;
    SortIsStable(r.edicts, SELF_ID);
    var n := Normal(r);
    assert n.etching == r.etching && n.mint == r.mint && n.pointer == r.pointer;
    if forall e :: e in n.edicts ==> EdictFits(outputs, e) {
      forall e | e in r.edicts ensures EdictFits(outputs, e) {
        assert e in n.edicts;
      }
    }
    if forall e :: e in r.edicts ==> EdictFits(outputs, e) {
      forall e | e in n.edicts ensures EdictFits(outputs, e) {
        assert e in r.edicts;
      }
    }
  }

  /** The round trip succeeds for the well-formed runestones and for no others. */
  lemma RoundTripExactly(before: seq<Script>, r: Runestone, after: seq<Script>)
    requires |Carrying(before, r, after)| <= U32_MAX && forall s :: s in before ==> !IsRunestone(s)
    ensures DecipherOf(Carrying(before, r, after)) == Some(RunestoneArtifact(Normal(r)))
        <==> WellFormed(r, |Carrying(before, r, after)|)
  {
    hide DecipherOf, WellFormed, Carrying, IsRunestone, Normal;
    if WellFormed(r, |Carrying(before, r, after)|) {
      RoundTrip(before, r, after);
    }
    if DecipherOf(Carrying(before, r, after)) == Some(RunestoneArtifact(Normal(r))) {
      DecipheredIsWellFormed(Carrying(before, r, after), Normal(r));
      NormalIsWellFormed(r, |Carrying(before, r, after)|);
    }
  }

  /** A runestone that was read is written and read again without change, in any transaction with as many outputs. */
  lemma FixedPoint(outputs: seq<Script>, before: seq<Script>, r: Runestone, after: seq<Script>)
    requires |outputs| <= U32_MAX && DecipherOf(outputs) == Some(RunestoneArtifact(r))
    requires |Carrying(before, r, after)| == |outputs| && forall s :: s in before ==> !IsRunestone(s)
    ensures DecipherOf(Carrying(before, r, after)) == Some(RunestoneArtifact(r))
  {
    hide DecipherOf, WellFormed, Carrying, IsRunestone, SortById, AscendingIds;
    DecipheredIsWellFormed(outputs, r);
    SortedStays(r.edicts);
    RoundTrip(before, r, after);
  }

  // ----- Tags nobody knows -----

  /** Fields that differ in one unknown odd tag only. */
  ghost predicate SameButFor(f: Fields, g: Fields, tag: u128) {
    Tidy(f) && Tidy(g) && forall t :: t != tag ==> Values(f, t) == Values(g, t)
  }

  lemma KnownTags()
    ensures TAG_FLAGS in ALL_TAGS && TAG_MINT in ALL_TAGS && TAG_POINTER in ALL_TAGS && TAG_CAP in ALL_TAGS && TAG_AMOUNT in ALL_TAGS
    ensures TAG_HEIGHT_START in ALL_TAGS && TAG_HEIGHT_END in ALL_TAGS && TAG_OFFSET_START in ALL_TAGS && TAG_OFFSET_END in ALL_TAGS
    ensures TAG_DIVISIBILITY in ALL_TAGS && TAG_PREMINE in ALL_TAGS && TAG_RUNE in ALL_TAGS
    ensures TAG_SPACERS in ALL_TAGS && TAG_SYMBOL in ALL_TAGS
  {
  }

  lemma SameRead<T>(f: Fields, g: Fields, tag: u128, t: u128, with: u128 -> Option<T>)
    requires SameButFor(f, g, tag) && t != tag
    ensures Read(f, t, with) == Read(g, t, with)
  {
    hide Values, Tidy;
    assert Values(f, t) == Values(g, t);
  }

  lemma SameTerms(f: Fields, g: Fields, tag: u128)
    requires SameButFor(f, g, tag) && tag !in ALL_TAGS
    ensures ReadTerms(f) == ReadTerms(g)
  {
    hide Values, SameButFor, Read;
    KnownTags();
    SameRead(f, g, tag, TAG_AMOUNT, Whole);
    SameRead(f, g, tag, TAG_CAP, Whole);
    SameRead(f, g, tag, TAG_HEIGHT_START, ToU64);
    SameRead(f, g, tag, TAG_HEIGHT_END, ToU64);
    SameRead(f, g, tag, TAG_OFFSET_START, ToU64);
    SameRead(f, g, tag, TAG_OFFSET_END, ToU64);
  }

  lemma SameFlags(f: Fields, g: Fields, tag: u128)
    requires SameButFor(f, g, tag) && tag !in ALL_TAGS
    ensures ReadFlags(f) == ReadFlags(g) && ReadTwo(f, TAG_MINT, ToMint) == ReadTwo(g, TAG_MINT, ToMint)
  {
    hide Values, Tidy;
    KnownTags();
    assert Values(f, TAG_FLAGS) == Values(g, TAG_FLAGS) && Values(f, TAG_MINT) == Values(g, TAG_MINT);
  }

  lemma SameReads(outputs: u32, f: Fields, g: Fields, tag: u128)
    requires SameButFor(f, g, tag) && tag !in ALL_TAGS
    ensures ReadEtching(f) == ReadEtching(g) && ReadFlags(f) == ReadFlags(g)
    ensures ReadTwo(f, TAG_MINT, ToMint) == ReadTwo(g, TAG_MINT, ToMint)
    ensures Read(f, TAG_POINTER, ToPointer(outputs)) == Read(g, TAG_POINTER, ToPointer(outputs))
  {
    hide Values, SameButFor, Read, ReadTerms, ReadFlags, ReadTwo;
    KnownTags();
    SameTerms(f, g, tag);
    SameFlags(f, g, tag);
    SameRead(f, g, tag, TAG_POINTER, ToPointer(outputs));
    SameRead(f, g, tag, TAG_DIVISIBILITY, ToDivisibility);
    SameRead(f, g, tag, TAG_PREMINE, Whole);
    SameRead(f, g, tag, TAG_RUNE, Whole);
    SameRead(f, g, tag, TAG_SPACERS, ToSpacers);
    SameRead(f, g, tag, TAG_SYMBOL, ToSymbol);
  }

  lemma SameConsumed(outputs: u32, f: Fields, g: Fields, tag: u128, t: u128)
    requires SameButFor(f, g, tag) && tag !in ALL_TAGS && t != tag
    ensures Consumed(outputs, f, t) == Consumed(outputs, g, t)
  {
    hide Values, SameButFor, Read, ReadFlags, FlagSet, ReadTwo, TermsUsed;
    SameFlags(f, g, tag);
    SameTermsUsed(f, g, tag, t);
    SameRead(f, g, tag, t, ToPointer(outputs));
    SameRead(f, g, tag, t, ToDivisibility);
    SameRead(f, g, tag, t, Whole);
    SameRead(f, g, tag, t, ToSpacers);
    SameRead(f, g, tag, t, ToSymbol);
  }

  lemma SameTermsUsed(f: Fields, g: Fields, tag: u128, t: u128)
    requires SameButFor(f, g, tag) && t != tag
    ensures TermsUsed(f, t) == TermsUsed(g, t)
  {
    hide Values, SameButFor, Read;
    SameRead(f, g, tag, t, Whole);
    SameRead(f, g, tag, t, ToU64);
  }

  lemma SameLeft(outputs: u32, f: Fields, g: Fields, tag: u128, t: u128)
    requires SameButFor(f, g, tag) && tag !in ALL_TAGS && t != tag
    ensures t in f <==> t in g
    ensures t in f ==> f[t] == g[t] && Consumed(outputs, f, t) == Consumed(outputs, g, t)
  {
    hide Consumed;
    assert Values(f, t) == Values(g, t);
    SameConsumed(outputs, f, g, tag, t);
  }

  lemma OddTagUnseen(outputs: u32, m: Message, n: Message, tag: u128)
    requires SameButFor(m.fields, n.fields, tag) && tag !in ALL_TAGS && tag % 2 == 1
    requires m.flaw == n.flaw && m.edicts == n.edicts
    ensures Interpret(outputs, m) == Interpret(outputs, n)
  {
    hide ReadEtching, ReadFlags, Read, ReadTwo, Consumed, Etching.Supply, LeftFlags, SameButFor;
    SameReads(outputs, m.fields, n.fields, tag);
    forall t: u128 | t != tag {
      SameLeft(outputs, m.fields, n.fields, tag, t);
    }
  }

  lemma MessageOfPairs(outputs: u32, pairs: seq<Pair>, tail: seq<u128>)
    requires NoBodyTag(pairs) && ScanOf(tail).pairs == []
    ensures MessageOf(outputs, Flatten(pairs) + tail) == MessageOf(outputs, tail).(fields := FieldsOf(pairs))
  {
    hide ScanOf, FieldsOf, Flatten, ReadEdicts;
    ScanWritten(pairs, tail);
    assert pairs + [] == pairs;
  }

  lemma QueueWithout(a: seq<Pair>, x: Pair, b: seq<Pair>, t: u128)
    ensures TagQueue(a + [x] + b, t) == TagQueue(a, t) + (if x.0 == t then [x.1] else []) + TagQueue(b, t)
    ensures TagQueue(a + b, t) == TagQueue(a, t) + TagQueue(b, t)
  {
    hide TagQueue;
    QueueAppend(a + [x], b, t);
    QueueAppend(a, [x], t);
    QueueAppend(a, b, t);
    QueueOne(x, t);
  }

  lemma OneMorePair(a: seq<Pair>, x: Pair, b: seq<Pair>)
    ensures SameButFor(FieldsOf(a + [x] + b), FieldsOf(a + b), x.0)
    ensures Values(FieldsOf(a + [x] + b), x.0) != []
  {
    hide FieldsOf, TagQueue, Values;
    FieldsAreQueues(a + [x] + b, x.0);
    FieldsAreQueues(a + b, x.0);
    QueueWithout(a, x, b, x.0);
    forall t | t != x.0 ensures Values(FieldsOf(a + [x] + b), t) == Values(FieldsOf(a + b), t) {
      FieldsAreQueues(a + [x] + b, t);
      FieldsAreQueues(a + b, t);
      QueueWithout(a, x, b, t);
    }
  }

  /** An unknown odd tag changes nothing. */
  lemma UnknownOddTagIsIgnored(outputs: u32, a: seq<Pair>, x: Pair, b: seq<Pair>, tail: seq<u128>)
    requires NoBodyTag(a + [x] + b) && ScanOf(tail).pairs == []
    requires x.0 !in ALL_TAGS && x.0 % 2 == 1
    ensures Interpret(outputs, MessageOf(outputs, Flatten(a + [x] + b) + tail)) ==
            Interpret(outputs, MessageOf(outputs, Flatten(a + b) + tail))
  {
    hide ScanOf, FieldsOf, Flatten, MessageOf, Interpret, SameButFor;
    assert forall p :: p in a + b ==> p in a + [x] + b;
    MessageOfPairs(outputs, a + [x] + b, tail);
    MessageOfPairs(outputs, a + b, tail);
    OneMorePair(a, x, b);
    OddTagUnseen(outputs, MessageOf(outputs, Flatten(a + [x] + b) + tail), MessageOf(outputs, Flatten(a + b) + tail), x.0);
  }

  lemma EvenTagSeen(outputs: u32, m: Message, n: Message, tag: u128)
    requires SameButFor(m.fields, n.fields, tag) && tag !in ALL_TAGS && tag % 2 == 0 && Values(m.fields, tag) != []
    requires m.flaw == n.flaw && m.edicts == n.edicts
    ensures Interpret(outputs, m).CenotaphArtifact?
    ensures Interpret(outputs, m).cenotaph.flaw ==
            if Interpret(outputs, n).CenotaphArtifact? then Interpret(outputs, n).cenotaph.flaw else Some(UnrecognizedEvenTag)
    ensures Interpret(outputs, m).cenotaph.mint == ReadTwo(n.fields, TAG_MINT, ToMint)
  {
    hide ReadEtching, ReadFlags, Read, ReadTwo, Consumed, Etching.Supply, LeftFlags, FlagSet, SameButFor;
    SameReads(outputs, m.fields, n.fields, tag);
    forall t: u128 | t != tag {
      SameLeft(outputs, m.fields, n.fields, tag, t);
    }
    UnreadTags(outputs, m.fields);
    assert tag in m.fields && Consumed(outputs, m.fields, tag) == 0;
  }

  /** An unknown even tag makes a cenotaph: the flaw found without it, if there was one, or the tag itself.
      The mint is the same as without it. */
  lemma UnknownEvenTagMakesACenotaph(outputs: u32, a: seq<Pair>, x: Pair, b: seq<Pair>, tail: seq<u128>)
    requires NoBodyTag(a + [x] + b) && ScanOf(tail).pairs == []
    requires x.0 !in ALL_TAGS && x.0 % 2 == 0
    ensures var seen := Interpret(outputs, MessageOf(outputs, Flatten(a + [x] + b) + tail));
            var without := Interpret(outputs, MessageOf(outputs, Flatten(a + b) + tail));
            && seen.CenotaphArtifact?
            && seen.cenotaph.flaw == (if without.CenotaphArtifact? then without.cenotaph.flaw else Some(UnrecognizedEvenTag))
            && seen.cenotaph.mint == if without.CenotaphArtifact? then without.cenotaph.mint else without.runestone.mint
  {
    hide ScanOf, FieldsOf, Flatten, MessageOf, SameButFor, FlawOf, ReadEtching, Read, ReadTwo;
    assert forall p :: p in a + b ==> p in a + [x] + b;
    MessageOfPairs(outputs, a + [x] + b, tail);
    MessageOfPairs(outputs, a + b, tail);
    OneMorePair(a, x, b);
    EvenTagSeen(outputs, MessageOf(outputs, Flatten(a + [x] + b) + tail), MessageOf(outputs, Flatten(a + b) + tail), x.0);
  }
}
