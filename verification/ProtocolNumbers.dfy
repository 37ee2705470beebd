/** The numbers of the protocol (crates/ordinals/src/runestone/tag.rs:3-24, runestone/flag.rs:1-7, runestone.rs:45-248,
    varint.rs:3-33): what a list of instructions means, said in bytes and numbers alone. Nothing here uses a name that reading or
    writing uses, so neither could give a number another meaning. */
module ProtocolNumbers {
  import opened Basics
  import opened Artifacts
  import opened RuneIds
  import opened Messages
  import opened Varints
  import opened Runestones
  import opened RunestoneLaws

  // ----- Bytes as integers -----

  /** Seven bits a byte, low bits first. */
  function SevenBits(bytes: seq<u8>): nat {
    if bytes == [] then 0 else bytes[0] % 128 + 128 * SevenBits(bytes[1..])
  }

  /** The bytes spell one number: all but the last go on, and no bit lies beyond bit 127. */
  ghost predicate Spells(bytes: seq<u8>, n: nat) {
    && 1 <= |bytes| <= 19 && (forall i :: 0 <= i < |bytes| - 1 ==> bytes[i] >= 128) && bytes[|bytes| - 1] < 128
    && (|bytes| == 19 ==> bytes[18] < 4) && n == SevenBits(bytes)
  }

  lemma {:induction false} TailSpells(buffer: seq<u8>, i: nat)
    requires i <= |buffer| && DecodeTail(buffer, i).Ok?
    ensures var d := DecodeTail(buffer, i).value;
            && i < d.length <= |buffer| && d.length <= 19 && d.value == SevenBits(buffer[i..d.length])
            && (forall k :: i <= k < d.length - 1 ==> buffer[k] >= 128) && buffer[d.length - 1] < 128
            && (d.length == 19 ==> buffer[18] < 4)
    decreases |buffer| - i
  {
    if buffer[i] >= 128 {
      TailSpells(buffer, i + 1);
    }
    var bytes := buffer[i..DecodeTail(buffer, i).value.length];
    assert bytes[1..] == buffer[i + 1..DecodeTail(buffer, i).value.length];
  }

  lemma {:induction false} SpelledTail(buffer: seq<u8>, i: nat, length: nat)
    requires i < length <= |buffer| && length <= 19
    requires (forall k :: i <= k < length - 1 ==> buffer[k] >= 128) && buffer[length - 1] < 128
    requires length == 19 ==> buffer[18] < 4
    ensures DecodeTail(buffer, i) == Ok(Decoded(SevenBits(buffer[i..length]), length))
    decreases |buffer| - i
  {
    assert buffer[i..length][1..] == buffer[i + 1..length];
    if i + 1 < length {
      SpelledTail(buffer, i + 1, length);
    } else {
      assert buffer[i + 1..length] == [];
    }
  }

  /** A number is read from the front of a buffer if and only if the bytes read spell it. */
  lemma NumberIsSpelled(buffer: seq<u8>, n: nat, length: nat)
    ensures Decode(buffer) == Ok(Decoded(n, length)) <==> length <= |buffer| && Spells(buffer[..length], n)
  {
    if Decode(buffer).Ok? {
      TailSpells(buffer, 0);
      assert buffer[0..Decode(buffer).value.length] == buffer[..Decode(buffer).value.length];
    }
    if length <= |buffer| && Spells(buffer[..length], n) {
      assert forall k :: 0 <= k < length ==> buffer[..length][k] == buffer[k];
      SpelledTail(buffer, 0, length);
      assert buffer[0..length] == buffer[..length];
    }
  }

  /** The first `n` bytes all go on. */
  ghost predicate GoesOn(buffer: seq<u8>, n: nat) {
    n <= |buffer| && forall i :: 0 <= i < n ==> buffer[i] >= 128
  }

  lemma {:induction false} TailFails(buffer: seq<u8>, i: nat)
    requires i <= |buffer| && i <= 19 && GoesOn(buffer, i) && (i == 19 ==> buffer[18] % 128 < 4)
    ensures DecodeTail(buffer, i) == Err(Unterminated) <==>
              GoesOn(buffer, |buffer|) && |buffer| <= 19 && (|buffer| == 19 ==> buffer[18] % 128 < 4)
    ensures DecodeTail(buffer, i) == Err(Overflow) <==> GoesOn(buffer, 18) && |buffer| > 18 && buffer[18] % 128 >= 4
    ensures DecodeTail(buffer, i) == Err(Overlong) <==> GoesOn(buffer, 19) && |buffer| > 19 && buffer[18] % 128 < 4
    decreases |buffer| - i
  {
    if i < |buffer| && i <= 18 && buffer[i] >= 128 && !(i == 18 && buffer[i] % 128 >= 4) {
      TailFails(buffer, i + 1);
    }
  }

  /** Why no number is read: the buffer ends too early, a bit lies beyond bit 127, or a nineteenth byte still goes on. */
  lemma NumberFails(buffer: seq<u8>)
    ensures Decode(buffer) == Err(Unterminated) <==>
              GoesOn(buffer, |buffer|) && |buffer| <= 19 && (|buffer| == 19 ==> buffer[18] % 128 < 4)
    ensures Decode(buffer) == Err(Overflow) <==> GoesOn(buffer, 18) && |buffer| > 18 && buffer[18] % 128 >= 4
    ensures Decode(buffer) == Err(Overlong) <==> GoesOn(buffer, 19) && |buffer| > 19 && buffer[18] % 128 < 4
  {
    TailFails(buffer, 0);
  }

  /** A number is written as bytes that spell it. */
  lemma WrittenNumberIsSpelled(n: u128)
    ensures Spells(Encode(n), n)
  {
    hide Encode, Decode, Spells;
    DecodeEncode(n, []);
    assert Encode(n) + [] == Encode(n);
    NumberIsSpelled(Encode(n), n, |Encode(n)|);
    assert Encode(n)[..|Encode(n)|] == Encode(n);
  }

  // ----- Integers as pairs and a tail -----

  /** The integers are these pairs, none of them numbered 0, and behind them nothing, half a pair, or a 0 and the body. */
  ghost predicate Splits(integers: seq<u128>, pairs: seq<Pair>, tail: seq<u128>) {
    && |integers| == 2 * |pairs| + |tail|
    && (forall i :: 0 <= i < |pairs| ==> integers[2 * i] == pairs[i].0 != 0 && integers[2 * i + 1] == pairs[i].1)
    && integers[2 * |pairs|..] == tail
    && (tail == [] || tail[0] == 0 || |tail| == 1)
  }

  lemma {:induction false} SplitIsScan(integers: seq<u128>, pairs: seq<Pair>, tail: seq<u128>)
    requires Splits(integers, pairs, tail)
    ensures ScanOf(integers) == Scan(pairs, if tail != [] && tail[0] == 0 then Some(tail[1..]) else None, tail != [] && tail[0] != 0)
    decreases |pairs|
  {
    if pairs == [] {
      assert integers == tail;
    } else {
      var rest := integers[2..];
      assert rest[2 * |pairs[1..]|..] == integers[2 * |pairs|..];
      forall i | 0 <= i < |pairs[1..]| ensures rest[2 * i] == pairs[1..][i].0 != 0 && rest[2 * i + 1] == pairs[1..][i].1 {
        assert rest[2 * i] == integers[2 * (i + 1)] && rest[2 * i + 1] == integers[2 * (i + 1) + 1];
      }
      SplitIsScan(rest, pairs[1..], tail);
      assert integers[0] == integers[2 * 0] == pairs[0].0 && integers[1] == integers[2 * 0 + 1] == pairs[0].1;
      assert [(integers[0], integers[1])] + pairs[1..] == pairs;
    }
  }

  /** Every payload splits in one way. */
  lemma {:induction false} EveryPayloadSplits(integers: seq<u128>) returns (pairs: seq<Pair>, tail: seq<u128>)
    ensures Splits(integers, pairs, tail)
    decreases |integers|
  {
    if |integers| <= 1 || integers[0] == 0 {
      pairs, tail := [], integers;
    } else {
      pairs, tail := EveryPayloadSplits(integers[2..]);
      var front := [(integers[0], integers[1])];
      forall i | 0 <= i < |front + pairs|
        ensures integers[2 * i] == (front + pairs)[i].0 != 0 && integers[2 * i + 1] == (front + pairs)[i].1
      {
        if i > 0 {
          assert integers[2 * i] == integers[2..][2 * (i - 1)] && integers[2 * i + 1] == integers[2..][2 * (i - 1) + 1];
        }
      }
      assert integers[2 * |front + pairs|..] == integers[2..][2 * |pairs|..];
      pairs := front + pairs;
    }
  }

  // ----- Values by number -----

  /** The values given under a number, in order. */
  function Under(pairs: seq<Pair>, number: u128): seq<u128> {
    if pairs == [] then []
    else (if pairs[0].0 == number then [pairs[0].1] else []) + Under(pairs[1..], number)
  }

  lemma {:induction false} UnderIsQueue(pairs: seq<Pair>, number: u128)
    ensures Under(pairs, number) == TagQueue(pairs, number)
  {
    if pairs == [] {
    } else {
      UnderIsQueue(pairs[1..], number);
      QueueAppend([pairs[0]], pairs[1..], number);
      QueueOne(pairs[0], number);
      assert [pairs[0]] + pairs[1..] == pairs;
    }
  }

  function First(pairs: seq<Pair>, number: u128): Option<u128> {
    if Under(pairs, number) == [] then None else Some(Under(pairs, number)[0])
  }

  /** A value no greater than a bound. */
  function AtMostOf(v: Option<u128>, bound: nat): Option<nat> {
    if v.Some? && v.value <= bound then Some(v.value) else None
  }

  function FlagWord(pairs: seq<Pair>): nat {
    if First(pairs, 2).Some? then First(pairs, 2).value else 0
  }

  predicate HasEtching(pairs: seq<Pair>) { FlagWord(pairs) % 2 == 1 }
  predicate HasTerms(pairs: seq<Pair>) { (FlagWord(pairs) / 2) % 2 == 1 }
  predicate HasTurbo(pairs: seq<Pair>) { (FlagWord(pairs) / 4) % 2 == 1 }

  predicate AreTerms(t: Terms, pairs: seq<Pair>) {
    && t.cap == First(pairs, 8) && t.amount == First(pairs, 10)
    && t.height.0 == AtMostOf(First(pairs, 12), 0xFFFF_FFFF_FFFF_FFFF) && t.height.1 == AtMostOf(First(pairs, 14), 0xFFFF_FFFF_FFFF_FFFF)
    && t.offset.0 == AtMostOf(First(pairs, 16), 0xFFFF_FFFF_FFFF_FFFF) && t.offset.1 == AtMostOf(First(pairs, 18), 0xFFFF_FFFF_FFFF_FFFF)
  }

  /** A Unicode scalar value. */
  predicate IsSymbol(symbol: Option<char>, v: Option<u128>) {
    if v.Some? && (v.value < 0xD800 || 0xE000 <= v.value < 0x11_0000) then symbol.Some? && symbol.value as nat == v.value
    else symbol.None?
  }

  predicate IsEtching(e: Etching, pairs: seq<Pair>) {
    && e.rune == First(pairs, 4) && e.premine == First(pairs, 6)
    && e.divisibility == AtMostOf(First(pairs, 1), 38) && e.spacers == AtMostOf(First(pairs, 3), 0x7FF_FFFF)
    && IsSymbol(e.symbol, First(pairs, 5))
    && e.turbo == HasTurbo(pairs) && e.terms.Some? == HasTerms(pairs) && (e.terms.Some? ==> AreTerms(e.terms.value, pairs))
  }

  predicate IsOptionalEtching(e: Option<Etching>, pairs: seq<Pair>) {
    e.Some? == HasEtching(pairs) && (e.Some? ==> IsEtching(e.value, pairs))
  }

  predicate IsMint(mint: Option<RuneId>, pairs: seq<Pair>) {
    var v := Under(pairs, 20);
    if |v| >= 2 && v[0] <= 0xFFFF_FFFF_FFFF_FFFF && v[1] <= 0xFFFF_FFFF && (v[0] == 0 ==> v[1] == 0) then
      mint.Some? && mint.value.block == v[0] && mint.value.tx == v[1]
    else mint.None?
  }

  predicate IsPointer(pointer: Option<u32>, pairs: seq<Pair>, outputs: u32) {
    if First(pairs, 22).Some? && First(pairs, 22).value < outputs then pointer == First(pairs, 22) else pointer == None
  }

  lemma FieldsByNumber(pairs: seq<Pair>, number: u128)
    ensures Values(FieldsOf(pairs), number) == Under(pairs, number)
  {
    FieldsAreQueues(pairs, number);
    UnderIsQueue(pairs, number);
  }

  lemma FlagsByNumber(pairs: seq<Pair>)
    ensures ReadFlags(FieldsOf(pairs)) == FlagWord(pairs)
  {
    hide FieldsOf, Under;
    FieldsByNumber(pairs, 2);
  }

  lemma TermsByNumber(pairs: seq<Pair>)
    ensures AreTerms(ReadTerms(FieldsOf(pairs)), pairs)
  {
    hide FieldsOf, Under, Values;
    FieldsByNumber(pairs, 8);
    FieldsByNumber(pairs, 10);
    FieldsByNumber(pairs, 12);
    FieldsByNumber(pairs, 14);
    FieldsByNumber(pairs, 16);
    FieldsByNumber(pairs, 18);
  }

  lemma EtchingByNumber(pairs: seq<Pair>)
    ensures IsOptionalEtching(ReadEtching(FieldsOf(pairs)), pairs)
  {
    hide FieldsOf, Under, Values, ReadTerms, AreTerms;
    FlagsByNumber(pairs);
    TermsByNumber(pairs);
    FieldsByNumber(pairs, 1);
    FieldsByNumber(pairs, 3);
    FieldsByNumber(pairs, 4);
    FieldsByNumber(pairs, 5);
    FieldsByNumber(pairs, 6);
  }

  lemma MintByNumber(pairs: seq<Pair>)
    ensures IsMint(ReadTwo(FieldsOf(pairs), TAG_MINT, ToMint), pairs)
  {
    hide FieldsOf, Under, Values;
    FieldsByNumber(pairs, 20);
  }

  lemma PointerByNumber(pairs: seq<Pair>, outputs: u32)
    ensures IsPointer(Read(FieldsOf(pairs), TAG_POINTER, ToPointer(outputs)), pairs, outputs)
  {
    hide FieldsOf, Under, Values;
    FieldsByNumber(pairs, 22);
  }

  // ----- The body -----

  /** The id reached from another by a block step and a transaction step. */
  predicate Leads(from: RuneId, block: u128, tx: u128, id: RuneId) {
    id.block == from.block + block && id.tx == if block == 0 then from.tx + tx else tx
  }

  /** No transaction but the first of block 0 has an id. */
  predicate Steps(from: RuneId, block: u128, tx: u128, id: RuneId) {
    Leads(from, block, tx, id) && (id.block == 0 ==> id.tx == 0)
  }

  /** Groups of four: block step, transaction step, amount, output. */
  ghost predicate AreGroups(body: seq<u128>, edicts: seq<Edict>, outputs: u32, from: RuneId) {
    |body| == 4 * |edicts| && forall i :: 0 <= i < |edicts| ==> IsGroup(body, edicts, i, outputs, from)
  }

  predicate IsGroup(body: seq<u128>, edicts: seq<Edict>, i: nat, outputs: u32, from: RuneId)
    requires |body| == 4 * |edicts| && i < |edicts|
  {
    && Steps(if i == 0 then from else edicts[i - 1].id, body[4 * i], body[4 * i + 1], edicts[i].id)
    && edicts[i].amount == body[4 * i + 2] && edicts[i].output == body[4 * i + 3] <= outputs
  }

  lemma GroupsCons(a: u128, b: u128, c: u128, d: u128, rest: seq<u128>, e: Edict, edicts: seq<Edict>, outputs: u32, from: RuneId)
    requires Steps(from, a, b, e.id) && e.amount == c && e.output == d <= outputs
    requires AreGroups(rest, edicts, outputs, e.id)
    ensures AreGroups([a, b, c, d] + rest, [e] + edicts, outputs, from)
  {
    hide Steps, IsGroup;
    var body, all := [a, b, c, d] + rest, [e] + edicts;
    forall i | 0 <= i < |all| ensures IsGroup(body, all, i, outputs, from) {
      if i == 0 {
        FirstGroup(a, b, c, d, rest, e, edicts, outputs, from);
      } else {
        LaterGroup(a, b, c, d, rest, e, edicts, outputs, from, i - 1);
      }
    }
  }

  lemma FirstGroup(a: u128, b: u128, c: u128, d: u128, rest: seq<u128>, e: Edict, edicts: seq<Edict>, outputs: u32, from: RuneId)
    requires Steps(from, a, b, e.id) && e.amount == c && e.output == d <= outputs && |rest| == 4 * |edicts|
    ensures IsGroup([a, b, c, d] + rest, [e] + edicts, 0, outputs, from)
  {
    hide Steps;
  }

  lemma LaterGroup(a: u128, b: u128, c: u128, d: u128, rest: seq<u128>, e: Edict, edicts: seq<Edict>, outputs: u32, from: RuneId,
                   i: nat)
    requires |rest| == 4 * |edicts| && i < |edicts| && IsGroup(rest, edicts, i, outputs, e.id)
    ensures IsGroup([a, b, c, d] + rest, [e] + edicts, i + 1, outputs, from)
  {
    hide Steps;
    var body, all := [a, b, c, d] + rest, [e] + edicts;
    var k := 4 * (i + 1);
    assert body[k] == rest[k - 4] && body[k + 1] == rest[k - 3] && body[k + 2] == rest[k - 2] && body[k + 3] == rest[k - 1];
    assert all[i + 1] == edicts[i] && all[i].id == if i == 0 then e.id else edicts[i - 1].id;
  }

  lemma {:induction false} BodyGroups(outputs: u32, from: RuneId, body: seq<u128>)
    ensures var r := ReadEdicts(outputs, from, body);
            4 * |r.edicts| <= |body| && AreGroups(body[..4 * |r.edicts|], r.edicts, outputs, from)
    decreases |body|
  {
    hide Steps, AreGroups;
    var r := ReadEdicts(outputs, from, body);
    if r.edicts == [] {
      EmptyGroups(outputs, from);
    } else {
      var e, rest := r.edicts[0], body[4..];
      StepExists(from, body[0], body[1]);
      BodyGroups(outputs, e.id, rest);
      var edicts := ReadEdicts(outputs, e.id, rest).edicts;
      GroupsCons(body[0], body[1], body[2], body[3], rest[..4 * |edicts|], e, edicts, outputs, from);
      assert r.edicts == [e] + edicts;
      assert body[..4 * |r.edicts|] == [body[0], body[1], body[2], body[3]] + rest[..4 * |edicts|];
    }
  }

  lemma EmptyGroups(outputs: u32, from: RuneId)
    ensures AreGroups([], [], outputs, from)
  {
  }

  /** What stops the reading of a body, told by the integers that are left and the last id read. */
  ghost predicate StopsWith(flaw: Option<Flaw>, left: seq<u128>, last: RuneId, outputs: u32) {
    if left == [] then flaw == None
    else if |left| < 4 then flaw == Some(TrailingIntegers)
    else if !exists id :: Steps(last, left[0], left[1], id) then flaw == Some(EdictRuneId)
    else left[3] > outputs && flaw == Some(EdictOutput)
  }

  lemma StepExists(last: RuneId, block: u128, tx: u128)
    ensures Next(last, block, tx).Some? <==> exists id :: Steps(last, block, tx, id)
    ensures Next(last, block, tx).Some? ==> Steps(last, block, tx, Next(last, block, tx).value)
  {
    var next := Next(last, block, tx);
    if next.Some? {
      assert Steps(last, block, tx, next.value);
    }
  }

  lemma {:induction false} BodyStops(outputs: u32, from: RuneId, body: seq<u128>)
    ensures var r := ReadEdicts(outputs, from, body);
            && 4 * |r.edicts| <= |body|
            && StopsWith(r.flaw, body[4 * |r.edicts|..], if r.edicts == [] then from else r.edicts[|r.edicts| - 1].id, outputs)
    decreases |body|
  {
    hide Steps;
    var r := ReadEdicts(outputs, from, body);
    if |body| >= 4 {
      StepExists(from, body[0], body[1]);
    }
    if r.edicts == [] {
      assert body[0..] == body;
    } else {
      var id := Next(from, body[0], body[1]).value;
      BodyStops(outputs, id, body[4..]);
      var s := ReadEdicts(outputs, id, body[4..]);
      assert r.edicts == [r.edicts[0]] + s.edicts && r.edicts[0].id == id;
      assert body[4 * |r.edicts|..] == body[4..][4 * |s.edicts|..];
    }
  }

  /** The edicts of a tail, and its flaw: half a pair is one; the body must consist of whole, valid groups. */
  ghost predicate IsTail(tail: seq<u128>, edicts: seq<Edict>, flaw: Option<Flaw>, outputs: u32) {
    if tail == [] then edicts == [] && flaw == None
    else if tail[0] != 0 then edicts == [] && flaw == Some(TruncatedField)
    else
      && 4 * |edicts| < |tail| && AreGroups(tail[1..4 * |edicts| + 1], edicts, outputs, RuneId(0, 0))
      && StopsWith(flaw, tail[4 * |edicts| + 1..], if edicts == [] then RuneId(0, 0) else edicts[|edicts| - 1].id, outputs)
  }

  lemma TailByNumber(outputs: u32, integers: seq<u128>, pairs: seq<Pair>, tail: seq<u128>)
    requires Splits(integers, pairs, tail)
    ensures var m := MessageOf(outputs, integers);
            m.fields == FieldsOf(pairs) && IsTail(tail, m.edicts, m.flaw, outputs)
  {
    hide FieldsOf, ReadEdicts, ScanOf, AreGroups, StopsWith;
    SplitIsScan(integers, pairs, tail);
    if tail != [] && tail[0] == 0 {
      var body := tail[1..];
      BodyGroups(outputs, RuneId(0, 0), body);
      BodyStops(outputs, RuneId(0, 0), body);
      var n := 4 * |ReadEdicts(outputs, RuneId(0, 0), body).edicts|;
      assert body[..n] == tail[1..n + 1] && body[n..] == tail[n + 1..];
    } else {
      NothingRead();
    }
  }

  lemma NothingRead()
    ensures ReadBody([], None).edicts == []
  {
  }

  // ----- Flaws -----

  /** How many values of an even number a reader wants. */
  function Wanted(pairs: seq<Pair>, outputs: u32, number: u128): nat {
    if number == 2 then 1
    else if number == 20 then
      var v := Under(pairs, 20);
      if |v| >= 2 && v[0] <= 0xFFFF_FFFF_FFFF_FFFF && v[1] <= 0xFFFF_FFFF && (v[0] == 0 ==> v[1] == 0) then 2 else 0
    else if number == 22 then (if First(pairs, 22).Some? && First(pairs, 22).value < outputs then 1 else 0)
    else if HasEtching(pairs) && (number == 4 || number == 6) then 1
    else if HasEtching(pairs) && HasTerms(pairs) && (number == 8 || number == 10) then 1
    else if HasEtching(pairs) && HasTerms(pairs) && (number == 12 || number == 14 || number == 16 || number == 18) then
      (if AtMostOf(First(pairs, number), 0xFFFF_FFFF_FFFF_FFFF).Some? then 1 else 0)
    else 0
  }

  ghost predicate EvenValueLeft(pairs: seq<Pair>, outputs: u32) {
    exists number: u128 :: number % 2 == 0 && |Under(pairs, number)| > Wanted(pairs, outputs, number)
  }

  lemma WantedIsConsumed(pairs: seq<Pair>, outputs: u32, number: u128)
    requires number % 2 == 0
    ensures |Under(pairs, number)| > Wanted(pairs, outputs, number)
        <==> |Values(FieldsOf(pairs), number)| > Consumed(outputs, FieldsOf(pairs), number)
  {
    hide FieldsOf, Under, Values, ReadFlags, FlagWord;
    FlagsByNumber(pairs);
    FieldsByNumber(pairs, number);
    FieldsByNumber(pairs, 20);
    FieldsByNumber(pairs, 22);
  }

  lemma LeftByNumber(pairs: seq<Pair>, outputs: u32)
    ensures LeftEvenTag(outputs, FieldsOf(pairs)) <==> EvenValueLeft(pairs, outputs)
  {
    hide FieldsOf, Under, Consumed, Wanted;
    var fields := FieldsOf(pairs);
    if LeftEvenTag(outputs, fields) {
      var t :| t in fields && t % 2 == 0 && |fields[t]| > Consumed(outputs, fields, t);
      WantedIsConsumed(pairs, outputs, t);
    }
    if EvenValueLeft(pairs, outputs) {
      var number: u128 :| number % 2 == 0 && |Under(pairs, number)| > Wanted(pairs, outputs, number);
      WantedIsConsumed(pairs, outputs, number);
      assert number in fields;
    }
  }

  /** Bits beyond those that are looked at: without an etching none is. */
  predicate OtherBits(pairs: seq<Pair>) {
    if HasEtching(pairs) then FlagWord(pairs) >= 8 else FlagWord(pairs) > 0
  }

  /** The supply of an etching leaves 128 bits. */
  predicate SupplyIsTooLarge(pairs: seq<Pair>) {
    && HasEtching(pairs)
    && OrZero(First(pairs, 6)) + (if HasTerms(pairs) then OrZero(First(pairs, 8)) * OrZero(First(pairs, 10)) else 0)
       > 0xFFFF_FFFF_FFFF_FFFF_FFFF_FFFF_FFFF_FFFF
  }

  /** The first flaw, in the order in which they count. */
  ghost predicate IsFlaw(flaw: Option<Flaw>, tailFlaw: Option<Flaw>, pairs: seq<Pair>, outputs: u32) {
    if tailFlaw.Some? then flaw == tailFlaw
    else if SupplyIsTooLarge(pairs) then flaw == Some(SupplyOverflow)
    else if OtherBits(pairs) then flaw == Some(UnrecognizedFlag)
    else if EvenValueLeft(pairs, outputs) then flaw == Some(UnrecognizedEvenTag)
    else flaw == None
  }

  lemma SupplyByNumber(e: Option<Etching>, pairs: seq<Pair>)
    requires IsOptionalEtching(e, pairs)
    ensures e.Some? && e.value.Supply().None? <==> SupplyIsTooLarge(pairs)
  {
    hide Under, FlagWord, IsSymbol;
    if e.Some? {
      var cap := if e.value.terms.Some? then OrZero(e.value.terms.value.cap) else 0;
      var amount := if e.value.terms.Some? then OrZero(e.value.terms.value.amount) else 0;
      if e.value.terms.None? {
        assert cap * amount == 0;
      }
    }
  }

  lemma FlagsLeftByNumber(pairs: seq<Pair>)
    ensures LeftFlags(ReadFlags(FieldsOf(pairs))) != 0 <==> OtherBits(pairs)
  {
    hide FieldsOf, ReadFlags, FlagWord;
    FlagsByNumber(pairs);
  }

  lemma FlawByNumber(outputs: u32, m: Message, pairs: seq<Pair>)
    requires m.fields == FieldsOf(pairs)
    ensures IsFlaw(FlawOf(outputs, m), m.flaw, pairs, outputs)
  {
    hide FieldsOf, ReadEtching, LeftEvenTag, LeftFlags, ReadFlags, SupplyIsTooLarge, OtherBits, EvenValueLeft, IsOptionalEtching;
    EtchingByNumber(pairs);
    SupplyByNumber(ReadEtching(m.fields), pairs);
    FlagsLeftByNumber(pairs);
    LeftByNumber(pairs, outputs);
  }

  // ----- The artifact -----

  /** What the pairs and the tail of a message mean for a transaction with so many outputs. */
  ghost predicate Means(a: Artifact, pairs: seq<Pair>, tail: seq<u128>, outputs: u32) {
    exists edicts, tailFlaw, flaw ::
      && IsTail(tail, edicts, tailFlaw, outputs) && IsFlaw(flaw, tailFlaw, pairs, outputs)
      && match a
         case RunestoneArtifact(r) =>
           && flaw == None && r.edicts == edicts && IsOptionalEtching(r.etching, pairs) && IsMint(r.mint, pairs)
           && IsPointer(r.pointer, pairs, outputs)
         case CenotaphArtifact(c) =>
           && c.flaw == flaw != None && IsMint(c.mint, pairs)
           && c.etching == if HasEtching(pairs) then First(pairs, 4) else None
  }

  /** The meaning of any message, by its numbers. */
  lemma MessageByNumber(outputs: u32, integers: seq<u128>, pairs: seq<Pair>, tail: seq<u128>)
    requires Splits(integers, pairs, tail)
    ensures Means(Interpret(outputs, MessageOf(outputs, integers)), pairs, tail, outputs)
  {
    hide FieldsOf, ReadEtching, FlawOf, MessageOf, IsTail, IsFlaw, IsMint, IsPointer, Splits, HasEtching, Under, AreTerms, IsSymbol;
    var m := MessageOf(outputs, integers);
    TailByNumber(outputs, integers, pairs, tail);
    FlawByNumber(outputs, m, pairs);
    EtchingByNumber(pairs);
    MintByNumber(pairs);
    PointerByNumber(pairs, outputs);
    assert IsTail(tail, m.edicts, m.flaw, outputs) && IsFlaw(FlawOf(outputs, m), m.flaw, pairs, outputs);
  }

  // ----- Scripts -----

  predicate IsHeader(script: Script) {
    |script| >= 2 && script[0] == Op(0x6A) && script[1] == Op(0x5D)
  }

  ghost predicate IsFirstHeader(outputs: seq<Script>, i: nat) {
    i < |outputs| && IsHeader(outputs[i]) && forall j :: 0 <= j < i ==> !IsHeader(outputs[j])
  }

  ghost predicate AllPushes(script: Script) {
    forall k :: 0 <= k < |script| ==> script[k].PushBytes?
  }

  ghost predicate IsFirstOther(script: Script, k: nat) {
    k < |script| && !script[k].PushBytes? && AllPushes(script[..k])
  }

  /** All pushes of a script, one after the other. */
  ghost function Joined(script: Script): seq<u8>
    requires AllPushes(script)
  {
    if script == [] then [] else script[0].bytes + Joined(script[1..])
  }

  lemma {:induction false} PushesByNumber(script: Script)
    ensures AllPushes(script) ==> Pushes(script) == Valid(Joined(script))
    ensures forall k: nat :: IsFirstOther(script, k) ==> Pushes(script) == Invalid(if script[k].Op? then Opcode else InvalidScript)
  {
    if script != [] {
      PushesByNumber(script[1..]);
      forall k: nat | IsFirstOther(script, k)
        ensures Pushes(script) == Invalid(if script[k].Op? then Opcode else InvalidScript)
      {
        if k > 0 {
          assert script[..k][0] == script[0] && script[1..][..k - 1] == script[..k][1..];
          assert IsFirstOther(script[1..], k - 1);
        }
      }
    }
  }

  lemma {:induction false} HeaderByNumber(outputs: seq<Script>)
    ensures PayloadOf(outputs) == None <==> forall i :: 0 <= i < |outputs| ==> !IsHeader(outputs[i])
    ensures forall i: nat :: IsFirstHeader(outputs, i) ==> PayloadOf(outputs) == Some(Pushes(outputs[i][2..]))
  {
    hide Pushes;
    if outputs != [] {
      HeaderByNumber(outputs[1..]);
      assert IsHeader(outputs[0]) == IsRunestone(outputs[0]);
      assert forall i :: 0 < i < |outputs| ==> outputs[i] == outputs[1..][i - 1];
      forall i: nat | IsFirstHeader(outputs, i) ensures PayloadOf(outputs) == Some(Pushes(outputs[i][2..])) {
        if i > 0 {
          assert IsFirstHeader(outputs[1..], i - 1);
        }
      }
    }
  }

  /** The bytes spell these numbers, one after the other. */
  ghost predicate SpellsAll(bytes: seq<u8>, ns: seq<u128>)
    decreases |ns|
  {
    if ns == [] then bytes == []
    else exists k: nat :: k <= |bytes| && Spells(bytes[..k], ns[0]) && SpellsAll(bytes[k..], ns[1..])
  }

  lemma {:induction false} IntegersAreSpelled(bytes: seq<u8>, ns: seq<u128>)
    ensures Integers(bytes) == Ok(ns) <==> SpellsAll(bytes, ns)
    decreases |ns|
  {
    hide Spells, Decode;
    if Integers(bytes) == Ok(ns) && ns != [] {
      var d := Decode(bytes).value;
      DecodeIsShort(bytes);
      NumberIsSpelled(bytes, d.value, d.length);
      assert ns == [d.value] + Integers(bytes[d.length..]).value && ns[1..] == Integers(bytes[d.length..]).value;
      IntegersAreSpelled(bytes[d.length..], ns[1..]);
    }
    if SpellsAll(bytes, ns) && ns != [] {
      var k: nat :| k <= |bytes| && Spells(bytes[..k], ns[0]) && SpellsAll(bytes[k..], ns[1..]);
      NumberIsSpelled(bytes, ns[0], k);
      IntegersAreSpelled(bytes[k..], ns[1..]);
      SpelledIsLong(bytes[..k], ns[0]);
      assert ns == [ns[0]] + ns[1..];
    }
  }

  lemma SpelledIsLong(bytes: seq<u8>, n: nat)
    requires Spells(bytes, n)
    ensures |bytes| > 0
  {
  }

  /** What the instructions behind a header mean. */
  ghost predicate HeaderMeans(script: Script, a: Option<Artifact>, outputs: u32) {
    && a.Some?
    && (forall k: nat :: IsFirstOther(script, k) ==>
          a == Some(CenotaphArtifact(Cenotaph(None, Some(if script[k].Op? then Opcode else InvalidScript), None))))
    && (AllPushes(script) ==>
          && (forall ns, pairs, tail :: SpellsAll(Joined(script), ns) && Splits(ns, pairs, tail) ==>
                Means(a.value, pairs, tail, outputs))
          && ((forall ns :: !SpellsAll(Joined(script), ns)) ==>
                a == Some(CenotaphArtifact(Cenotaph(None, Some(VarintFlaw), None)))))
  }

  lemma ScriptByNumber(script: Script, a: Option<Artifact>, outputs: seq<Script>)
    requires |outputs| <= U32_MAX && PayloadOf(outputs) == Some(Pushes(script)) && a == DecipherOf(outputs)
    ensures HeaderMeans(script, a, |outputs|)
  {
    hide Pushes, Integers, Interpret, MessageOf, Means, SpellsAll, Splits, PayloadOf;
    PushesByNumber(script);
    if AllPushes(script) {
      var bytes := Joined(script);
      forall ns, pairs, tail | SpellsAll(bytes, ns) && Splits(ns, pairs, tail) ensures Means(a.value, pairs, tail, |outputs|) {
        IntegersAreSpelled(bytes, ns);
        MessageByNumber(|outputs|, ns, pairs, tail);
      }
      if Integers(bytes).Ok? {
        IntegersAreSpelled(bytes, Integers(bytes).value);
      }
    }
  }

  /** The whole of deciphering by numbers: which output speaks, with which bytes, and what they mean. */
  lemma DecipheredByNumber(outputs: seq<Script>)
    requires |outputs| <= U32_MAX
    ensures DecipherOf(outputs) == None <==> forall i :: 0 <= i < |outputs| ==> !IsHeader(outputs[i])
    ensures forall i: nat :: IsFirstHeader(outputs, i) ==> HeaderMeans(outputs[i][2..], DecipherOf(outputs), |outputs|)
  {
    hide Pushes, Integers, Interpret, MessageOf, HeaderMeans, PayloadOf;
    HeaderByNumber(outputs);
    forall i: nat | IsFirstHeader(outputs, i) ensures HeaderMeans(outputs[i][2..], DecipherOf(outputs), |outputs|) {
      ScriptByNumber(outputs[i][2..], DecipherOf(outputs), outputs);
    }
  }

  // ----- Writing -----

  function Maybe(v: Option<nat>): seq<nat> {
    if v.Some? then [v.value] else []
  }

  /** What is written under each number. */
  ghost predicate IsWritten(r: Runestone, pairs: seq<Pair>) {
    && (r.etching.None? ==> forall n: u128 :: n != 20 && n != 22 ==> Under(pairs, n) == [])
    && (r.etching.Some? ==>
          var e := r.etching.value;
          && Under(pairs, 2) == [1 + (if e.terms.Some? then 2 else 0) + if e.turbo then 4 else 0]
          && Under(pairs, 4) == Maybe(e.rune) && Under(pairs, 6) == Maybe(e.premine)
          && Under(pairs, 1) == Maybe(e.divisibility) && Under(pairs, 3) == Maybe(e.spacers)
          && Under(pairs, 5) == (if e.symbol.Some? then [e.symbol.value as nat] else [])
          && (if e.terms.Some? then TermsWritten(e.terms.value, pairs)
              else forall n: u128 | n in {8, 10, 12, 14, 16, 18} :: Under(pairs, n) == []))
    && Under(pairs, 20) == (if r.mint.Some? then [r.mint.value.block, r.mint.value.tx] else [])
    && Under(pairs, 22) == Maybe(r.pointer)
  }

  ghost predicate TermsWritten(t: Terms, pairs: seq<Pair>) {
    && Under(pairs, 8) == Maybe(t.cap) && Under(pairs, 10) == Maybe(t.amount)
    && Under(pairs, 12) == Maybe(t.height.0) && Under(pairs, 14) == Maybe(t.height.1)
    && Under(pairs, 16) == Maybe(t.offset.0) && Under(pairs, 18) == Maybe(t.offset.1)
  }

  lemma UnderWritten(r: Runestone, number: u128)
    ensures Under(PairsOf(r), number) == Written(r, number)
  {
    hide Under, PairsOf, Written;
    UnderIsQueue(PairsOf(r), number);
    WrittenQueues(r, number);
  }

  lemma PairsAreWritten(r: Runestone)
    ensures IsWritten(r, PairsOf(r))
  {
    hide Under, PairsOf;
    forall n: u128 {
      UnderWritten(r, n);
    }
  }

  /** The body of sorted edicts: groups of four that lead from id to id. */
  ghost predicate GroupsLead(body: seq<u128>, edicts: seq<Edict>, from: RuneId)
    decreases |edicts|
  {
    if edicts == [] then body == []
    else
      && |body| >= 4 && Leads(from, body[0], body[1], edicts[0].id) && body[2] == edicts[0].amount && body[3] == edicts[0].output
      && GroupsLead(body[4..], edicts[1..], edicts[0].id)
  }

  lemma {:induction false} BodyLeads(from: RuneId, edicts: seq<Edict>)
    requires AscendingFrom(from, edicts)
    ensures GroupsLead(BodyOf(from, edicts), edicts, from)
    decreases |edicts|
  {
    if edicts != [] {
      BodyLeads(edicts[0].id, edicts[1..]);
      assert BodyOf(from, edicts)[4..] == BodyOf(edicts[0].id, edicts[1..]);
    }
  }

  lemma {:induction false} FlattenedSplits(pairs: seq<Pair>, tail: seq<u128>)
    requires NoBodyTag(pairs) && (tail == [] || tail[0] == 0)
    ensures Splits(Flatten(pairs) + tail, pairs, tail)
    decreases |pairs|
  {
    var all := Flatten(pairs) + tail;
    if pairs == [] {
      assert all == tail && all[0..] == tail;
    } else {
      var rest := Flatten(pairs[1..]) + tail;
      FlattenedSplits(pairs[1..], tail);
      assert all == [pairs[0].0, pairs[0].1] + rest;
      assert pairs[0] in pairs;
      SplitsCons(pairs[0], rest, pairs[1..], tail);
      assert [pairs[0]] + pairs[1..] == pairs;
    }
  }

  lemma SplitsCons(pair: Pair, rest: seq<u128>, pairs: seq<Pair>, tail: seq<u128>)
    requires Splits(rest, pairs, tail) && pair.0 != 0
    ensures Splits([pair.0, pair.1] + rest, [pair] + pairs, tail)
  {
    var all, more := [pair.0, pair.1] + rest, [pair] + pairs;
    forall i | 0 <= i < |more| ensures all[2 * i] == more[i].0 != 0 && all[2 * i + 1] == more[i].1 {
      if i > 0 {
        assert all[2 * i] == rest[2 * (i - 1)] && all[2 * i + 1] == rest[2 * (i - 1) + 1];
      }
    }
    assert all[2 * |more|..] == rest[2 * |pairs|..];
  }

  lemma {:induction false} ChunksArePushes(bytes: seq<u8>)
    ensures AllPushes(Chunks(bytes)) && Joined(Chunks(bytes)) == bytes
    ensures forall k :: 0 <= k < |Chunks(bytes)| ==>
              1 <= |Chunks(bytes)[k].bytes| <= 520 && (k < |Chunks(bytes)| - 1 ==> |Chunks(bytes)[k].bytes| == 520)
    decreases |bytes|
  {
    if |bytes| > 0 {
      var n := Min(MAX_STACK_ELEMENT_SIZE, |bytes|);
      ChunksStep(bytes);
      ChunksArePushes(bytes[n..]);
      assert Chunks(bytes)[1..] == Chunks(bytes[n..]);
      assert bytes[..n] + bytes[n..] == bytes;
    }
  }

  /** The whole of writing by numbers, for any runestone: the header, pushes of 520 bytes and a shorter one, and in them the numbers of the
      fields, a 0 and the groups of the edicts, which are sorted by id. */
  lemma EncipheredByNumber(r: Runestone)
    ensures var script, pairs, tail := EncipherOf(r), PairsOf(r), TailOf(r);
            var ns := Flatten(pairs) + tail;
            && IsHeader(script) && AllPushes(script[2..])
            && (forall k :: 2 <= k < |script| ==>
                  1 <= |script[k].bytes| <= 520 && (k < |script| - 1 ==> |script[k].bytes| == 520))
            && SpellsAll(Joined(script[2..]), ns) && Splits(ns, pairs, tail) && IsWritten(r, pairs)
            && (if r.edicts == [] then tail == []
                else tail != [] && tail[0] == 0 && GroupsLead(tail[1..], SortById(r.edicts), RuneId(0, 0)))
  {
    hide PairsOf, Flatten, EncodeAll, Chunks, SortById, BodyOf, IsWritten, SpellsAll, AscendingFrom, GroupsLead, Splits, Joined;
    var script, pairs, tail := EncipherOf(r), PairsOf(r), TailOf(r);
    var ns := Flatten(pairs) + tail;
    ChunksArePushes(EncodeAll(ns));
    assert script[2..] == Chunks(EncodeAll(ns));
    IntegersOfEncodings(ns);
    IntegersAreSpelled(EncodeAll(ns), ns);
    PairsAreWritten(r);
    WrittenQueues(r, 0);
    NoZeroWritten(r);
    if r.edicts != [] {
      SortedChain(r.edicts);
      BodyLeads(RuneId(0, 0), SortById(r.edicts));
      assert tail[1..] == BodyOf(RuneId(0, 0), SortById(r.edicts));
    }
    FlattenedSplits(pairs, tail);
  }

  lemma NoZeroWritten(r: Runestone)
    ensures NoBodyTag(PairsOf(r))
  {
    hide PairsOf, Written;
    WrittenQueues(r, 0);
    NothingUnderZero(r);
    NoBodyWithoutQueue(PairsOf(r));
  }

  lemma NothingUnderZero(r: Runestone)
    ensures Written(r, 0) == []
  {
  }
}
