/** Unsigned LEB128 integers of at most 128 bits (crates/ordinals/src/varint.rs, and `integers` in runestone.rs:237-248).
    The format is section 7.6 of the DWARF Debugging Information Format, version 5. */
module Varints {
  import opened Basics
  import opened Bits

  datatype VarintError = Overlong | Overflow | Unterminated

  datatype Decoded = Decoded(value: nat, length: nat)

  // ----- Encoding -----

  /** Seven bits a byte, low bits first; all bytes but the last have bit 7 set. */
  function Encode(n: nat): (bytes: seq<u8>)
    ensures |bytes| > 0
  {
    if n < 128 then [n] else [n % 128 + 128] + Encode(n / 128)
  }

  /** The low byte of `n` with bit 7 set. */
  function LowByteMarked(n: nat): u8 {
    var low := n % 256;
    if low < 128 then low + 128 else low
  }

  method EncodeToVec(n: u128, v: seq<u8>) returns (v': seq<u8>)
    ensures v' == v + Encode(n)
  {
    v' := v;
    var m := n;
    while m / 128 > 0
      invariant v' + Encode(m) == v + Encode(n)
    {
      assert LowByteMarked(m) == m % 128 + 128;
      assert v' + Encode(m) == (v' + [LowByteMarked(m)]) + Encode(m / 128);
      v' := v' + [LowByteMarked(m)];
      m := m / 128;
    }
    v' := v' + [m % 256];
  }

  // ----- Decoding -----

  /** The number whose groups start at byte `i`, and the position behind it. */
  function DecodeTail(buffer: seq<u8>, i: nat): Result<Decoded, VarintError>
    requires i <= |buffer|
    decreases |buffer| - i
  {
    if i == |buffer| then Err(Unterminated)
    else if i > 18 then Err(Overlong)
    else if i == 18 && buffer[i] % 128 >= 4 then Err(Overflow)
    else if buffer[i] < 128 then Ok(Decoded(buffer[i], i + 1))
    else
      match DecodeTail(buffer, i + 1)
      case Ok(d) => Ok(Decoded(buffer[i] % 128 + 128 * d.value, d.length))
      case Err(e) => Err(e)
  }

  function Decode(buffer: seq<u8>): Result<Decoded, VarintError> {
    DecodeTail(buffer, 0)
  }

  /** A successful decoding reads at most 19 bytes and its value fits in 128 bits. */
  lemma {:induction false} DecodedFits(buffer: seq<u8>, i: nat)
    requires i <= |buffer| && DecodeTail(buffer, i).Ok?
    ensures i < DecodeTail(buffer, i).value.length <= Min(19, |buffer|)
    ensures i <= 18 && DecodeTail(buffer, i).value.value < Pow2(128 - 7 * i)
    decreases |buffer| - i
  {
    hide Pow2;
    Pow2Word();
    if i < 18 {
      Pow2Seven(128 - 7 * (i + 1));
      SmallGroup(128 - 7 * (i + 1));
      if buffer[i] >= 128 {
        DecodedFits(buffer, i + 1);
      }
    }
  }

  lemma SmallGroup(k: nat)
    ensures 128 * Pow2(k) >= 128
  {
  }

  lemma DecodeIsShort(buffer: seq<u8>)
    requires Decode(buffer).Ok?
    ensures 0 < Decode(buffer).value.length <= Min(19, |buffer|)
    ensures Decode(buffer).value.value <= U128_MAX
  {
    hide Pow2;
    DecodedFits(buffer, 0);
    Pow2Word();
  }

  /** What decoding makes of `n` already read below bit `7 * i`. */
  ghost predicate Continues(goal: Result<Decoded, VarintError>, tail: Result<Decoded, VarintError>, n: nat, i: nat) {
    match tail
    case Ok(d) => goal == Ok(Decoded(n + d.value * Pow2(7 * i), d.length))
    case Err(e) => goal == Err(e)
  }

  lemma ContinuesStep(goal: Result<Decoded, VarintError>, buffer: seq<u8>, n: nat, i: nat)
    requires i < |buffer| && i <= 18 && !(i == 18 && buffer[i] % 128 >= 4) && n < Pow2(7 * i)
    requires Continues(goal, DecodeTail(buffer, i), n, i)
    ensures ShiftLeft(buffer[i] % 128, 7 * i) == (buffer[i] % 128) * Pow2(7 * i)
    ensures Or(n, (buffer[i] % 128) * Pow2(7 * i)) == n + (buffer[i] % 128) * Pow2(7 * i)
    ensures n + (buffer[i] % 128) * Pow2(7 * i) < Pow2(7 * (i + 1))
    ensures buffer[i] < 128 ==> goal == Ok(Decoded(n + buffer[i] * Pow2(7 * i), i + 1))
    ensures buffer[i] >= 128 ==>
              Continues(goal, DecodeTail(buffer, i + 1), n + (buffer[i] % 128) * Pow2(7 * i), i + 1)
    ensures n + (buffer[i] % 128) * Pow2(7 * i) <= U128_MAX
  {
    hide Pow2, Or;
    var b := buffer[i] % 128;
    var p := Pow2(7 * i);
    Pow2Seven(7 * i);
    OrAdds(n, b, 7 * i);
    GroupFits(n, b, i);
    if buffer[i] >= 128 && DecodeTail(buffer, i + 1).Ok? {
      Regroup(n, b, DecodeTail(buffer, i + 1).value.value, p);
    }
  }

  lemma Regroup(n: nat, b: nat, m: nat, p: nat)
    ensures n + (b + 128 * m) * p == (n + b * p) + m * (128 * p)
  {
  }

  lemma GroupFits(n: nat, b: nat, i: nat)
    requires n < Pow2(7 * i) && b < 128 && i <= 18 && (i == 18 ==> b < 4)
    ensures n + b * Pow2(7 * i) < 128 * Pow2(7 * i)
    ensures n + b * Pow2(7 * i) <= U128_MAX
  {
    hide Pow2;
    Below(n, b, 128, Pow2(7 * i));
    Pow2Word();
    Pow2Seven(7 * i);
    if i == 18 {
      Below(n, b, 4, Pow2(126));
      Pow2Top();
    } else {
      Pow2Grows(7 * i + 7, 128);
    }
  }

  lemma Below(n: nat, b: nat, c: nat, p: nat)
    requires n < p && b < c
    ensures n + b * p < c * p
  {
    assert (b + 1) * p <= c * p;
  }

  method DecodeBuffer(buffer: seq<u8>) returns (r: Result<Decoded, VarintError>)
    ensures r == Decode(buffer)
  {
    hide Pow2, Or, DecodeTail;
    ghost var goal := Decode(buffer);
    var n: u128 := 0;
    DecodeStarts(buffer);
    for i := 0 to |buffer|
      invariant n < Pow2(7 * i)
      invariant Continues(goal, DecodeTail(buffer, i), n, i)
    {
      DecodeStops(buffer, i);
      if i > 18 {
        return Err(Overlong);
      }
      var value := buffer[i] % 128;
      if i == 18 && value >= 4 {
        return Err(Overflow);
      }
      ContinuesStep(goal, buffer, n, i);
      n := Or(n, ShiftLeft(value, 7 * i));
      if buffer[i] < 128 {
        return Ok(Decoded(n, i + 1));
      }
    }
    DecodeStops(buffer, |buffer|);
    return Err(Unterminated);
  }

  lemma DecodeStarts(buffer: seq<u8>)
    ensures Continues(Decode(buffer), DecodeTail(buffer, 0), 0, 0) && 0 < Pow2(7 * 0)
  {
  }

  lemma DecodeStops(buffer: seq<u8>, i: nat)
    requires i <= |buffer|
    ensures i == |buffer| ==> DecodeTail(buffer, i) == Err(Unterminated)
    ensures i < |buffer| && i > 18 ==> DecodeTail(buffer, i) == Err(Overlong)
    ensures i < |buffer| && i == 18 && buffer[i] % 128 >= 4 ==> DecodeTail(buffer, i) == Err(Overflow)
  {
  }

  // ----- Round trips -----

  lemma {:induction false} EncodingAt(before: seq<u8>, n: nat, after: seq<u8>)
    requires |before| <= 18 && n < Pow2(128 - 7 * |before|)
    ensures DecodeTail(before + Encode(n) + after, |before|) == Ok(Decoded(n, |before| + |Encode(n)|))
    decreases n
  {
    hide Pow2;
    var buffer := before + Encode(n) + after;
    var i := |before|;
    assert buffer[i] == Encode(n)[0];
    Pow2Word();
    if n >= 128 {
      if i < 18 {
        Pow2Seven(128 - 7 * (i + 1));
        EncodingAt(before + [n % 128 + 128], n / 128, after);
        assert (before + [n % 128 + 128]) + Encode(n / 128) + after == buffer;
      }
    }
  }

  /** Decoding an encoding, whatever follows it, gives the number back and stops behind it. */
  lemma DecodeEncode(n: u128, after: seq<u8>)
    ensures Decode(Encode(n) + after) == Ok(Decoded(n, |Encode(n)|))
    ensures |Encode(n)| <= 19
  {
    hide Pow2, Encode, DecodeTail;
    Pow2Word();
    EncodingAt([], n, after);
    assert [] + Encode(n) + after == Encode(n) + after;
    DecodeIsShort(Encode(n) + after);
  }

  lemma {:induction false} TailCanonical(buffer: seq<u8>, i: nat)
    requires i <= |buffer| && DecodeTail(buffer, i).Ok?
    ensures var d := DecodeTail(buffer, i).value;
            i < d.length <= |buffer| && (Encode(d.value) == buffer[i..d.length] <==> d.length == i + 1 || buffer[d.length - 1] != 0)
    ensures DecodeTail(buffer, i).value.length > i + 1 && buffer[DecodeTail(buffer, i).value.length - 1] != 0 ==>
              DecodeTail(buffer, i).value.value >= 128
    decreases |buffer| - i
  {
    if buffer[i] >= 128 {
      TailCanonical(buffer, i + 1);
      var d := DecodeTail(buffer, i + 1).value;
      var n := buffer[i] % 128 + 128 * d.value;
      assert n / 128 == d.value && n % 128 == buffer[i] % 128;
      assert buffer[i..d.length] == [buffer[i]] + buffer[i + 1..d.length];
      assert buffer[i..d.length][1..] == buffer[i + 1..d.length];
      if n >= 128 {
        assert Encode(n)[1..] == Encode(d.value);
      }
    }
  }

  /** The bytes read are the encoding of the value, unless they end in a padding zero byte. */
  lemma DecodeIsCanonicalUnlessPadded(buffer: seq<u8>)
    requires Decode(buffer).Ok?
    ensures var d := Decode(buffer).value;
            0 < d.length <= |buffer| && (Encode(d.value) == buffer[..d.length] <==> d.length == 1 || buffer[d.length - 1] != 0)
  {
    hide DecodeTail, Encode;
    TailCanonical(buffer, 0);
  }

  // ----- Sequences of integers -----

  function EncodeAll(ns: seq<u128>): seq<u8> {
    if ns == [] then [] else Encode(ns[0]) + EncodeAll(ns[1..])
  }

  lemma EncodeAllCons(n: u128, rest: seq<u128>)
    ensures EncodeAll([n] + rest) == Encode(n) + EncodeAll(rest)
  {
    assert ([n] + rest)[1..] == rest;
  }

  /** The integers of a payload, or the error of the first bad one. */
  function Integers(payload: seq<u8>): Result<seq<u128>, VarintError>
    decreases |payload|
  {
    if payload == [] then Ok([])
    else
      match Decode(payload)
      case Err(e) => Err(e)
      case Ok(d) =>
        DecodeIsShort(payload);
        match Integers(payload[d.length..])
        case Err(e) => Err(e)
        case Ok(ns) => Ok([d.value] + ns)
  }

  ghost predicate Prefixed(goal: Result<seq<u128>, VarintError>, done: seq<u128>, tail: Result<seq<u128>, VarintError>) {
    match tail
    case Ok(ns) => goal == Ok(done + ns)
    case Err(e) => goal == Err(e)
  }

  method IntegersOf(payload: seq<u8>) returns (r: Result<seq<u128>, VarintError>)
    ensures r == Integers(payload)
  {
    hide Decode;
    ghost var goal := Integers(payload);
    var integers: seq<u128> := [];
    var i := 0;
    assert payload[0..] == payload;
    if goal.Ok? {
      assert integers + goal.value == goal.value;
    }
    while i < |payload|
      invariant i <= |payload|
      invariant Prefixed(goal, integers, Integers(payload[i..]))
    {
      var d := DecodeBuffer(payload[i..]);
      if d.Err? {
        return Err(d.error);
      }
      DecodeIsShort(payload[i..]);
      assert payload[i..][d.value.length..] == payload[i + d.value.length..];
      if Integers(payload[i + d.value.length..]).Ok? {
        var ns := Integers(payload[i + d.value.length..]).value;
        assert integers + ([d.value.value] + ns) == (integers + [d.value.value]) + ns;
      }
      integers := integers + [d.value.value];
      i := i + d.value.length;
    }
    assert payload[i..] == [];
    assert integers + [] == integers;
    return Ok(integers);
  }

  /** Reading the concatenated encodings of a list gives the list. */
  lemma {:induction false} IntegersOfEncodings(ns: seq<u128>)
    ensures Integers(EncodeAll(ns)) == Ok(ns)
  {
    hide Decode, Encode;
    if ns != [] {
      var rest := EncodeAll(ns[1..]);
      DecodeEncode(ns[0], rest);
      assert (Encode(ns[0]) + rest)[|Encode(ns[0])|..] == rest;
      IntegersOfEncodings(ns[1..]);
      assert ns == [ns[0]] + ns[1..];
    }
  }

  lemma {:induction false} EncodeAllAppend(a: seq<u128>, b: seq<u128>)
    ensures EncodeAll(a + b) == EncodeAll(a) + EncodeAll(b)
  {
    if a == [] {
      assert a + b == b;
    } else {
      assert (a + b)[0] == a[0] && (a + b)[1..] == a[1..] + b;
      EncodeAllAppend(a[1..], b);
    }
  }
}
