/** The wire format of a `numeric` column: base 10000 groups, most significant first (src/db/types/pg_numeric_u128.rs). */
module PgNumerics {
  import opened Basics
  import opened Arithmetic

  type u16 = x: nat | x <= 0xFFFF

  const MODULUS: nat := U128_MAX + 1

  function Power(k: nat): (p: nat)
    ensures p > 0
  {
    if k == 0 then 1 else 10000 * Power(k - 1)
  }

  function Times(v: nat, p: nat): nat { v * p }

  /** What is left of a number in 128 bits. */
  function Word(n: nat): u128 { n % MODULUS }

  /** The groups of a number, none for zero. */
  function Groups(n: nat): seq<u16> {
    if n == 0 then [] else Groups(n / 10000) + [n % 10000]
  }

  function Group(groups: seq<u16>, i: nat): nat {
    if i < |groups| then groups[i] else 0
  }

  /** The sum of the first `i` terms of a number with `weight + 1` groups, missing groups counting as zero. */
  function GroupTotal(groups: seq<u16>, weight: nat, i: nat): nat
    requires i <= weight + 1
  {
    if i == 0 then 0 else GroupTotal(groups, weight, i - 1) + Times(Group(groups, i - 1), Power(weight - (i - 1)))
  }

  // ----- Bytes -----

  function U16(n: u16): seq<u8> {
    [n / 256, n % 256]
  }

  function ReadU16(raw: seq<u8>, i: nat): u16
    requires i + 1 < |raw|
  {
    256 * (raw[i] as nat) + raw[i + 1]
  }

  function GroupBytes(groups: seq<u16>): seq<u8> {
    if groups == [] then [] else GroupBytes(DropLast(groups)) + U16(Last(groups))
  }

  /** Group count, weight, sign, scale and groups, two bytes each. */
  function Wire(groups: seq<u16>, weight: u16): seq<u8>
    requires |groups| <= 0xFFFF
  {
    U16(|groups|) + U16(weight) + U16(0) + U16(0) + GroupBytes(groups)
  }

  /** How often the loop from 0 to the signed weight runs, the end being computed in 16 bits. */
  function Rounds(weight: nat): nat {
    if weight < 0x7FFF then weight + 1 else 0
  }

  function ReadGroups(raw: seq<u8>, count: nat): seq<u16>
    requires 8 + 2 * count <= |raw|
  {
    seq(count, k requires 0 <= k < count => ReadU16(raw, 8 + 2 * k))
  }

  /** The value, or nothing where the source panics for lack of bytes. Arithmetic is modulo 2^128. */
  function DecodeOf(raw: seq<u8>): Option<nat> {
    if |raw| < 8 then None
    else
      var count, weight := ReadU16(raw, 0), ReadU16(raw, 2);
      if |raw| < 8 + 2 * count then None
      else if Rounds(weight) == 0 then Some(0)
      else Some(Word(GroupTotal(ReadGroups(raw, count), weight, weight + 1)))
  }

  // ----- Arithmetic -----

  /** Wrapping at each step is wrapping once. */
  lemma WrapOnce(a: nat, v: nat, p: nat)
    ensures Word(Word(a) + Word(Times(v, Word(p)))) == Word(a + Times(v, p))
  {
    hide Word, Times;
    WrapProduct(v, p);
    WrapSum(a, Times(v, p));
  }

  lemma WrapProduct(v: nat, p: nat)
    ensures Word(Times(v, Word(p))) == Word(Times(v, p))
  {
    TimesSplit(v, p, MODULUS);
    Congruent(v * p, v * (p % MODULUS), v * (p / MODULUS), MODULUS);
  }

  lemma WrapSum(a: nat, y: nat)
    ensures Word(Word(a) + Word(y)) == Word(a + y)
  {
    SumTimes(a / MODULUS, y / MODULUS, 0, MODULUS);
    Congruent(a + y, a % MODULUS + y % MODULUS, a / MODULUS + y / MODULUS, MODULUS);
  }

  // ----- What a server reads -----

  /** A number as a server takes it off the wire: its sign, its display scale, the weight of its first digit, its digits. */
  datatype Numeric = Numeric(negative: bool, scale: nat, weight: int, digits: seq<nat>)

  /** The k-th word, high byte first. */
  function ServerWord(raw: seq<u8>, k: nat): nat
    requires 2 * k + 1 < |raw|
  {
    0x100 * (raw[2 * k] as nat) + raw[2 * k + 1]
  }

  function ServerDigits(raw: seq<u8>, count: nat): seq<nat>
    requires |raw| >= 8 + 2 * count
  {
    seq(count, k requires 0 <= k < count => ServerWord(raw, 4 + k))
  }

  /** The binary form of `numeric`: digit count, signed weight, sign (0x0000 positive, 0x4000 negative), scale, and digits to the
      base 10000. Anything else is rejected. */
  function ServerReads(raw: seq<u8>): Option<Numeric> {
    if |raw| < 8 || |raw| != 8 + 2 * ServerWord(raw, 0) then None
    else
      var count, weight, sign, scale := ServerWord(raw, 0), ServerWord(raw, 1), ServerWord(raw, 2), ServerWord(raw, 3);
      var digits := ServerDigits(raw, count);
      if (sign != 0x0000 && sign != 0x4000) || exists d :: d in digits && d >= 10000 then None
      else Some(Numeric(sign == 0x4000, scale, if weight < 0x8000 then weight else weight - 0x1_0000, digits))
  }

  /** The whole number that the first `k` digits stand for; digits that are not there are zero. */
  function ServerValue(digits: seq<nat>, k: nat): nat {
    if k == 0 then 0 else 10000 * ServerValue(digits, k - 1) + if k <= |digits| then digits[k - 1] else 0
  }

  /** To a server these bytes are the whole number `n`: positive, without decimals, with no digit behind the point. */
  predicate StandsFor(raw: seq<u8>, n: nat) {
    var x := ServerReads(raw);
    && x.Some? && !x.value.negative && x.value.scale == 0
    && x.value.weight >= 0 && |x.value.digits| <= x.value.weight + 1 && ServerValue(x.value.digits, x.value.weight + 1) == n
  }

  lemma {:induction false} ServerAddsGroups(groups: seq<u16>, k: nat)
    requires k <= |groups|
    ensures ServerValue(groups, k) == Horner(groups[..k])
  {
    if k > 0 {
      ServerAddsGroups(groups, k - 1);
      assert DropLast(groups[..k]) == groups[..k - 1];
    }
  }

  lemma WireWords(groups: seq<u16>, weight: u16)
    requires |groups| <= 0xFFFF
    ensures var raw := Wire(groups, weight);
            && |raw| == 8 + 2 * |groups| && ServerWord(raw, 0) == |groups| && ServerWord(raw, 1) == weight
            && ServerWord(raw, 2) == 0 && ServerWord(raw, 3) == 0
            && forall k :: 0 <= k < |groups| ==> ServerWord(raw, 4 + k) == groups[k]
  {
    hide GroupBytes;
    var raw := Wire(groups, weight);
    if groups == [] {
      NoBytes();
    } else {
      GroupBytesAt(groups, 0);
      forall k | 0 <= k < |groups| ensures ServerWord(raw, 4 + k) == groups[k] {
        GroupBytesAt(groups, k);
        assert raw[8 + 2 * k] == GroupBytes(groups)[2 * k] && raw[8 + 2 * k + 1] == GroupBytes(groups)[2 * k + 1];
      }
    }
  }

  /** The bytes written for a number stand for that number, for every u128. */
  lemma WireStandsFor(n: u128)
    ensures |Groups(n)| <= 10 && StandsFor(Wire(Groups(n), Weight(Groups(n))), n)
  {
    hide Wire, Groups, ServerWord, ServerValue, Horner;
    var groups, weight := Groups(n), Weight(Groups(n));
    EncodedIsSmall(n);
    GroupsAreDigits(n);
    WireWords(groups, weight);
    assert ServerDigits(Wire(groups, weight), |groups|) == groups;
    ServerAddsGroups(groups, |groups|);
    assert groups[..|groups|] == groups;
    HornerOfGroups(n);
    if n == 0 {
      NoGroups();
      NoDigits();
    }
  }

  lemma NoDigits()
    ensures ServerValue([], 1) == 0
  {
  }

  // ----- Writing -----

  lemma GroupBytesSnoc(groups: seq<u16>, g: u16)
    ensures GroupBytes(groups + [g]) == GroupBytes(groups) + U16(g)
  {
    assert DropLast(groups + [g]) == groups;
  }

  lemma {:induction false} GroupsAreDigits(n: nat)
    ensures forall g :: g in Groups(n) ==> g < 10000
    ensures n > 0 ==> |Groups(n)| > 0
  {
    if n > 0 {
      GroupsAreDigits(n / 10000);
    }
  }

  lemma {:induction false} GroupsAreFew(n: nat, k: nat)
    requires n < Power(k)
    ensures |Groups(n)| <= k
  {
    if n > 0 {
      GroupsAreFew(n / 10000, k - 1);
    }
  }

  lemma TenGroups(n: u128)
    ensures |Groups(n)| <= 10
  {
    assert Power(10) > U128_MAX by {
      assert Power(2) == 100_000_000;
      assert Power(4) == 100_000_000 * Power(2);
      assert Power(6) == 100_000_000 * Power(4);
      assert Power(8) == 100_000_000 * Power(6);
    }
    GroupsAreFew(n, 10);
  }

  function Weight(groups: seq<u16>): nat {
    if |groups| == 0 then 0 else |groups| - 1
  }

  lemma EncodedIsSmall(n: u128)
    ensures |Groups(n)| <= 10 && Weight(Groups(n)) < 10
  {
    GroupsAreDigits(n);
    TenGroups(n);
  }

  /** Repeated division, last group first, then turned round. */
  method Digits(number: u128) returns (digits: seq<u16>)
    ensures digits == Groups(number)
  {
    hide Groups;
    var num := number;
    digits := [];
    NoGroups();
    while num > 0
      invariant Groups(num) + Reversed(digits) == Groups(number)
    {
      NextGroup(num);
      ReversedSnoc(digits, num % 10000);
      digits := digits + [num % 10000];
      num := num / 10000;
    }
    assert [] + Reversed(digits) == Reversed(digits);
    digits := Reversed(digits);
  }

  method Encode(number: u128) returns (out: seq<u8>)
    ensures |Groups(number)| <= 10 && out == Wire(Groups(number), Weight(Groups(number)))
    ensures StandsFor(out, number)
  {
    hide Groups, GroupBytes, U16, StandsFor;
    EncodedIsSmall(number);
    WireStandsFor(number);
    var digits := Digits(number);
    var numDigits := |digits|;
    var weight := if numDigits == 0 then 0 else numDigits - 1;
    out := U16(numDigits) + U16(weight) + U16(0) + U16(0);
    ghost var head := out;
    NoBytes();
    for i := 0 to numDigits
      invariant out == head + GroupBytes(digits[..i])
    {
      assert digits[..i + 1] == digits[..i] + [digits[i]];
      GroupBytesSnoc(digits[..i], digits[i]);
      out := out + U16(digits[i]);
    }
    assert digits[..numDigits] == digits;
  }

  lemma NoGroups()
    ensures Groups(0) == []
  {
  }

  lemma NextGroup(n: nat)
    ensures n > 0 ==> Groups(n) == Groups(n / 10000) + [n % 10000]
  {
  }

  lemma NoBytes()
    ensures GroupBytes([]) == []
  {
  }

  // ----- Reading -----

  method Decode(raw: seq<u8>) returns (r: Option<u128>)
    ensures r == DecodeOf(raw)
  {
    hide GroupTotal, Power, Word, Times, Group;
    WordOfZero();
    if |raw| < 8 {
      return None;
    }
    var numGroups, weight := ReadU16(raw, 0), ReadU16(raw, 2);
    var groups: seq<u16> := [];
    var at := 8;
    for k := 0 to numGroups
      invariant at == 8 + 2 * k && at <= |raw|
      invariant |groups| == k && forall j :: 0 <= j < k ==> groups[j] == ReadU16(raw, 8 + 2 * j)
    {
      if |raw| < at + 2 {
        return None;
      }
      groups := groups + [ReadU16(raw, at)];
      at := at + 2;
    }
    assert groups == ReadGroups(raw, numGroups);
    var result: u128 := 0;
    NoTerms(groups, weight);
    for i := 0 to Rounds(weight)
      invariant result == Word(GroupTotal(groups, weight, i))
    {
      WrapOnce(GroupTotal(groups, weight, i), Group(groups, i), Power(weight - i));
      NextTerm(groups, weight, i);
      result := Word(result + Word(Times(Group(groups, i), Word(Power(weight - i)))));
    }
    return Some(result);
  }

  lemma WordOfZero()
    ensures Word(0) == 0
  {
  }

  lemma NoTerms(groups: seq<u16>, weight: nat)
    ensures GroupTotal(groups, weight, 0) == 0
  {
  }

  lemma NextTerm(groups: seq<u16>, weight: nat, i: nat)
    requires i <= weight
    ensures GroupTotal(groups, weight, i + 1) == GroupTotal(groups, weight, i) + Times(Group(groups, i), Power(weight - i))
  {
  }

  // ----- Round trip -----

  /** The number a prefix of the groups stands for. */
  function Horner(groups: seq<u16>): nat {
    if groups == [] then 0 else 10000 * Horner(DropLast(groups)) + Last(groups)
  }

  lemma {:induction false} HornerOfGroups(n: nat)
    ensures Horner(Groups(n)) == n
  {
    if n > 0 {
      HornerOfGroups(n / 10000);
      assert DropLast(Groups(n)) == Groups(n / 10000);
    }
  }

  lemma {:induction false} TotalIsHorner(groups: seq<u16>, weight: nat, i: nat)
    requires i <= |groups| == weight + 1
    ensures GroupTotal(groups, weight, i) == Horner(groups[..i]) * Power(weight + 1 - i)
  {
    hide Power;
    if i > 0 {
      TotalIsHorner(groups, weight, i - 1);
      assert DropLast(groups[..i]) == groups[..i - 1];
      PowerNext(weight + 1 - i);
      Rescale(Horner(groups[..i - 1]), groups[i - 1], Power(weight + 1 - i));
    }
  }

  lemma PowerNext(k: nat)
    ensures Power(k + 1) == 10000 * Power(k)
  {
  }

  lemma Rescale(h: nat, g: nat, p: nat)
    ensures h * (10000 * p) + g * p == (10000 * h + g) * p
  {
  }

  /** Groups cut off at the end count as zero. */
  lemma {:induction false} DroppedZeros(groups: seq<u16>, m: nat, weight: nat, i: nat)
    requires m <= |groups| && i <= weight + 1 && forall k :: m <= k < |groups| ==> groups[k] == 0
    ensures GroupTotal(groups[..m], weight, i) == GroupTotal(groups, weight, i)
  {
    if i > 0 {
      DroppedZeros(groups, m, weight, i - 1);
      assert Group(groups[..m], i - 1) == Group(groups, i - 1);
    }
  }

  lemma {:induction false} GroupBytesAt(groups: seq<u16>, k: nat)
    requires k < |groups|
    ensures |GroupBytes(groups)| == 2 * |groups|
    ensures ReadU16(GroupBytes(groups), 2 * k) == groups[k]
  {
    var front := GroupBytes(DropLast(groups));
    if |groups| == 1 {
      assert DropLast(groups) == [] && front == [];
    } else if k < |groups| - 1 {
      GroupBytesAt(DropLast(groups), k);
      assert GroupBytes(groups)[2 * k] == front[2 * k] && GroupBytes(groups)[2 * k + 1] == front[2 * k + 1];
    } else {
      GroupBytesAt(DropLast(groups), 0);
    }
  }

  lemma WireReadsBack(groups: seq<u16>, weight: nat)
    requires |groups| <= 0xFFFF && weight < 0x7FFF
    ensures DecodeOf(Wire(groups, weight)) == Some(Word(GroupTotal(groups, weight, weight + 1)))
  {
    hide GroupBytes, GroupTotal;
    var raw := Wire(groups, weight);
    var head := U16(|groups|) + U16(weight) + U16(0) + U16(0);
    if groups == [] {
      NoBytes();
      assert ReadGroups(raw, 0) == groups;
    } else {
      GroupBytesAt(groups, 0);
      assert |raw| == 8 + 2 * |groups|;
      forall k | 0 <= k < |groups| ensures ReadU16(raw, 8 + 2 * k) == groups[k] {
        GroupBytesAt(groups, k);
        assert raw[8 + 2 * k] == GroupBytes(groups)[2 * k] && raw[8 + 2 * k + 1] == GroupBytes(groups)[2 * k + 1];
      }
      assert ReadGroups(raw, |groups|) == groups;
    }
  }

  /** Every u128 survives the wire, also when the server leaves out zero groups at the end and keeps the weight. */
  lemma NumericRoundTrip(n: u128, m: nat)
    requires m <= |Groups(n)| && forall k :: m <= k < |Groups(n)| ==> Groups(n)[k] == 0
    ensures |Groups(n)| <= 10
    ensures DecodeOf(Wire(Groups(n)[..m], Weight(Groups(n)))) == Some(n)
  {
    hide GroupTotal, Power, GroupBytes, DecodeOf, Wire, Groups, Weight, Word;
    var groups, weight := Groups(n), Weight(Groups(n));
    EncodedIsSmall(n);
    WireReadsBack(groups[..m], weight);
    DroppedZeros(groups, m, weight, weight + 1);
    ValueOfGroups(n);
    WordOfSmall(n);
  }

  lemma WordOfSmall(n: u128)
    ensures Word(n) == n
  {
  }

  lemma ValueOfGroups(n: u128)
    ensures GroupTotal(Groups(n), Weight(Groups(n)), Weight(Groups(n)) + 1) == n
  {
    hide Power, GroupTotal, Horner;
    var groups, weight := Groups(n), Weight(Groups(n));
    GroupsAreDigits(n);
    if n == 0 {
      NextTerm([], 0, 0);
      NoTerms([], 0);
    } else {
      TotalIsHorner(groups, weight, weight + 1);
      assert groups[..weight + 1] == groups;
      HornerOfGroups(n);
      PowerZero();
    }
  }

  lemma PowerZero()
    ensures Power(0) == 1
  {
  }

  lemma {:induction false} TotalIsServerValue(groups: seq<u16>, weight: nat, i: nat)
    requires i <= weight + 1
    ensures GroupTotal(groups, weight, i) == ServerValue(groups, i) * Power(weight + 1 - i)
  {
    hide Power;
    if i > 0 {
      TotalIsServerValue(groups, weight, i - 1);
      PowerNext(weight + 1 - i);
      Rescale(ServerValue(groups, i - 1), Group(groups, i - 1), Power(weight + 1 - i));
    }
  }

  /** Whatever form a server gives a whole number of 128 bits, reading it gives that number, except at the largest weight: there
      the loop's bound wraps around and it reads 0. */
  lemma ServerNumbersAreRead(raw: seq<u8>, n: u128)
    requires StandsFor(raw, n)
    ensures DecodeOf(raw) == Some(n) <==> ServerReads(raw).value.weight < 0x7FFF || n == 0
  {
    hide GroupTotal, Power, ServerValue, Word, Horner;
    var x := ServerReads(raw).value;
    if x.weight == 0x7FFF {
      return;
    }
    var groups := ReadGroups(raw, ReadU16(raw, 0));
    assert |groups| == |x.digits| && forall k :: 0 <= k < |groups| ==> groups[k] == x.digits[k];
    TotalIsServerValue(groups, x.weight, x.weight + 1);
    SameDigits(groups, x.digits, x.weight + 1);
    PowerZero();
    WordOfSmall(n);
  }

  lemma {:induction false} SameDigits(a: seq<nat>, b: seq<nat>, k: nat)
    requires |a| == |b| && forall i :: 0 <= i < |a| ==> a[i] == b[i]
    ensures ServerValue(a, k) == ServerValue(b, k)
  {
    if k > 0 {
      SameDigits(a, b, k - 1);
    }
  }

  /** Nothing overflows on the way: every power used and every partial sum is at most the number. */
  lemma {:induction false} NothingOverflows(n: u128, i: nat)
    requires n > 0 && i <= Weight(Groups(n)) + 1
    ensures GroupTotal(Groups(n), Weight(Groups(n)), i) <= n
    ensures i > 0 ==> Power(Weight(Groups(n)) - (i - 1)) <= U128_MAX
    decreases Weight(Groups(n)) + 1 - i
  {
    hide Groups, Power, GroupTotal;
    var groups, weight := Groups(n), Weight(Groups(n));
    EncodedIsSmall(n);
    PowersFit(weight);
    if i <= weight {
      NothingOverflows(n, i + 1);
      NextTerm(groups, weight, i);
    } else {
      ValueOfGroups(n);
    }
    if i > 0 {
      PowersFit(weight - (i - 1));
    }
  }

  lemma {:induction false} PowersFit(k: nat)
    requires k < 10
    ensures Power(k) <= 1_0000_0000_0000_0000_0000_0000_0000_0000_0000
    decreases 9 - k
  {
    if k == 9 {
      assert Power(9) == 10000 * Power(8) && Power(8) == 10000 * Power(7);
      assert Power(7) == 10000 * Power(6) && Power(6) == 10000 * Power(5);
      assert Power(5) == 10000 * Power(4) && Power(4) == 10000 * Power(3);
    } else {
      PowersFit(k + 1);
    }
  }
}
