/** Bits of machine words as numbers. */
module Bits {
  import opened Basics

  function Pow2(k: nat): (p: nat)
    ensures p > 0
  {
    if k == 0 then 1 else 2 * Pow2(k - 1)
  }

  /** Bitwise or. */
  function Or(a: nat, b: nat): nat {
    if a == 0 then b else if b == 0 then a
    else 2 * Or(a / 2, b / 2) + if a % 2 == 1 || b % 2 == 1 then 1 else 0
  }

  /** A left shift in 128 bits: what leaves the word is lost. */
  function ShiftLeft(a: nat, k: nat): u128 {
    (a * Pow2(k)) % (U128_MAX + 1)
  }

  lemma Pow2Seven(k: nat)
    ensures Pow2(k + 7) == 128 * Pow2(k)
  {
    assert Pow2(k + 7) == 2 * Pow2(k + 6) == 4 * Pow2(k + 5) == 8 * Pow2(k + 4);
    assert Pow2(k + 4) == 2 * Pow2(k + 3) == 4 * Pow2(k + 2) == 8 * Pow2(k + 1);
  }

  lemma Pow2Word()
    ensures Pow2(2) == 4 && Pow2(128) == U128_MAX + 1
  {
    hide Pow2;
    PowersOfTwo();
    Pow2Seven(2); Pow2Seven(9); Pow2Seven(16); Pow2Seven(23); Pow2Seven(30); Pow2Seven(37);
    Pow2Seven(44); Pow2Seven(51); Pow2Seven(58); Pow2Seven(65); Pow2Seven(72); Pow2Seven(79);
    Pow2Seven(86); Pow2Seven(93); Pow2Seven(100); Pow2Seven(107); Pow2Seven(114); Pow2Seven(121);
  }

  lemma PowersOfTwo()
    ensures Pow2(0) == 1 && Pow2(2) == 4
  {
    assert Pow2(1) == 2;
  }

  /** Or-ing bits above `k` to a number below bit `k` adds them. */
  lemma {:induction false} OrAdds(a: nat, c: nat, k: nat)
    requires a < Pow2(k)
    ensures Or(a, c * Pow2(k)) == a + c * Pow2(k)
  {
    if k > 0 && a > 0 && c > 0 {
      var b := c * Pow2(k - 1);
      assert c * Pow2(k) == 2 * b by { Double(c, Pow2(k - 1)); }
      assert b > 0 by { Positive(c, Pow2(k - 1)); }
      OrAdds(a / 2, c, k - 1);
    }
  }

  lemma Double(c: nat, p: nat)
    ensures c * (2 * p) == 2 * (c * p)
  {
  }

  lemma Positive(c: nat, p: nat)
    requires c > 0 && p > 0
    ensures c * p > 0
  {
  }

  lemma Pow2Top()
    ensures Pow2(128) == 4 * Pow2(126)
  {
    assert Pow2(127) == 2 * Pow2(126);
  }

  lemma {:induction false} Pow2Grows(a: nat, b: nat)
    requires a <= b
    ensures Pow2(a) <= Pow2(b)
    decreases b - a
  {
    if a < b {
      Pow2Grows(a, b - 1);
    }
  }

  // ----- Single bits -----

  function Bit(n: nat, k: nat): bool {
    if k == 0 then n % 2 == 1 else Bit(n / 2, k - 1)
  }

  /** The lowest `k` bits. */
  function Low(n: nat, k: nat): nat {
    if k == 0 then 0 else n % 2 + 2 * Low(n / 2, k - 1)
  }

  /** The number of bits up to the highest one set. */
  function BitLength(n: nat): nat {
    if n == 0 then 0 else 1 + BitLength(n / 2)
  }

  lemma {:induction false} BitLengthBound(n: nat, k: nat)
    ensures BitLength(n) <= k <==> n < Pow2(k)
  {
    if n > 0 && k > 0 {
      BitLengthBound(n / 2, k - 1);
    }
  }

  lemma {:induction false} NoHighBit(n: nat, k: nat)
    requires n < Pow2(k)
    ensures !Bit(n, k)
  {
    if k > 0 {
      NoHighBit(n / 2, k - 1);
    }
  }

  /** Setting a bit that is not set adds its weight and leaves the others alone. */
  lemma {:induction false} SetBit(n: nat, k: nat, j: nat)
    requires !Bit(n, k)
    ensures Bit(n + Pow2(k), j) <==> j == k || Bit(n, j)
  {
    if k == 0 {
      if j > 0 {
        assert (n + 1) / 2 == n / 2;
      }
    } else {
      assert (n + Pow2(k)) / 2 == n / 2 + Pow2(k - 1) && (n + Pow2(k)) % 2 == n % 2;
      if j > 0 {
        SetBit(n / 2, k - 1, j - 1);
      }
    }
  }

  lemma {:induction false} SetBitFits(n: nat, k: nat, m: nat)
    requires !Bit(n, k) && k < m && n < Pow2(m)
    ensures n + Pow2(k) < Pow2(m)
  {
    var half := Pow2(m - 1);
    assert Pow2(m) == 2 * half;
    if k == 0 {
      EvenBelow(n, half);
    } else {
      var bit := Pow2(k - 1);
      HalfBelow(n, half);
      SetBitFits(n / 2, k - 1, m - 1);
      TwiceBelow(n, bit, half);
    }
  }

  lemma EvenBelow(n: nat, h: nat)
    requires n % 2 == 0 && n < 2 * h
    ensures n + 1 < 2 * h
  {
  }

  lemma HalfBelow(n: nat, h: nat)
    requires n < 2 * h
    ensures n / 2 < h
  {
  }

  lemma TwiceBelow(n: nat, b: nat, h: nat)
    requires n / 2 + b < h
    ensures n + 2 * b < 2 * h
  {
  }

  lemma {:induction false} LowNext(n: nat, k: nat)
    ensures Low(n, k + 1) == Low(n, k) + if Bit(n, k) then Pow2(k) else 0
  {
    if k > 0 {
      LowNext(n / 2, k - 1);
    }
  }

  lemma {:induction false} LowIsSmall(n: nat, k: nat)
    ensures Low(n, k) < Pow2(k)
  {
    if k > 0 {
      LowIsSmall(n / 2, k - 1);
    }
  }
}
