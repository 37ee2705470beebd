/** Types and sums shared by every module. */
module Basics {

  datatype Option<+T> = None | Some(value: T)

  datatype Result<+T, +E> = Ok(value: T) | Err(error: E)

  const U8_MAX: nat := 0xFF
  const U32_MAX: nat := 0xFFFF_FFFF
  const U64_MAX: nat := 0xFFFF_FFFF_FFFF_FFFF
  const U128_MAX: nat := 0xFFFF_FFFF_FFFF_FFFF_FFFF_FFFF_FFFF_FFFF

  type u8 = x: nat | x <= U8_MAX
  type u32 = x: nat | x <= U32_MAX
  type u64 = x: nat | x <= U64_MAX
  type u128 = x: nat | x <= U128_MAX

  /** Blocks from one halving of the subsidy to the next. */
  const HALVING: nat := 210000

  /** The block and the transaction index in which a rune was etched. */
  datatype RuneId = RuneId(block: u64, tx: u32)

  /** Id 0:0 stands for "the rune etched in this transaction". */
  const SELF_ID := RuneId(0, 0)

  function Min(a: nat, b: nat): nat {
    if a <= b then a else b
  }

  function Last<T>(xs: seq<T>): T
    requires xs != []
  {
    xs[|xs| - 1]
  }

  function DropLast<T>(xs: seq<T>): seq<T>
    requires xs != []
  {
    xs[..|xs| - 1]
  }

  function Reversed<T>(xs: seq<T>): (r: seq<T>)
    ensures |r| == |xs|
  {
    if xs == [] then [] else [Last(xs)] + Reversed(DropLast(xs))
  }

  lemma ReversedSnoc<T>(xs: seq<T>, x: T)
    ensures Reversed(xs + [x]) == [x] + Reversed(xs)
  {
    assert DropLast(xs + [x]) == xs;
  }

  /** The sum of a weight over a sequence. Every total in this project is such a sum. */
  function Sum<T>(xs: seq<T>, weight: T -> nat): nat {
    if xs == [] then 0 else Sum(DropLast(xs), weight) + weight(Last(xs))
  }

  lemma {:induction false} SumAppend<T>(xs: seq<T>, ys: seq<T>, weight: T -> nat)
    ensures Sum(xs + ys, weight) == Sum(xs, weight) + Sum(ys, weight)
  {
    if ys == [] {
      assert xs + ys == xs;
    } else {
      assert DropLast(xs + ys) == xs + DropLast(ys);
      SumAppend(xs, DropLast(ys), weight);
    }
  }

  lemma SumOne<T>(x: T, weight: T -> nat)
    ensures Sum([x], weight) == weight(x)
  {
    assert DropLast([x]) == [];
  }

  lemma SumSnoc<T>(xs: seq<T>, x: T, weight: T -> nat)
    ensures Sum(xs + [x], weight) == Sum(xs, weight) + weight(x)
  {
    assert DropLast(xs + [x]) == xs;
  }

  lemma SumCons<T>(x: T, xs: seq<T>, weight: T -> nat)
    ensures Sum([x] + xs, weight) == weight(x) + Sum(xs, weight)
  {
    SumAppend([x], xs, weight);
    SumOne(x, weight);
  }

  lemma {:induction false} SumPositive<T>(xs: seq<T>, weight: T -> nat)
    ensures Sum(xs, weight) > 0 <==> exists x :: x in xs && weight(x) > 0
  {
    if xs != [] {
      SumPositive(DropLast(xs), weight);
      assert xs == DropLast(xs) + [Last(xs)];
    }
  }

  lemma {:induction false} SumZero<T>(xs: seq<T>, weight: T -> nat)
    requires forall x :: x in xs ==> weight(x) == 0
    ensures Sum(xs, weight) == 0
  {
    if xs != [] {
      SumZero(DropLast(xs), weight);
    }
  }

  lemma {:induction false} SumAgree<T>(xs: seq<T>, f: T -> nat, g: T -> nat)
    requires forall x :: x in xs ==> f(x) == g(x)
    ensures Sum(xs, f) == Sum(xs, g)
  {
    if xs != [] {
      SumAgree(DropLast(xs), f, g);
    }
  }

  lemma {:induction false} SumAtMost<T>(xs: seq<T>, f: T -> nat, g: T -> nat)
    requires forall x :: x in xs ==> f(x) <= g(x)
    ensures Sum(xs, f) <= Sum(xs, g)
  {
    if xs != [] {
      SumAtMost(DropLast(xs), f, g);
    }
  }

  lemma {:induction false} SumSplit<T>(xs: seq<T>, whole: T -> nat, f: T -> nat, g: T -> nat)
    requires forall x :: x in xs ==> whole(x) == f(x) + g(x)
    ensures Sum(xs, whole) == Sum(xs, f) + Sum(xs, g)
  {
    if xs != [] {
      SumSplit(DropLast(xs), whole, f, g);
    }
  }

  lemma SumWithout<T>(xs: seq<T>, i: nat, weight: T -> nat)
    requires i < |xs|
    ensures Sum(xs, weight) == weight(xs[i]) + Sum(xs[..i] + xs[i + 1..], weight)
  {
    hide Sum;
    assert xs == xs[..i] + ([xs[i]] + xs[i + 1..]);
    SumAppend(xs[..i], [xs[i]] + xs[i + 1..], weight);
    SumCons(xs[i], xs[i + 1..], weight);
    SumAppend(xs[..i], xs[i + 1..], weight);
  }

  lemma MultisetWithout<T>(xs: seq<T>, i: nat)
    requires i < |xs|
    ensures multiset(xs[..i] + xs[i + 1..]) == multiset(xs) - multiset{xs[i]}
  {
    assert xs == xs[..i] + [xs[i]] + xs[i + 1..];
  }

  /** A sum does not depend on the order of the sequence. */
  lemma {:induction false} SumPermute<T>(xs: seq<T>, ys: seq<T>, weight: T -> nat)
    requires multiset(xs) == multiset(ys)
    ensures Sum(xs, weight) == Sum(ys, weight)
  {
    if xs == [] {
      assert |multiset(ys)| == 0;
    } else {
      var x, last := Last(xs), |xs| - 1;
      assert x in multiset(ys);
      var i :| 0 <= i < |ys| && ys[i] == x;
      MultisetWithout(xs, last);
      MultisetWithout(ys, i);
      assert xs[..last] + xs[last + 1..] == DropLast(xs);
      SumPermute(DropLast(xs), ys[..i] + ys[i + 1..], weight);
      SumWithout(ys, i, weight);
    }
  }
}
