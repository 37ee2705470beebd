/** Bijective base 26: the letters of the alphabet are the digits 1 to 26. Rune names are upper case, sat names lower case. */
module Letters {
  import opened Basics
  import opened Arithmetic

  predicate IsLetter(first: char, c: char) {
    first as int <= c as int < first as int + 26
  }

  ghost predicate AllLetters(first: char, s: string) {
    forall c :: c in s ==> IsLetter(first, c)
  }

  /** The position of a string among all strings of letters, shorter ones first, the empty string at 0. */
  function Rank(first: char, s: string): nat
    requires AllLetters(first, s)
  {
    if s == "" then 0
    else
      assert Last(s) in s;
      26 * Rank(first, DropLast(s)) + (Last(s) as int - first as int) + 1
  }

  function Letter(first: char, d: nat): char
    requires d < 26 && first as int + 26 < 0xD800
  {
    (first as int + d) as char
  }

  function Name(first: char, n: nat): (s: string)
    requires first as int + 26 < 0xD800
  {
    if n == 0 then "" else Name(first, (n - 1) / 26) + [Letter(first, (n - 1) % 26)]
  }

  lemma {:induction false} RankOfName(first: char, n: nat)
    requires first as int + 26 < 0xD800
    ensures AllLetters(first, Name(first, n)) && Rank(first, Name(first, n)) == n
  {
    if n > 0 {
      RankOfName(first, (n - 1) / 26);
      assert DropLast(Name(first, n)) == Name(first, (n - 1) / 26);
    }
  }

  lemma RankSnoc(first: char, s: string, c: char)
    requires AllLetters(first, s) && IsLetter(first, c)
    ensures AllLetters(first, s + [c]) && Rank(first, s + [c]) == 26 * Rank(first, s) + (c as int - first as int) + 1
  {
    assert DropLast(s + [c]) == s;
  }

  lemma {:induction false} NameOfRank(first: char, s: string)
    requires first as int + 26 < 0xD800 && AllLetters(first, s)
    ensures Name(first, Rank(first, s)) == s
  {
    if s != "" {
      assert Last(s) in s;
      NameOfRank(first, DropLast(s));
      var r := Rank(first, DropLast(s));
      var d := Last(s) as int - first as int;
      Quotient(r * 26 + d, 26, r, d);
      assert s == DropLast(s) + [Last(s)];
    }
  }

  // ----- Order -----

  /** The rank of the first string of a length. */
  function Lowest(length: nat): nat {
    if length == 0 then 0 else 26 * Lowest(length - 1) + 1
  }

  lemma {:induction false} RankByLength(first: char, s: string)
    requires AllLetters(first, s)
    ensures Lowest(|s|) <= Rank(first, s) < Lowest(|s| + 1)
  {
    if s != "" {
      assert Last(s) in s;
      RankByLength(first, DropLast(s));
    }
  }

  lemma {:induction false} LowestGrows(a: nat, b: nat)
    requires a <= b
    ensures Lowest(a) <= Lowest(b)
    decreases b
  {
    if a < b {
      LowestGrows(a, b - 1);
    }
  }

  /** The first place where the strings differ. */
  ghost predicate DiffersAt(s: string, t: string, k: nat) {
    k < |s| && k < |t| && s[..k] == t[..k] && s[k] < t[k]
  }

  /** Shorter strings first, strings of one length in dictionary order. */
  ghost predicate Shortlex(s: string, t: string) {
    |s| < |t| || (|s| == |t| && exists k: nat :: DiffersAt(s, t, k))
  }

  lemma {:induction false} SmallerRankIsEarlier(first: char, s: string, t: string)
    requires AllLetters(first, s) && AllLetters(first, t) && |s| == |t| && Rank(first, s) < Rank(first, t)
    ensures exists k: nat :: DiffersAt(s, t, k)
  {
    var a, b := DropLast(s), DropLast(t);
    assert Last(s) in s && Last(t) in t;
    assert s == a + [Last(s)] && t == b + [Last(t)];
    if Rank(first, a) < Rank(first, b) {
      SmallerRankIsEarlier(first, a, b);
      var k: nat :| DiffersAt(a, b, k);
      assert s[..k] == a[..k] && t[..k] == b[..k];
      assert DiffersAt(s, t, k);
    } else {
      SameRankSameString(first, a, b);
      assert DiffersAt(s, t, |a|);
    }
  }

  lemma RankDigits(first: char, s: string)
    requires AllLetters(first, s) && s != ""
    ensures AllLetters(first, DropLast(s)) && IsLetter(first, Last(s))
    ensures Rank(first, s) == 26 * Rank(first, DropLast(s)) + (Last(s) as int - first as int) + 1
  {
    assert Last(s) in s;
  }

  lemma {:induction false} SameRankSameString(first: char, s: string, t: string)
    requires AllLetters(first, s) && AllLetters(first, t) && |s| == |t| && Rank(first, s) == Rank(first, t)
    ensures s == t
  {
    hide Rank, AllLetters;
    if s != "" {
      RankDigits(first, s);
      RankDigits(first, t);
      SameRankSameString(first, DropLast(s), DropLast(t));
      assert s == DropLast(s) + [Last(s)] && t == DropLast(t) + [Last(t)];
    }
  }

  lemma EarlierIsOneWay(s: string, t: string, j: nat, k: nat)
    requires DiffersAt(s, t, j)
    ensures !DiffersAt(t, s, k)
  {
    if j < k && k < |s| && k < |t| {
      assert t[..k][j] == t[j] && s[..k][j] == s[j];
    } else if k < j {
      assert s[..j][k] == s[k] && t[..j][k] == t[k];
    }
  }

  /** Ranks are ordered as the strings are. */
  lemma RankIsShortlex(first: char, s: string, t: string)
    requires AllLetters(first, s) && AllLetters(first, t)
    ensures Rank(first, s) < Rank(first, t) <==> Shortlex(s, t)
  {
    hide Rank, Lowest, DiffersAt, AllLetters;
    RankByLength(first, s);
    RankByLength(first, t);
    if |s| < |t| {
      LowestGrows(|s| + 1, |t|);
    } else if |t| < |s| {
      LowestGrows(|t| + 1, |s|);
    } else if Rank(first, s) < Rank(first, t) {
      SmallerRankIsEarlier(first, s, t);
    } else {
      if Rank(first, t) < Rank(first, s) {
        SmallerRankIsEarlier(first, t, s);
        var j: nat :| DiffersAt(t, s, j);
        forall k: nat {
          EarlierIsOneWay(t, s, j, k);
        }
      } else {
        SameRankSameString(first, s, t);
        forall k: nat {
          NotBeforeItself(s, k);
        }
      }
    }
  }

  lemma NotBeforeItself(s: string, k: nat)
    ensures !DiffersAt(s, s, k)
  {
  }

  // ----- The letters in front of a string -----

  /** How many letters stand in front. */
  function LettersAhead(first: char, s: string): (n: nat)
    ensures n <= |s| && AllLetters(first, s[..n]) && (n < |s| ==> !IsLetter(first, s[n]))
    decreases |s|
  {
    if s == "" || !IsLetter(first, s[0]) then 0
    else
      var n := LettersAhead(first, s[1..]);
      assert s[..n + 1] == [s[0]] + s[1..][..n];
      n + 1
  }

  lemma {:induction false} AheadAtLeast(first: char, s: string, i: nat)
    requires i <= |s| && AllLetters(first, s[..i])
    ensures i <= LettersAhead(first, s)
  {
    if i > 0 {
      assert s[..i][0] in s[..i];
      assert s[1..][..i - 1] == s[..i][1..];
      AheadAtLeast(first, s[1..], i - 1);
    }
  }

  lemma {:induction false} RankOfPrefix(first: char, s: string, i: nat)
    requires i <= |s| && AllLetters(first, s)
    ensures AllLetters(first, s[..i])
    ensures Rank(first, s[..i]) <= Rank(first, s)
    ensures i < |s| ==> 26 * Rank(first, s[..i]) < Rank(first, s)
  {
    if i == |s| {
      assert s[..i] == s;
    } else {
      assert Last(s) in s;
      RankOfPrefix(first, DropLast(s), i);
      assert DropLast(s)[..i] == s[..i];
    }
  }

  // ----- Writing a name -----

  /** Letters from the last to the first, then turned round. */
  method Spell(first: char, n: nat) returns (s: string)
    requires first as int + 26 < 0xD800
    ensures s == Name(first, n)
  {
    var symbol := "";
    var m := n;
    while m > 0
      invariant Name(first, m) + Reversed(symbol) == Name(first, n)
    {
      ReversedSnoc(symbol, Letter(first, (m - 1) % 26));
      symbol := symbol + [Letter(first, (m - 1) % 26)];
      m := (m - 1) / 26;
    }
    s := Reversed(symbol);
  }
}
