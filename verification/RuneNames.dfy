/** Rune names and the heights at which they unlock (crates/ordinals/src/rune.rs). */
module RuneNames {
  import opened Basics
  import opened Arithmetic
  import opened Artifacts
  import opened Letters

  const A: char := 'A'

  const STEPS: seq<u128> := [
    0, 26, 702, 18278, 475254, 12356630, 321272406, 8353082582, 217180147158, 5646683826134, 146813779479510,
    3817158266467286, 99246114928149462, 2580398988131886038, 67090373691429037014, 1744349715977154962390,
    45353092615406029022166, 1179180408000556754576342, 30658690608014475618984918, 797125955808376366093607894,
    20725274851017785518433805270, 538857146126462423479278937046, 14010285799288023010461252363222,
    364267430781488598271992561443798, 9470953200318703555071806597538774, 246244783208286292431866971536008150,
    6402364363415443603228541259936211926, 166461473448801533683942072758341510102]

  const LAST_NAME: string := "BCGDENLQRQWDSLRUGSNLBTMFIJAV"

  // ----- Printing -----

  /** The name of a rune. The largest number, whose successor is no u128, has its name written out. */
  function Print(n: u128): string {
    if n == U128_MAX then LAST_NAME else Name(A, n + 1)
  }

  method Display(n: u128) returns (s: string)
    ensures s == Print(n)
  {
    if n == U128_MAX {
      return LAST_NAME;
    }
    s := Spell(A, n + 1);
  }

  /** The ranks of the first 0, 1, 2, ... letters of the name written out. */
  const LAST_NAME_RANKS: seq<nat> := [
    0, 2, 55, 1437, 37366, 971521, 25259560, 656748572, 17075462889, 443962035132, 11543012913449, 300118335749697,
    7803076729492126, 202879994966795295, 5274879869136677682, 137146876597553619750, 3565818791536394113521,
    92711288579946246951553, 2410493503078602420740397, 62672831080043662939250336, 1629493608081135236420508748,
    42366833810109516146933227450, 1101537679062847419820263913720, 28639979655634032915326861756733,
    744639471046484855798498405675064, 19360626247208606250760958547551673, 503376282427423762519784922236343508,
    13087783343113017825514407978144931209, 340282366920938463463374607431768211456
  ]

  lemma LastNameLetters()
    ensures AllLetters(A, LAST_NAME) && |LAST_NAME| == 28
    ensures forall i :: 0 <= i < 28 ==> LAST_NAME_RANKS[i + 1] == 26 * LAST_NAME_RANKS[i] + (LAST_NAME[i] as int - A as int) + 1
  {
  }

  lemma {:induction false} LastNamePrefix(i: nat)
    requires i <= |LAST_NAME|
    ensures AllLetters(A, LAST_NAME[..i]) && i < |LAST_NAME_RANKS| && Rank(A, LAST_NAME[..i]) == LAST_NAME_RANKS[i]
  {
    hide Rank, AllLetters;
    LastNameLetters();
    NoLetters();
    if i > 0 {
      LastNamePrefix(i - 1);
      assert LAST_NAME[..i] == LAST_NAME[..i - 1] + [LAST_NAME[i - 1]];
      LastNameLetter(i - 1);
      RankSnoc(A, LAST_NAME[..i - 1], LAST_NAME[i - 1]);
    } else {
      assert LAST_NAME[..0] == "";
    }
  }

  lemma LastNameLetter(i: nat)
    requires i < |LAST_NAME|
    ensures IsLetter(A, LAST_NAME[i])
  {
    LastNameLetters();
  }

  /** The name written out is the name of the largest number. */
  lemma PrintIsName(n: u128)
    ensures Print(n) == Name(A, n + 1)
  {
    hide Rank, AllLetters, Name;
    LastNamePrefix(|LAST_NAME|);
    assert LAST_NAME[..|LAST_NAME|] == LAST_NAME;
    NameOfRank(A, LAST_NAME);
  }

  lemma NoLetters()
    ensures AllLetters(A, "") && Rank(A, "") == 0 && Name(A, 0) == ""
  {
  }

  // ----- Parsing -----

  datatype NameError = Character(c: char) | Range

  /** A name is its rank less one; a string with another character fails on that character, unless the letters ahead of it
      are already too many. */
  function ParseOf(s: string): Result<u128, NameError> {
    var n := LettersAhead(A, s);
    var rank := Rank(A, s[..n]);
    if n < |s| then (if 26 * rank > U128_MAX then Err(Range) else Err(Character(s[n])))
    else if s == "" then Ok(0)
    else if rank > U128_MAX + 1 then Err(Range)
    else
      RankPositive(s[..n]);
      Ok(rank - 1)
  }

  lemma RankPositive(s: string)
    requires AllLetters(A, s) && s != ""
    ensures Rank(A, s) > 0
  {
    assert Last(s) in s;
  }

  function CheckedAdd(a: u128, b: u128): Option<u128> { if a + b > U128_MAX then None else Some(a + b) }

  function CheckedMul(a: u128, b: u128): Option<u128> { if a * b > U128_MAX then None else Some(a * b) }

  /** How the parse depends on the letters read so far. */
  lemma ParseStep(s: string, i: nat)
    requires i < |s| && AllLetters(A, s[..i])
    ensures 26 * Rank(A, s[..i]) > U128_MAX ==> ParseOf(s) == Err(Range)
    ensures 26 * Rank(A, s[..i]) <= U128_MAX && !IsLetter(A, s[i]) ==> ParseOf(s) == Err(Character(s[i]))
    ensures IsLetter(A, s[i]) ==>
              AllLetters(A, s[..i + 1]) && Rank(A, s[..i + 1]) == 26 * Rank(A, s[..i]) + (s[i] as int - A as int) + 1
              && (26 * Rank(A, s[..i]) + (s[i] as int - A as int) > U128_MAX ==> ParseOf(s) == Err(Range))
  {
    hide Rank;
    var n := LettersAhead(A, s);
    AheadAtLeast(A, s, i);
    RankOfPrefix(A, s[..n], i);
    assert s[..n][..i] == s[..i];
    if IsLetter(A, s[i]) {
      assert s[..i + 1] == s[..i] + [s[i]];
      RankSnoc(A, s[..i], s[i]);
      AheadAtLeast(A, s, i + 1);
      RankOfPrefix(A, s[..n], i + 1);
      assert s[..n][..i + 1] == s[..i + 1];
    }
  }

  method FromStr(s: string) returns (r: Result<u128, NameError>)
    ensures r == ParseOf(s)
  {
    hide Rank, ParseOf, AllLetters;
    NoLetters();
    var x: u128 := 0;
    assert s[..0] == "";
    for i := 0 to |s|
      invariant AllLetters(A, s[..i]) && x == if i == 0 then 0 else Rank(A, s[..i]) - 1
      invariant i > 0 ==> Rank(A, s[..i]) > 0
    {
      ParseStep(s, i);
      if i > 0 {
        var y := CheckedAdd(x, 1);
        if y.None? { return Err(Range); }
        x := y.value;
      }
      var y := CheckedMul(x, 26);
      if y.None? { return Err(Range); }
      x := y.value;
      if !IsLetter(A, s[i]) {
        return Err(Character(s[i]));
      }
      y := CheckedAdd(x, s[i] as int - A as int);
      if y.None? { return Err(Range); }
      x := y.value;
    }
    assert s[..|s|] == s;
    ParseOfLetters(s);
    return Ok(x);
  }

  lemma ParseOfLetters(s: string)
    requires AllLetters(A, s)
    ensures ParseOf(s) == if s == "" then Ok(0) else if Rank(A, s) > U128_MAX + 1 then Err(Range) else Ok(Rank(A, s) - 1)
  {
    assert s[..|s|] == s;
    AheadAtLeast(A, s, |s|);
  }

  // ----- Names and numbers -----

  /** Every number is the parse of its name. */
  lemma ParsePrint(n: u128)
    ensures ParseOf(Print(n)) == Ok(n)
  {
    hide Rank, ParseOf, AllLetters, Name, Print;
    PrintIsName(n);
    RankOfName(A, n + 1);
    NoLetters();
    ParseOfLetters(Print(n));
  }

  /** Every non-empty string of capitals that parses is the name of its number; it parses exactly when its rank allows. */
  lemma PrintParse(s: string)
    requires AllLetters(A, s) && s != ""
    ensures ParseOf(s).Ok? <==> Rank(A, s) <= U128_MAX + 1
    ensures ParseOf(s).Ok? ==> Print(ParseOf(s).value) == s
  {
    hide Rank, ParseOf, AllLetters, Name, Print;
    ParseOfLetters(s);
    if ParseOf(s).Ok? {
      PrintIsName(ParseOf(s).value);
      NameOfRank(A, s);
    }
  }

  /** The first `i` characters are capitals, and no more of them. */
  ghost predicate CapitalsUntil(s: string, i: nat) {
    && i <= |s| && (forall k :: 0 <= k < i ==> 'A' <= s[k] <= 'Z')
    && (i < |s| ==> !('A' <= s[i] <= 'Z'))
  }

  /** Why a string does not parse. Capitals fail only by coming after the largest name; another character is reported if an 'A' in
      its place would still parse. */
  lemma NameFails(s: string, i: nat)
    requires CapitalsUntil(s, i)
    ensures i < |s| ==> ParseOf(s) == if ParseOf(s[..i] + ['A']).Ok? then Err(Character(s[i])) else Err(Range)
    ensures i == |s| ==> (ParseOf(s) == Err(Range) <==> s != "" && Shortlex("BCGDENLQRQWDSLRUGSNLBTMFIJAV", s))
    ensures i == |s| ==> ParseOf(s).Ok? || ParseOf(s) == Err(Range)
  {
    hide Rank, ParseOf, AllLetters, Shortlex, CapitalsUntil;
    LettersUntil(s, i);
    if i < |s| {
      RankSnoc(A, s[..i], 'A');
      ParseOfLetters(s[..i] + ['A']);
      ParseStep(s, i);
    } else {
      assert s[..i] == s;
      ParseOfLetters(s);
      LastNameLetters();
      LastNamePrefix(28);
      assert LAST_NAME[..28] == LAST_NAME;
      RankIsShortlex(A, LAST_NAME, s);
    }
  }

  lemma LettersUntil(s: string, i: nat)
    requires CapitalsUntil(s, i)
    ensures i <= |s| && AllLetters(A, s[..i]) && (i < |s| ==> !IsLetter(A, s[i])) && IsLetter(A, 'A')
  {
  }

  /** Numbers are ordered as their names are: shorter first, then by dictionary. */
  lemma NamesAreOrdered(n: u128, m: u128)
    ensures n < m <==> Shortlex(Print(n), Print(m))
  {
    hide Rank, AllLetters, Name, Print, Shortlex;
    PrintIsName(n);
    PrintIsName(m);
    RankOfName(A, n + 1);
    RankOfName(A, m + 1);
    RankIsShortlex(A, Print(n), Print(m));
  }

  lemma {:induction false} StepsAreLowest(k: nat)
    requires k < 28
    ensures STEPS[k] == Lowest(k + 1) - 1
  {
    if k > 0 {
      StepsAreLowest(k - 1);
      StepsFollow();
    }
  }

  lemma StepsFollow()
    ensures forall k :: 1 <= k < 28 ==> STEPS[k] == 26 * STEPS[k - 1] + 26
  {
  }

  /** The names of length `k` are those from one step to the next. */
  lemma NameLengths(n: u128, k: nat)
    requires 1 <= k <= 28
    ensures |Print(n)| == k <==> STEPS[k - 1] <= n && (k < 28 ==> n < STEPS[k])
  {
    hide Rank, AllLetters, Name, Print, Lowest;
    PrintIsName(n);
    RankOfName(A, n + 1);
    var length := |Print(n)|;
    RankByLength(A, Print(n));
    AtMostTwentyEight();
    StepsAreLowest(k - 1);
    if length < k {
      LowestGrows(length + 1, k);
    } else if length > k {
      LowestGrows(k + 1, length);
    }
    if k < 28 {
      StepsAreLowest(k);
    } else if length > 28 {
      LowestGrows(29, length);
    }
  }

  lemma AtMostTwentyEight()
    ensures Lowest(29) > U128_MAX + 1
  {
    hide Lowest;
    StepsAreLowest(27);
    LowestNext(28);
  }

  lemma LowestNext(k: nat)
    ensures Lowest(k + 1) == 26 * Lowest(k) + 1
  {
  }

  // ----- Reserved names -----

  /** A reserved number belongs to one id and has a name of 27 letters. */
  lemma ReservedNames(block: u64, tx: u32, block': u64, tx': u32)
    ensures |Print(Reserved(block, tx))| == 27
    ensures Reserved(block, tx) == Reserved(block', tx') ==> block == block' && tx == tx'
  {
    hide Print;
    NameLengths(Reserved(block, tx), 27);
  }

  // ----- The unlock schedule -----

  datatype Network = Bitcoin | Testnet | Signet | Regtest

  /** A twelfth of it. */
  const INTERVAL: nat := 17500

  function FirstRuneHeight(network: Network): nat {
    HALVING * match network case Bitcoin => 4 case Testnet => 12 case Signet => 0 case Regtest => 0
  }

  /** The height after `height`, which stays at the largest u32. */
  function Offset(height: u32): u32 {
    if height == U32_MAX then U32_MAX else height + 1
  }

  function MinimumAtHeight(network: Network, height: u32): (n: nat)
    ensures n <= STEPS[12]
  {
    var offset := Offset(height);
    var start := FirstRuneHeight(network);
    if offset < start then STEPS[12]
    else if offset >= start + HALVING then 0
    else
      var progress := offset - start;
      var length := 12 - progress / INTERVAL;
      assert 1 <= length <= 12;
      Between(STEPS[length - 1], STEPS[length], progress % INTERVAL)
  }

  /** The point that far on the way down from `high` to `low`. */
  function Between(low: nat, high: nat, remainder: nat): nat
    requires low <= high && remainder < INTERVAL
  {
    FractionOf(high - low, remainder);
    high - (high - low) * remainder / INTERVAL
  }

  lemma FractionOf(a: nat, r: nat)
    requires r < INTERVAL
    ensures 0 <= a * r / INTERVAL <= a
    ensures a > 0 ==> a * r / INTERVAL < a
  {
    TimesAtMost(r, INTERVAL - 1, a);
    ScaleDown(a, a * r);
  }

  lemma ScaleDown(a: nat, z: nat)
    requires z <= a * 17499
    ensures z / 17500 <= a && (a > 0 ==> z / 17500 < a)
  {
  }

  lemma BetweenFalls(low: nat, high: nat, r: nat, s: nat)
    requires low <= high && r <= s < INTERVAL
    ensures low <= Between(low, high, s) <= Between(low, high, r) <= high
    ensures low < high ==> low < Between(low, high, s)
  {
    var a := high - low;
    FractionOf(a, r);
    FractionOf(a, s);
    TimesAtMost(r, s, a);
    DivideFalls(a * r, a * s);
  }

  lemma DivideFalls(x: nat, y: nat)
    requires x <= y
    ensures x / 17500 <= y / 17500
  {
  }

  function Progress(network: Network, height: u32): int {
    Offset(height) - FirstRuneHeight(network)
  }

  lemma InPeriod(network: Network, height: u32)
    requires 0 <= Progress(network, height) < HALVING
    ensures var p := Progress(network, height);
            var j := p / INTERVAL;
            0 <= j < 12 && STEPS[11 - j] < STEPS[12 - j]
            && MinimumAtHeight(network, height) == Between(STEPS[11 - j], STEPS[12 - j], p % INTERVAL)
  {
    hide FirstRuneHeight, Offset, Between;
    StepsFollow();
  }

  /** In the `j`-th twelfth of the unlock period the minimum lies above step 11 - j and at most at step 12 - j. */
  lemma MinimumInInterval(network: Network, height: u32)
    requires 0 <= Progress(network, height) < HALVING
    ensures var j := Progress(network, height) / INTERVAL;
            0 <= j < 12 && STEPS[11 - j] < MinimumAtHeight(network, height) <= STEPS[12 - j]
  {
    hide Progress, Between, MinimumAtHeight;
    InPeriod(network, height);
    var p := Progress(network, height);
    BetweenFalls(STEPS[11 - p / INTERVAL], STEPS[12 - p / INTERVAL], p % INTERVAL, p % INTERVAL);
  }

  lemma StepsRise(i: nat, j: nat)
    requires i <= j < 28
    ensures STEPS[i] <= STEPS[j]
  {
    hide Lowest;
    StepsAreLowest(i);
    StepsAreLowest(j);
    LowestGrows(i + 1, j + 1);
  }

  lemma SameTwelfth(p: nat, q: nat)
    requires p <= q && p / INTERVAL == q / INTERVAL
    ensures p % INTERVAL <= q % INTERVAL
  {
  }

  lemma FallsInPeriod(network: Network, h: u32, h': u32)
    requires 0 <= Progress(network, h) <= Progress(network, h') < HALVING
    ensures MinimumAtHeight(network, h') <= MinimumAtHeight(network, h)
  {
    hide Between, Progress, MinimumAtHeight;
    var p, p' := Progress(network, h), Progress(network, h');
    DivideFalls(p, p');
    if p / INTERVAL < p' / INTERVAL {
      MinimumInInterval(network, h);
      MinimumInInterval(network, h');
      StepsRise(12 - p' / INTERVAL, 11 - p / INTERVAL);
    } else {
      InPeriod(network, h);
      InPeriod(network, h');
      SameTwelfth(p, p');
      BetweenFalls(STEPS[11 - p / INTERVAL], STEPS[12 - p / INTERVAL], p % INTERVAL, p' % INTERVAL);
    }
  }

  /** On every network the minimum never rises with the height, up to and at the largest height. */
  lemma MinimumNeverRises(network: Network, h: u32, h': u32)
    requires h <= h'
    ensures MinimumAtHeight(network, h') <= MinimumAtHeight(network, h)
  {
    hide Between, FirstRuneHeight;
    if 0 <= Progress(network, h) && Progress(network, h') < HALVING {
      FallsInPeriod(network, h, h');
    }
  }

  /** Names are of capitals, and runes unlock from block 840000 on, on the test network from block 2520000, elsewhere from the
      start; the number reserved for an id is that of its place behind the first name of 27 letters. */
  lemma NamesByNumber(n: u128, block: u64, tx: u32)
    ensures forall c :: c in Print(n) ==> 'A' <= c <= 'Z'
    ensures Print(0) == "A" && Print(26) == "AA"
    ensures FirstRuneHeight(Bitcoin) == 840000 && FirstRuneHeight(Testnet) == 2520000
    ensures FirstRuneHeight(Signet) == FirstRuneHeight(Regtest) == 0
    ensures Reserved(block, tx) == 6402364363415443603228541259936211926 + 4294967296 * block + tx
  {
    hide AllLetters, Rank;
    PrintIsName(n);
    RankOfName(A, n + 1);
    Capitals(Print(n));
    assert Name(A, 0) == "";
    assert Name(A, 1) == "A" && Name(A, 27) == "AA";
  }

  lemma Capitals(s: string)
    requires AllLetters(A, s)
    ensures forall c :: c in s ==> 'A' <= c <= 'Z'
  {
  }

  /** On the main network the minimum is the first name of 13 - k letters when k twelfths of the period are over. */
  lemma MinimumByNumber(k: nat, n: u128)
    requires k <= 12
    ensures |Print(MinimumAtHeight(Bitcoin, 839999 + 17500 * k))| == 13 - k
    ensures |Print(n)| == 13 - k ==> MinimumAtHeight(Bitcoin, 839999 + 17500 * k) <= n
  {
    hide Print, MinimumAtHeight, Lowest;
    AtTheTurn(k);
    StepsFollow();
    NameLengths(STEPS[12 - k], 13 - k);
    NameLengths(n, 13 - k);
  }

  /** Before block 840000 comes in sight it is the first name of 13 letters, and from block 1049999 on the first name of all. */
  lemma MinimumOutside(height: u32)
    ensures height < 840000 ==> MinimumAtHeight(Bitcoin, height) == 99246114928149462
    ensures height >= 1049999 ==> MinimumAtHeight(Bitcoin, height) == 0
  {
    hide Between;
    if height == 839999 {
      AtTheTurn(0);
    }
  }

  lemma AtTheTurn(k: nat)
    requires k <= 12
    ensures MinimumAtHeight(Bitcoin, 839999 + 17500 * k) == STEPS[12 - k]
  {
    hide Between;
    if k < 12 {
      var length := 12 - (17500 * k) / INTERVAL;
      assert (17500 * k) / 17500 == k && (17500 * k) % 17500 == 0;
      NothingDown(STEPS[11 - k], STEPS[12 - k]);
    }
  }

  lemma NothingDown(low: nat, high: nat)
    requires low <= high
    ensures Between(low, high, 0) == high
  {
    assert (high - low) * 0 == 0;
  }
}
