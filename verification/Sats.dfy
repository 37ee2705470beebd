/** Sats, their blocks, degrees and names (crates/ordinals/src/{sat,epoch,height,degree}.rs). */
module Sats {
  import opened Basics
  import opened Arithmetic
  import opened Letters

  const DIFFCHANGE: nat := 2016
  const CYCLE_EPOCHS: nat := 6
  const SUPPLY: u64 := 2099999997690000
  const FIRST_POST_SUBSIDY: nat := 33

  const STARTING_SATS: seq<u64> := [
    0, 1050000000000000, 1575000000000000, 1837500000000000, 1968750000000000, 2034375000000000, 2067187500000000,
    2083593750000000, 2091796875000000, 2095898437500000, 2097949218750000, 2098974609270000, 2099487304530000,
    2099743652160000, 2099871825870000, 2099935912620000, 2099967955890000, 2099983977420000, 2099991988080000,
    2099995993410000, 2099997995970000, 2099998997250000, 2099999497890000, 2099999748210000, 2099999873370000,
    2099999935950000, 2099999967240000, 2099999982780000, 2099999990550000, 2099999994330000, 2099999996220000,
    2099999997060000, 2099999997480000, SUPPLY]

  // ----- Epochs -----

  /** A right shift. */
  function Shift(n: nat, k: nat): nat {
    if k == 0 then n else Shift(n, k - 1) / 2
  }

  function Subsidy(epoch: nat): nat {
    if epoch < FIRST_POST_SUBSIDY then Shift(50 * 100_000_000, epoch) else 0
  }

  function StartingSat(epoch: nat): u64 {
    if epoch < 34 then STARTING_SATS[epoch] else STARTING_SATS[33]
  }

  /** The chain of comparisons from entry `e + 1` of the table on. */
  function EpochFrom(sat: u64, e: nat): (r: nat)
    requires e <= 33
    ensures e <= r <= 33
    decreases 33 - e
  {
    if e == 33 || sat < StartingSat(e + 1) then e else EpochFrom(sat, e + 1)
  }

  function EpochOf(sat: u64): (r: nat)
    ensures r <= 33
  {
    EpochFrom(sat, 0)
  }

  const SUBSIDIES: seq<nat> := [
    5000000000, 2500000000, 1250000000, 625000000, 312500000, 156250000, 78125000, 39062500, 19531250, 9765625, 4882812,
    2441406, 1220703, 610351, 305175, 152587, 76293, 38146, 19073, 9536, 4768, 2384, 1192, 596, 298, 149, 74, 37, 18, 9,
    4, 2, 1]

  lemma SubsidiesHalve()
    ensures forall e :: 0 <= e < 32 ==> SUBSIDIES[e + 1] == SUBSIDIES[e] / 2
    ensures forall e :: 0 <= e < 33 ==> SUBSIDIES[e] > 0
  {
  }

  lemma StartsAddUp()
    ensures forall e :: 0 <= e < 33 ==> STARTING_SATS[e + 1] == STARTING_SATS[e] + HALVING * SUBSIDIES[e]
  {
  }

  lemma {:induction false} SubsidyTable(e: nat)
    requires e < 33
    ensures Subsidy(e) == SUBSIDIES[e] > 0
  {
    SubsidiesHalve();
    if e > 0 {
      SubsidyTable(e - 1);
    }
  }

  /** The table of starting sats is what the subsidies add up to. */
  lemma EpochsAddUp(e: nat)
    requires e < 33
    ensures StartingSat(e + 1) == StartingSat(e) + HALVING * Subsidy(e) && Subsidy(e) > 0
  {
    hide Subsidy;
    SubsidyTable(e);
    StartsAddUp();
  }

  lemma {:induction false} EpochFromBounds(sat: u64, e: nat)
    requires e < 33 && StartingSat(e) <= sat < SUPPLY
    ensures var r := EpochFrom(sat, e);
            r < 33 && StartingSat(r) <= sat < StartingSat(r + 1)
    decreases 33 - e
  {
    hide StartingSat;
    TableEnds();
    if sat >= StartingSat(e + 1) {
      EpochFromBounds(sat, e + 1);
    }
  }

  lemma TableEnds()
    ensures StartingSat(0) == 0 && StartingSat(33) == SUPPLY
  {
  }

  lemma {:induction false} StartsRise(a: nat, b: nat)
    requires a <= b
    ensures StartingSat(a) <= StartingSat(b)
    decreases b
  {
    if a < b {
      StartsRise(a, b - 1);
      if b <= 33 {
        EpochsAddUp(b - 1);
      }
    }
  }

  /** The epoch of a sat is the one whose sats enclose it. */
  lemma EpochOfSat(sat: u64, e: nat)
    requires sat < SUPPLY
    ensures EpochOf(sat) < 33 && StartingSat(EpochOf(sat)) <= sat < StartingSat(EpochOf(sat) + 1)
    ensures StartingSat(e) <= sat < StartingSat(e + 1) ==> e == EpochOf(sat)
  {
    hide EpochFrom, StartingSat;
    TableEnds();
    EpochFromBounds(sat, 0);
    if e < EpochOf(sat) {
      StartsRise(e + 1, EpochOf(sat));
    } else if e > EpochOf(sat) {
      StartsRise(EpochOf(sat) + 1, e);
    }
  }

  // ----- Blocks -----

  lemma SatHasSubsidy(sat: u64)
    requires sat < SUPPLY
    ensures StartingSat(EpochOf(sat)) <= sat && Subsidy(EpochOf(sat)) > 0
  {
    hide EpochOf, Subsidy, StartingSat;
    EpochOfSat(sat, 0);
    EpochsAddUp(EpochOf(sat));
  }

  function HeightOf(sat: u64): nat
    requires sat < SUPPLY
  {
    hide EpochOf, Subsidy, StartingSat;
    SatHasSubsidy(sat);
    EpochOf(sat) * HALVING + (sat - StartingSat(EpochOf(sat))) / Subsidy(EpochOf(sat))
  }

  function Third(sat: u64): nat
    requires sat < SUPPLY
  {
    hide EpochOf, Subsidy, StartingSat;
    SatHasSubsidy(sat);
    (sat - StartingSat(EpochOf(sat))) % Subsidy(EpochOf(sat))
  }

  function BlockSubsidy(height: u32): nat {
    Subsidy(height / HALVING)
  }

  function BlockStart(height: u32): nat {
    StartingSat(height / HALVING) + height % HALVING * Subsidy(height / HALVING)
  }

  /** A sat lies in its block, at its offset. */
  lemma SatInBlock(sat: u64)
    requires sat < SUPPLY
    ensures HeightOf(sat) < 33 * HALVING && HeightOf(sat) / HALVING == EpochOf(sat)
    ensures sat == BlockStart(HeightOf(sat)) + Third(sat) && Third(sat) < BlockSubsidy(HeightOf(sat))
  {
    hide EpochOf, Subsidy, StartingSat;
    var e := EpochOf(sat);
    EpochOfSat(sat, 0);
    EpochsAddUp(e);
    Divide(sat - StartingSat(e), Subsidy(e), HALVING);
    var q := (sat - StartingSat(e)) / Subsidy(e);
    assert HeightOf(sat) == e * HALVING + q;
    Quotient(HeightOf(sat), HALVING, e, q);
  }

  lemma NoSubsidyLater(e: nat)
    requires Subsidy(e) > 0
    ensures e < 33
  {
  }

  lemma LastStart(e: nat)
    requires e <= 33
    ensures StartingSat(e) <= SUPPLY
  {
    StartsRise(e, 33);
  }

  /** Every block and offset below its subsidy give one sat, with that block and offset. */
  lemma BlockOfSat(height: u32, offset: nat)
    requires offset < BlockSubsidy(height)
    ensures BlockStart(height) + offset < SUPPLY
    ensures HeightOf(BlockStart(height) + offset) == height && Third(BlockStart(height) + offset) == offset
  {
    hide EpochOf, Subsidy, StartingSat;
    var e := height / HALVING;
    NoSubsidyLater(e);
    EpochsAddUp(e);
    LastStart(e + 1);
    Undivide(height % HALVING, Subsidy(e), offset, HALVING);
    EpochOfSat(BlockStart(height) + offset, e);
  }

  // ----- Decimals -----

  datatype SatError = BlockOffset | EpochOffset | EpochPeriodMismatch | NameCharacter | NameRange | PeriodOffset

  function FromDecimal(height: u32, offset: u64): Result<nat, SatError> {
    if offset >= BlockSubsidy(height) then Err(BlockOffset) else Ok(BlockStart(height) + offset)
  }

  /** Decimal notation names every sat once. */
  lemma DecimalsAreUnique(sat: u64, height: u32, offset: u64)
    requires sat < SUPPLY
    ensures HeightOf(sat) <= U32_MAX && Third(sat) <= U64_MAX && FromDecimal(HeightOf(sat), Third(sat)) == Ok(sat)
    ensures FromDecimal(height, offset) == Ok(sat) ==> height == HeightOf(sat) && offset == Third(sat)
  {
    hide HeightOf, Third, BlockStart, BlockSubsidy;
    SatInBlock(sat);
    if offset < BlockSubsidy(height) {
      BlockOfSat(height, offset);
    }
  }

  // ----- Degrees -----

  datatype Degree = Degree(hour: u32, minute: u32, second: u32, third: u64)

  function DegreeOf(sat: u64): Degree
    requires sat < SUPPLY
  {
    hide HeightOf, Third, BlockStart, BlockSubsidy;
    SatInBlock(sat);
    var height := HeightOf(sat);
    Degree(height / (CYCLE_EPOCHS * HALVING), height % HALVING, height % DIFFCHANGE, Third(sat))
  }

  function Wrap(n: nat): u32 {
    n % 0x1_0000_0000
  }

  /** Products and sums wrap around, as in a release build. */
  function FromDegree(d: Degree): Result<nat, SatError> {
    if d.minute >= HALVING then Err(EpochOffset)
    else if d.second >= DIFFCHANGE then Err(PeriodOffset)
    else
      var relationship := d.second + HALVING * CYCLE_EPOCHS - d.minute;
      if relationship % 336 != 0 then Err(EpochPeriodMismatch)
      else
        var epoch := Wrap(Wrap(d.hour * CYCLE_EPOCHS) + relationship % DIFFCHANGE / 336);
        var height := Wrap(Wrap(epoch * HALVING) + d.minute);
        if d.third >= BlockSubsidy(height) then Err(BlockOffset) else Ok(BlockStart(height) + d.third)
  }

  /** What minute and second of a height say about its place in the cycle: 210000 leaves 336 modulo 2016, and six times
      that leaves nothing. */
  lemma PlaceInCycle(height: nat)
    ensures var relationship := height % DIFFCHANGE + HALVING * CYCLE_EPOCHS - height % HALVING;
            relationship % 336 == 0 && relationship % DIFFCHANGE / 336 == height / HALVING % CYCLE_EPOCHS
    ensures height / HALVING / CYCLE_EPOCHS == height / (CYCLE_EPOCHS * HALVING)
  {
    var e, m, p := height / 210000, height % 210000, height / 2016;
    var c, k := e / 6, e % 6;
    var relationship := height % 2016 + 1260000 - m;
    var q := 104 * e + 625 - p + c;
    assert relationship == q * 2016 + 336 * k;
    Quotient(relationship, 2016, q, 336 * k);
    Quotient(relationship, 336, 6 * q + k, 0);
    Quotient(336 * k, 336, k, 0);
    Quotient(height, 1260000, c, 210000 * k + m);
  }

  /** The other way round: an accepted minute and second are those of the height they stand for. */
  lemma CycleOfPlace(hour: nat, minute: nat, second: nat)
    requires minute < HALVING && second < DIFFCHANGE
    requires (second + HALVING * CYCLE_EPOCHS - minute) % 336 == 0
    ensures var k := (second + HALVING * CYCLE_EPOCHS - minute) % DIFFCHANGE / 336;
            var height := (hour * CYCLE_EPOCHS + k) * HALVING + minute;
            k < 6 && height % DIFFCHANGE == second && height % HALVING == minute && height / (CYCLE_EPOCHS * HALVING) == hour
  {
    var r := second + 1260000 - minute;
    var t, u, v := r / 336, r / 2016, r % 2016;
    assert r == 336 * t && v == 336 * (t - 6 * u);
    var k := t - 6 * u;
    Quotient(v, 336, k, 0);
    var height := (hour * 6 + k) * 210000 + minute;
    assert height == (625 * hour + 104 * k + 625 - u) * 2016 + second;
    Quotient(height, 2016, 625 * hour + 104 * k + 625 - u, second);
    Quotient(height, 210000, hour * 6 + k, minute);
    Quotient(height, 1260000, hour, 210000 * k + minute);
  }

  lemma SmallDegree(d: Degree)
    requires d.hour < 6 && d.minute < HALVING && d.second < DIFFCHANGE
    requires (d.second + HALVING * CYCLE_EPOCHS - d.minute) % 336 == 0
    ensures var k := (d.second + HALVING * CYCLE_EPOCHS - d.minute) % DIFFCHANGE / 336;
            var height := (d.hour * CYCLE_EPOCHS + k) * HALVING + d.minute;
            height <= U32_MAX &&
            FromDegree(d) == if d.third >= BlockSubsidy(height) then Err(BlockOffset) else Ok(BlockStart(height) + d.third)
  {
    hide BlockSubsidy, BlockStart, Wrap;
    CycleOfPlace(d.hour, d.minute, d.second);
    var k := (d.second + HALVING * CYCLE_EPOCHS - d.minute) % DIFFCHANGE / 336;
    NoWrap(d.hour * CYCLE_EPOCHS);
    NoWrap(d.hour * CYCLE_EPOCHS + k);
    NoWrap((d.hour * CYCLE_EPOCHS + k) * HALVING);
    NoWrap((d.hour * CYCLE_EPOCHS + k) * HALVING + d.minute);
  }

  lemma NoWrap(n: nat)
    requires n <= U32_MAX
    ensures Wrap(n) == n
  {
  }

  /** The degree of a sat leads back to it. */
  lemma FromDegreeOf(sat: u64)
    requires sat < SUPPLY
    ensures FromDegree(DegreeOf(sat)) == Ok(sat)
  {
    hide HeightOf, Third, BlockStart, BlockSubsidy, FromDegree;
    SatInBlock(sat);
    PlaceInCycle(HeightOf(sat));
    var d := DegreeOf(sat);
    SmallDegree(d);
    Cycles(HeightOf(sat));
  }

  lemma Cycles(height: nat)
    ensures (height / HALVING / CYCLE_EPOCHS * CYCLE_EPOCHS + height / HALVING % CYCLE_EPOCHS) * HALVING + height % HALVING == height
  {
  }

  lemma AcceptedIsBlock(d: Degree)
    requires FromDegree(d).Ok?
    ensures FromDegree(d).value < SUPPLY && HeightOf(FromDegree(d).value) < 33 * HALVING && Third(FromDegree(d).value) == d.third
    ensures d.minute < HALVING && d.second < DIFFCHANGE && (d.second + HALVING * CYCLE_EPOCHS - d.minute) % 336 == 0
  {
    hide HeightOf, Third, BlockStart, BlockSubsidy;
    var relationship := d.second + HALVING * CYCLE_EPOCHS - d.minute;
    var epoch := Wrap(Wrap(d.hour * CYCLE_EPOCHS) + relationship % DIFFCHANGE / 336);
    var height := Wrap(Wrap(epoch * HALVING) + d.minute);
    BlockOfSat(height, d.third);
    SatInBlock(FromDegree(d).value);
  }

  /** An accepted degree is the degree of the sat it gives, except when the hour is so large that a product wraps.
      Sats have hours below 6 only. */
  lemma AcceptedDegrees(d: Degree)
    requires FromDegree(d).Ok?
    ensures FromDegree(d).value < SUPPLY
    ensures DegreeOf(FromDegree(d).value) == d <==> d.hour < 6
  {
    hide HeightOf, Third, BlockStart, BlockSubsidy, FromDegree;
    var sat := FromDegree(d).value;
    AcceptedIsBlock(d);
    if d.hour < 6 {
      SmallDegree(d);
      CycleOfPlace(d.hour, d.minute, d.second);
      var k := (d.second + HALVING * CYCLE_EPOCHS - d.minute) % DIFFCHANGE / 336;
      BlockOfSat((d.hour * CYCLE_EPOCHS + k) * HALVING + d.minute, d.third);
    }
  }

  /** 2147483648 degrees are accepted as sat 0, whose degree they are not. */
  lemma WrappedHour()
    ensures var d := Degree(0x8000_0000, 0, 0, 0);
            FromDegree(d) == Ok(0) && DegreeOf(0) != d
  {
    hide HeightOf, Third;
    AcceptedDegrees(Degree(0x8000_0000, 0, 0, 0));
  }

  /** Hour, minute, second and third of a sat: its cycle, its place in the halving epoch, its place in the difficulty period, and its
      place in the block. */
  lemma DegreeByNumber(sat: u64, height: u32, offset: nat)
    requires offset < BlockSubsidy(height) && sat == BlockStart(height) + offset
    ensures sat < SUPPLY
    ensures var d := DegreeOf(sat);
            d.hour == height / 1260000 && d.minute == height % 210000 && d.second == height % 2016 && d.third == offset
  {
    hide HeightOf, Third, BlockStart, BlockSubsidy;
    BlockOfSat(height, offset);
  }

  /** Some height has this place in its halving epoch and this place in its difficulty period. */
  ghost predicate PlaceExists(minute: nat, second: nat) {
    exists height: nat :: height % 210000 == minute && height % 2016 == second
  }

  /** Why a degree is rejected, in the order in which it is: minute or second too large, no height with both, or a place beyond its
      block. */
  lemma DegreeFails(d: Degree)
    ensures FromDegree(d) == Err(EpochOffset) <==> d.minute >= 210000
    ensures FromDegree(d) == Err(PeriodOffset) <==> d.minute < 210000 && d.second >= 2016
    ensures FromDegree(d) == Err(EpochPeriodMismatch) <==>
              d.minute < 210000 && d.second < 2016 && !PlaceExists(d.minute, d.second)
    ensures FromDegree(d).Ok? || FromDegree(d).error in {EpochOffset, PeriodOffset, EpochPeriodMismatch, BlockOffset}
  {
    hide BlockStart, BlockSubsidy, Wrap;
    if d.minute < 210000 && d.second < 2016 {
      if PlaceExists(d.minute, d.second) {
        var height: nat :| height % 210000 == d.minute && height % 2016 == d.second;
        PlaceInCycle(height);
      }
      if (d.second + HALVING * CYCLE_EPOCHS - d.minute) % 336 == 0 {
        CycleOfPlace(0, d.minute, d.second);
        var k := (d.second + HALVING * CYCLE_EPOCHS - d.minute) % DIFFCHANGE / 336;
        var height := (0 * CYCLE_EPOCHS + k) * HALVING + d.minute;
        assert height % 210000 == d.minute && height % 2016 == d.second;
      }
    }
  }

  // ----- Names -----

  const LOWER_A: char := 'a'

  /** The last sat is "a"; earlier sats have later names. */
  function NameOf(sat: u64): string
    requires sat <= SUPPLY
  {
    Name(LOWER_A, SUPPLY - sat)
  }

  method SatName(sat: u64) returns (s: string)
    requires sat <= SUPPLY
    ensures s == NameOf(sat)
  {
    s := Spell(LOWER_A, SUPPLY - sat);
  }

  /** Too many letters ahead are reported before a bad character behind them. */
  function FromNameOf(s: string): Result<nat, SatError> {
    var n := LettersAhead(LOWER_A, s);
    var rank := Rank(LOWER_A, s[..n]);
    if rank > SUPPLY then Err(NameRange) else if n < |s| then Err(NameCharacter) else Ok(SUPPLY - rank)
  }

  lemma NameStep(s: string, i: nat)
    requires i < |s| && AllLetters(LOWER_A, s[..i]) && Rank(LOWER_A, s[..i]) <= SUPPLY
    ensures !IsLetter(LOWER_A, s[i]) ==> FromNameOf(s) == Err(NameCharacter)
    ensures IsLetter(LOWER_A, s[i]) ==>
              AllLetters(LOWER_A, s[..i + 1])
              && Rank(LOWER_A, s[..i + 1]) == 26 * Rank(LOWER_A, s[..i]) + (s[i] as int - LOWER_A as int) + 1
              && (Rank(LOWER_A, s[..i + 1]) > SUPPLY ==> FromNameOf(s) == Err(NameRange))
  {
    hide Rank;
    var n := LettersAhead(LOWER_A, s);
    AheadAtLeast(LOWER_A, s, i);
    if IsLetter(LOWER_A, s[i]) {
      assert s[..i + 1] == s[..i] + [s[i]];
      RankSnoc(LOWER_A, s[..i], s[i]);
      AheadAtLeast(LOWER_A, s, i + 1);
      RankOfPrefix(LOWER_A, s[..n], i + 1);
      assert s[..n][..i + 1] == s[..i + 1];
    } else {
      AheadAtMost(LOWER_A, s, i);
    }
  }

  lemma {:induction false} AheadAtMost(first: char, s: string, i: nat)
    requires i < |s| && !IsLetter(first, s[i])
    ensures LettersAhead(first, s) <= i
  {
    if i > 0 {
      assert s[1..][i - 1] == s[i];
      AheadAtMost(first, s[1..], i - 1);
    }
  }

  method FromName(s: string) returns (r: Result<nat, SatError>)
    ensures r == FromNameOf(s)
  {
    hide Rank, FromNameOf, AllLetters;
    var x: u64 := 0;
    EmptyName(s);
    for i := 0 to |s|
      invariant AllLetters(LOWER_A, s[..i]) && x == Rank(LOWER_A, s[..i]) <= SUPPLY
    {
      NameStep(s, i);
      if !IsLetter(LOWER_A, s[i]) {
        return Err(NameCharacter);
      }
      x := x * 26 + (s[i] as int - LOWER_A as int) + 1;
      if x > SUPPLY {
        return Err(NameRange);
      }
    }
    WholeName(s);
    return Ok(SUPPLY - x);
  }

  lemma EmptyName(s: string)
    ensures AllLetters(LOWER_A, s[..0]) && Rank(LOWER_A, s[..0]) == 0
  {
  }

  lemma WholeName(s: string)
    requires AllLetters(LOWER_A, s[..|s|])
    ensures AllLetters(LOWER_A, s) && s[..|s|] == s
    ensures FromNameOf(s) == if Rank(LOWER_A, s) > SUPPLY then Err(NameRange) else Ok(SUPPLY - Rank(LOWER_A, s))
  {
    AheadAtLeast(LOWER_A, s, |s|);
    assert s[..|s|] == s;
  }

  /** Names and sats belong together one to one, and earlier sats have later names. */
  lemma SatNames(sat: u64, other: u64, s: string)
    requires sat <= SUPPLY && other <= SUPPLY && AllLetters(LOWER_A, s)
    ensures FromNameOf(NameOf(sat)) == Ok(sat)
    ensures FromNameOf(s) == Ok(sat) <==> s == NameOf(sat)
    ensures sat < other <==> Shortlex(NameOf(other), NameOf(sat))
  {
    hide Rank, AllLetters, Name, Shortlex, FromNameOf;
    RankOfName(LOWER_A, SUPPLY - sat);
    RankOfName(LOWER_A, SUPPLY - other);
    RankIsShortlex(LOWER_A, NameOf(other), NameOf(sat));
    var name := NameOf(sat);
    assert name[..|name|] == name && s[..|s|] == s;
    WholeName(name);
    WholeName(s);
    NameOfRank(LOWER_A, s);
  }

  /** Why a string is no name: its letters come after the name of sat 0, or else another character follows them. */
  lemma NameFails(s: string, i: nat)
    requires i <= |s| && (forall k :: 0 <= k < i ==> 'a' <= s[k] <= 'z') && (i < |s| ==> !('a' <= s[i] <= 'z'))
    ensures FromNameOf(s) == Err(NameRange) <==> Shortlex(NameOf(0), s[..i])
    ensures FromNameOf(s) == Err(NameCharacter) <==> i < |s| && !Shortlex(NameOf(0), s[..i])
  {
    hide Rank, AllLetters, Name, Shortlex;
    assert AllLetters(LOWER_A, s[..i]) && (i < |s| ==> !IsLetter(LOWER_A, s[i])) by {
      SmallUntil(s, i);
    }
    AheadAtLeast(LOWER_A, s, i);
    if i < |s| {
      AheadAtMost(LOWER_A, s, i);
    }
    RankOfName(LOWER_A, SUPPLY - 0);
    RankIsShortlex(LOWER_A, NameOf(0), s[..i]);
  }

  lemma SmallUntil(s: string, i: nat)
    requires i <= |s| && (forall k :: 0 <= k < i ==> 'a' <= s[k] <= 'z') && (i < |s| ==> !('a' <= s[i] <= 'z'))
    ensures AllLetters(LOWER_A, s[..i]) && (i < |s| ==> !IsLetter(LOWER_A, s[i]))
  {
  }

  /** The last sat has the first name, and names are of small letters. */
  lemma LastNames(sat: u64)
    requires sat <= SUPPLY
    ensures NameOf(2099999997689999) == "a" && NameOf(2099999997689998) == "b"
    ensures forall c :: c in NameOf(sat) ==> 'a' <= c <= 'z'
  {
    hide AllLetters;
    RankOfName(LOWER_A, SUPPLY - sat);
    SmallLetters(NameOf(sat));
    assert Name(LOWER_A, 0) == "";
    assert Name(LOWER_A, 1) == "a" && Name(LOWER_A, 2) == "b";
  }

  lemma SmallLetters(s: string)
    requires AllLetters(LOWER_A, s)
    ensures forall c :: c in s ==> 'a' <= c <= 'z'
  {
  }
}
