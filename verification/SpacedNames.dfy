/** Rune names with spacers (crates/ordinals/src/spaced_rune.rs). */
module SpacedNames {
  import opened Basics
  import opened Bits
  import opened Letters
  import opened RuneNames

  const BULLET: char := '\U{2022}'

  datatype SpacedError = LeadingSpacer | TrailingSpacer | DoubleSpacer | BadCharacter(c: char) | BadRune(error: NameError)

  datatype Spaced = Spaced(letters: string, spacers: u32)

  /** One bit of a u32. The shift is taken modulo 32, as in a release build. */
  function Position(letters: string): nat
    requires letters != ""
  {
    (|letters| - 1) % 32
  }

  function SpacedStep(st: Spaced, c: char): Result<Spaced, SpacedError> {
    if IsLetter(A, c) then Ok(Spaced(st.letters + [c], st.spacers))
    else if c != '.' && c != BULLET then Err(BadCharacter(c))
    else if st.letters == "" then Err(LeadingSpacer)
    else if Bit(st.spacers, Position(st.letters)) then Err(DoubleSpacer)
    else
      WordHolds(st.spacers, Position(st.letters));
      Ok(Spaced(st.letters, st.spacers + Pow2(Position(st.letters))))
  }

  lemma WordHolds(n: u32, k: nat)
    requires !Bit(n, k) && k < 32
    ensures n + Pow2(k) <= U32_MAX
  {
    hide Pow2, Bit;
    Pow2Of32();
    SetBitFits(n, k, 32);
  }

  lemma Pow2Of32()
    ensures Pow2(32) == U32_MAX + 1
  {
    hide Pow2;
    PowersOfTwo();
    Pow2Seven(4); Pow2Seven(11); Pow2Seven(18); Pow2Seven(25);
    Pow2Four();
  }

  lemma Pow2Four()
    ensures Pow2(4) == 16
  {
    assert Pow2(3) == 8;
  }

  /** The letters and spacers of a string read from the left. */
  function Fold(s: string): Result<Spaced, SpacedError> {
    if s == "" then Ok(Spaced("", 0))
    else
      match Fold(DropLast(s))
      case Err(e) => Err(e)
      case Ok(st) => SpacedStep(st, Last(s))
  }

  datatype SpacedRune = SpacedRune(rune: u128, spacers: u32)

  function Finish(st: Spaced): Result<SpacedRune, SpacedError> {
    if BitLength(st.spacers) >= |st.letters| then Err(TrailingSpacer)
    else
      match ParseOf(st.letters)
      case Err(e) => Err(BadRune(e))
      case Ok(n) => Ok(SpacedRune(n, st.spacers))
  }

  function ParseSpacedOf(s: string): Result<SpacedRune, SpacedError> {
    match Fold(s)
    case Err(e) => Err(e)
    case Ok(st) => Finish(st)
  }

  lemma FoldSnoc(s: string, i: nat)
    requires i < |s|
    ensures Fold(s[..i]).Err? ==> Fold(s[..i + 1]) == Err(Fold(s[..i]).error)
    ensures Fold(s[..i]).Ok? ==> Fold(s[..i + 1]) == SpacedStep(Fold(s[..i]).value, s[i])
  {
    assert DropLast(s[..i + 1]) == s[..i];
  }

  lemma {:induction false} FoldStaysErr(s: string, i: nat)
    requires i <= |s| && Fold(s[..i]).Err?
    ensures Fold(s) == Err(Fold(s[..i]).error)
    decreases |s| - i
  {
    if i == |s| {
      assert s[..i] == s;
    } else {
      FoldSnoc(s, i);
      FoldStaysErr(s, i + 1);
    }
  }

  method ParseSpaced(s: string) returns (r: Result<SpacedRune, SpacedError>)
    ensures r == ParseSpacedOf(s)
  {
    hide Fold, Bit, Pow2, BitLength, ParseOf;
    var letters, spacers: u32 := "", 0;
    EmptyFold(s);
    for i := 0 to |s|
      invariant Fold(s[..i]) == Ok(Spaced(letters, spacers))
    {
      FoldSnoc(s, i);
      var c := s[i];
      if IsLetter(A, c) {
        letters := letters + [c];
      } else if c == '.' || c == BULLET {
        if |letters| == 0 {
          FoldStaysErr(s, i + 1);
          return Err(LeadingSpacer);
        }
        var position := (|letters| - 1) % 32;
        if Bit(spacers, position) {
          FoldStaysErr(s, i + 1);
          return Err(DoubleSpacer);
        }
        WordHolds(spacers, position);
        spacers := spacers + Pow2(position);
      } else {
        FoldStaysErr(s, i + 1);
        return Err(BadCharacter(c));
      }
    }
    assert s[..|s|] == s;
    if BitLength(spacers) >= |letters| {
      return Err(TrailingSpacer);
    }
    var rune := FromStr(letters);
    if rune.Err? {
      return Err(BadRune(rune.error));
    }
    return Ok(SpacedRune(rune.value, spacers));
  }

  lemma EmptyFold(s: string)
    ensures Fold(s[..0]) == Ok(Spaced("", 0))
  {
  }

  // ----- Printing -----

  /** Each letter, and a bullet where its bit is set. */
  function SpellAll(letters: string, spacers: nat): string {
    if letters == "" then ""
    else SpellAll(DropLast(letters), spacers) + [Last(letters)] + if Bit(spacers, |letters| - 1) then [BULLET] else ""
  }

  /** The same without a bullet behind the last letter. */
  function Shown(letters: string, spacers: nat): string {
    if letters == "" then "" else SpellAll(DropLast(letters), spacers) + [Last(letters)]
  }

  method DisplaySpaced(r: SpacedRune) returns (s: string)
    ensures s == Shown(Print(r.rune), r.spacers)
  {
    hide Bit, Print;
    var rune := Display(r.rune);
    s := "";
    for i := 0 to |rune|
      invariant s == if i < |rune| then SpellAll(rune[..i], r.spacers) else Shown(rune, r.spacers)
    {
      assert DropLast(rune[..i + 1]) == rune[..i];
      s := s + [rune[i]];
      if i < |rune| - 1 && Bit(r.spacers, i) {
        s := s + [BULLET];
      }
    }
  }

  // ----- Parse after print -----

  lemma SpellUnfolds(letters: string, spacers: nat)
    requires letters != ""
    ensures SpellAll(letters, spacers) ==
            Shown(letters, spacers) + if Bit(spacers, |letters| - 1) then [BULLET] else ""
  {
  }

  /** A spacer behind the last letter adds the bit of that letter. */
  lemma FoldOfBullet(letters: string, spacers: u32)
    requires 0 < |letters| <= 32 && Low(spacers, |letters| - 1) <= U32_MAX
    requires Fold(Shown(letters, spacers)) == Ok(Spaced(letters, Low(spacers, |letters| - 1)))
    ensures Low(spacers, |letters|) <= U32_MAX
    ensures Fold(SpellAll(letters, spacers)) == Ok(Spaced(letters, Low(spacers, |letters|)))
  {
    hide Bit, Low, Pow2, Fold, SpellAll, Shown;
    var k := |letters| - 1;
    LowFits(spacers, k + 1);
    LowNext(spacers, k);
    LowIsSmall(spacers, k);
    NoHighBit(Low(spacers, k), k);
    SpellUnfolds(letters, spacers);
    assert Shown(letters, spacers) + "" == Shown(letters, spacers);
    FoldOne(Shown(letters, spacers), BULLET);
  }

  lemma {:induction false} FoldOfSpelling(letters: string, spacers: u32)
    requires AllLetters(A, letters) && |letters| <= 32
    ensures Low(spacers, |letters|) <= U32_MAX
    ensures Fold(SpellAll(letters, spacers)) == Ok(Spaced(letters, Low(spacers, |letters|)))
  {
    hide Bit, Low, Pow2, Fold, SpellAll, Shown, SpacedStep;
    if letters == "" {
      LowOfNothing(spacers);
      NothingSpelled();
      EmptySpelling(spacers);
    } else {
      FoldOfSpelling(DropLast(letters), spacers);
      FoldOfShown(letters, spacers);
      FoldOfBullet(letters, spacers);
    }
  }

  lemma EmptySpelling(spacers: nat)
    ensures SpellAll("", spacers) == ""
  {
  }

  lemma FoldOne(s: string, c: char)
    ensures Fold(s).Ok? ==> Fold(s + [c]) == SpacedStep(Fold(s).value, c)
  {
    assert DropLast(s + [c]) == s;
  }

  lemma FoldOfShown(letters: string, spacers: u32)
    requires AllLetters(A, letters) && 0 < |letters| <= 32 && Low(spacers, |letters| - 1) <= U32_MAX
    requires Fold(SpellAll(DropLast(letters), spacers)) == Ok(Spaced(DropLast(letters), Low(spacers, |letters| - 1)))
    ensures Fold(Shown(letters, spacers)) == Ok(Spaced(letters, Low(spacers, |letters| - 1)))
  {
    hide Bit, Low, Pow2, Fold, SpellAll;
    assert Last(letters) in letters;
    FoldOne(SpellAll(DropLast(letters), spacers), Last(letters));
    assert DropLast(letters) + [Last(letters)] == letters;
  }

  lemma LowOfNothing(n: nat)
    ensures Low(n, 0) == 0
  {
  }

  lemma {:induction false} LowFits(n: nat, k: nat)
    ensures Low(n, k) <= n
  {
    if k > 0 {
      LowFits(n / 2, k - 1);
    }
  }

  /** Parsing what was printed gives the rune back, and the spacers that stand between two letters. */
  lemma ParsePrintSpaced(r: SpacedRune)
    ensures var length := |Print(r.rune)|;
            0 < length <= 28 && Low(r.spacers, length - 1) <= U32_MAX &&
            ParseSpacedOf(Shown(Print(r.rune), r.spacers)) == Ok(SpacedRune(r.rune, Low(r.spacers, length - 1)))
  {
    hide Bit, Low, Pow2, Fold, SpellAll, Print, ParseOf, Shown, BitLength, AllLetters;
    var letters := Print(r.rune);
    PrintLetters(r.rune);
    FoldOfSpelling(DropLast(letters), r.spacers);
    FoldOfShown(letters, r.spacers);
    ParsePrint(r.rune);
    LowIsSmall(r.spacers, |letters| - 1);
    BitLengthBound(Low(r.spacers, |letters| - 1), |letters| - 1);
  }

  lemma PrintLetters(n: u128)
    ensures AllLetters(A, Print(n)) && 0 < |Print(n)| <= 28
    ensures AllLetters(A, DropLast(Print(n)))
  {
    hide Rank, Print, Lowest;
    PrintIsName(n);
    RankOfName(A, n + 1);
    RankByLength(A, Print(n));
    AtMostTwentyEight();
    if |Print(n)| > 28 {
      LowestGrows(29, |Print(n)|);
    }
    LowestZero();
  }

  lemma LowestZero()
    ensures Lowest(1) == 1
  {
  }

  // ----- Print after parse -----

  /** Dots as bullets. */
  function Bulleted(s: string): string {
    if s == "" then "" else Bulleted(DropLast(s)) + [if Last(s) == '.' then BULLET else Last(s)]
  }

  lemma {:induction false} SpellDependsOnLowBits(letters: string, a: nat, b: nat)
    requires forall k :: 0 <= k < |letters| ==> Bit(a, k) == Bit(b, k)
    ensures SpellAll(letters, a) == SpellAll(letters, b)
  {
    if letters != "" {
      SpellDependsOnLowBits(DropLast(letters), a, b);
    }
  }

  lemma SpellLetter(letters: string, c: char, spacers: nat)
    requires spacers < Pow2(|letters|)
    ensures SpellAll(letters + [c], spacers) == SpellAll(letters, spacers) + [c]
    ensures spacers < Pow2(|letters + [c]|)
  {
    hide Bit;
    NoHighBit(spacers, |letters|);
    assert DropLast(letters + [c]) == letters;
  }

  lemma SpellSpacer(letters: string, spacers: nat)
    requires letters != "" && spacers < Pow2(|letters|) && !Bit(spacers, |letters| - 1)
    ensures SpellAll(letters, spacers + Pow2(|letters| - 1)) == SpellAll(letters, spacers) + [BULLET]
    ensures spacers + Pow2(|letters| - 1) < Pow2(|letters|)
  {
    hide Bit, Pow2;
    var k := |letters| - 1;
    SetBitFits(spacers, k, |letters|);
    forall j: nat {
      SetBit(spacers, k, j);
    }
    SpellDependsOnLowBits(DropLast(letters), spacers + Pow2(k), spacers);
  }

  lemma SpellStep(st: Spaced, c: char)
    requires st.spacers < Pow2(|st.letters|) && AllLetters(A, st.letters)
    requires SpacedStep(st, c).Ok? && |SpacedStep(st, c).value.letters| <= 32
    ensures var next := SpacedStep(st, c).value;
            && AllLetters(A, next.letters) && next.spacers < Pow2(|next.letters|) && |st.letters| <= |next.letters|
            && SpellAll(next.letters, next.spacers) == SpellAll(st.letters, st.spacers) + [if c == '.' then BULLET else c]
  {
    hide Bit, Pow2, SpellAll;
    if IsLetter(A, c) {
      SpellLetter(st.letters, c, st.spacers);
    } else {
      SpellSpacer(st.letters, st.spacers);
    }
  }

  lemma FoldGrows(s: string)
    requires s != "" && Fold(s).Ok?
    ensures Fold(DropLast(s)).Ok? && SpacedStep(Fold(DropLast(s)).value, Last(s)) == Fold(s)
    ensures |Fold(DropLast(s)).value.letters| <= |Fold(s).value.letters|
  {
    hide Bit, Pow2;
  }

  lemma NothingSpelled()
    ensures Fold("") == Ok(Spaced("", 0)) && AllLetters(A, "") && 0 < Pow2(0) && Bulleted("") == SpellAll("", 0)
  {
  }

  /** While there are at most 32 letters, what was read is what the letters and spacers so far spell. */
  lemma {:induction false} FoldSpells(s: string)
    requires Fold(s).Ok? && |Fold(s).value.letters| <= 32
    ensures var st := Fold(s).value;
            AllLetters(A, st.letters) && st.spacers < Pow2(|st.letters|) && Bulleted(s) == SpellAll(st.letters, st.spacers)
  {
    hide Pow2, Fold, SpacedStep, SpellAll, AllLetters;
    if s == "" {
      NothingSpelled();
    } else {
      FoldGrows(s);
      FoldSpells(DropLast(s));
      SpellStep(Fold(DropLast(s)).value, Last(s));
    }
  }

  lemma ParsedIsShort(s: string)
    requires AllLetters(A, s) && ParseOf(s).Ok?
    ensures |s| <= 28
  {
    hide Rank, ParseOf, Lowest;
    ParseOfLetters(s);
    RankByLength(A, s);
    AtMostTwentyEight();
    if |s| > 28 {
      LowestGrows(29, |s|);
    }
  }

  lemma {:induction false} FoldLetters(s: string)
    requires Fold(s).Ok?
    ensures AllLetters(A, Fold(s).value.letters)
  {
    if s != "" {
      FoldLetters(DropLast(s));
    }
  }

  /** Printing what a string parsed to gives the string with bullets for dots, whatever its length. */
  lemma PrintParseSpaced(s: string)
    requires ParseSpacedOf(s).Ok?
    ensures var r := ParseSpacedOf(s).value;
            Shown(Print(r.rune), r.spacers) == Bulleted(s)
  {
    hide Bit, Pow2, Fold, SpellAll, Print, ParseOf, BitLength, AllLetters, Bulleted;
    var st := Fold(s).value;
    FoldLetters(s);
    ParsedIsShort(st.letters);
    FoldSpells(s);
    PrintParse(st.letters);
    BitLengthBound(st.spacers, |st.letters| - 1);
    NoHighBit(st.spacers, |st.letters| - 1);
    SpellLast(st.letters, st.spacers);
  }

  lemma SpellLast(letters: string, spacers: nat)
    requires letters != "" && !Bit(spacers, |letters| - 1)
    ensures SpellAll(letters, spacers) == Shown(letters, spacers)
  {
  }

  // ----- Where bullets stand -----

  /** The characters that are no bullets. */
  function Solid(s: string): nat {
    if s == "" then 0 else Solid(DropLast(s)) + if Last(s) == '\U{2022}' then 0 else 1
  }

  /** A bullet stands behind the letter number `i`, counting from 0. */
  ghost predicate BulletBehind(s: string, i: nat) {
    exists j :: 0 <= j < |s| && s[j] == '\U{2022}' && Solid(s[..j]) == i + 1
  }

  lemma BulletSnoc(s: string, c: char, i: nat)
    ensures BulletBehind(s + [c], i) <==> BulletBehind(s, i) || (c == '\U{2022}' && Solid(s) == i + 1)
    ensures Solid(s + [c]) == Solid(s) + if c == '\U{2022}' then 0 else 1
  {
    var t := s + [c];
    assert DropLast(t) == s && t[..|s|] == s;
    assert forall j :: 0 <= j < |s| ==> t[..j] == s[..j] && t[j] == s[j];
    if BulletBehind(t, i) {
      var j :| 0 <= j < |t| && t[j] == '\U{2022}' && Solid(t[..j]) == i + 1;
    }
    if BulletBehind(s, i) {
      var j :| 0 <= j < |s| && s[j] == '\U{2022}' && Solid(s[..j]) == i + 1;
      assert t[j] == '\U{2022}' && Solid(t[..j]) == i + 1;
    }
    if c == '\U{2022}' && Solid(s) == i + 1 {
      assert t[|s|] == '\U{2022}';
    }
  }

  lemma {:induction false} SpelledBullets(letters: string, spacers: nat, i: nat)
    requires AllLetters(A, letters)
    ensures Solid(SpellAll(letters, spacers)) == |letters|
    ensures BulletBehind(SpellAll(letters, spacers), i) <==> i < |letters| && Bit(spacers, i)
  {
    hide Bit, Solid, BulletBehind;
    if letters == "" {
      NoBullets(i);
    } else {
      var front, last := SpellAll(DropLast(letters), spacers), Last(letters);
      assert last in letters && last != '\U{2022}';
      SpelledBullets(DropLast(letters), spacers, i);
      BulletSnoc(front, last, i);
      BulletSnoc(front + [last], '\U{2022}', i);
      assert SpellAll(letters, spacers) == if Bit(spacers, |letters| - 1) then front + [last] + ['\U{2022}'] else front + [last];
    }
  }

  lemma NoBullets(i: nat)
    ensures Solid("") == 0 && !BulletBehind("", i)
  {
  }

  /** In print a bullet (U+2022) stands behind a letter, but never behind the last one, if and only if the bit with the letter's
      number is set. */
  lemma BulletsStand(r: SpacedRune, i: nat)
    ensures BulletBehind(Shown(Print(r.rune), r.spacers), i) <==> i + 1 < |Print(r.rune)| && Bit(r.spacers, i)
  {
    hide Bit, Print, BulletBehind, SpellAll, AllLetters;
    var letters := Print(r.rune);
    PrintLetters(r.rune);
    SpelledBullets(DropLast(letters), r.spacers, i);
    BulletSnoc(SpellAll(DropLast(letters), r.spacers), Last(letters), i);
    LastIsLetter(letters);
  }

  lemma LastIsLetter(letters: string)
    requires AllLetters(A, letters) && letters != ""
    ensures Last(letters) != '\U{2022}'
  {
    assert Last(letters) in letters;
  }

  // ----- Why a string does not parse -----

  predicate IsSpacer(c: char) {
    c == '.' || c == '\U{2022}'
  }

  /** The capitals alone. */
  function CapitalsOf(s: string): string {
    if s == "" then "" else CapitalsOf(DropLast(s)) + if 'A' <= Last(s) <= 'Z' then [Last(s)] else ""
  }

  /** A spacer stands behind a letter whose number, modulo the width of a u32, is this. */
  ghost predicate SpacerAt(s: string, j: nat, bit: nat) {
    j < |s| && IsSpacer(s[j]) && |CapitalsOf(s[..j])| > 0 && (|CapitalsOf(s[..j])| - 1) % 32 == bit
  }

  ghost predicate IsTaken(s: string, bit: nat) {
    exists j: nat :: SpacerAt(s, j, bit)
  }

  /** What is wrong with a character behind right ones: it is neither capital nor spacer, or a spacer ahead of every capital, or a
      spacer where there is one already. */
  ghost function Wrong(front: string, c: char): Option<SpacedError> {
    if 'A' <= c <= 'Z' then None
    else if !IsSpacer(c) then Some(BadCharacter(c))
    else if |CapitalsOf(front)| == 0 then Some(LeadingSpacer)
    else if IsTaken(front, (|CapitalsOf(front)| - 1) % 32) then Some(DoubleSpacer)
    else None
  }

  ghost predicate AllRight(s: string) {
    forall i :: 0 <= i < |s| ==> Wrong(s[..i], s[i]) == None
  }

  lemma RightSnoc(s: string, c: char)
    ensures AllRight(s + [c]) <==> AllRight(s) && Wrong(s, c) == None
  {
    hide Wrong;
    var t := s + [c];
    assert t[..|s|] == s && t[|s|] == c;
    forall i | 0 <= i < |s| ensures Wrong(t[..i], t[i]) == Wrong(s[..i], s[i]) {
      assert t[..i] == s[..i];
    }
  }

  lemma TakenSnoc(s: string, c: char, bit: nat)
    ensures IsTaken(s + [c], bit) <==>
              IsTaken(s, bit) || (IsSpacer(c) && |CapitalsOf(s)| > 0 && (|CapitalsOf(s)| - 1) % 32 == bit)
  {
    hide CapitalsOf;
    var t := s + [c];
    assert t[..|s|] == s && t[|s|] == c;
    assert forall j :: 0 <= j < |s| ==> t[..j] == s[..j];
    assert forall j: nat :: j < |s| ==> SpacerAt(t, j, bit) == SpacerAt(s, j, bit);
    assert SpacerAt(t, |s|, bit) <==> IsSpacer(c) && |CapitalsOf(s)| > 0 && (|CapitalsOf(s)| - 1) % 32 == bit;
  }

  /** What has been read: the capitals, and the bits of the spacers. */
  ghost predicate ReadSoFar(s: string, st: Spaced) {
    st.letters == CapitalsOf(s) && forall bit: nat :: Bit(st.spacers, bit) <==> IsTaken(s, bit)
  }

  lemma ReadOne(s: string, st: Spaced, c: char)
    requires ReadSoFar(s, st)
    ensures Wrong(s, c) == if SpacedStep(st, c).Ok? then None else Some(SpacedStep(st, c).error)
  {
    hide Bit, IsTaken, CapitalsOf;
  }

  lemma ReadMore(s: string, st: Spaced, c: char)
    requires ReadSoFar(s, st) && SpacedStep(st, c).Ok?
    ensures ReadSoFar(s + [c], SpacedStep(st, c).value)
  {
    hide Bit, IsTaken;
    var next := SpacedStep(st, c).value;
    assert DropLast(s + [c]) == s;
    forall bit: nat ensures Bit(next.spacers, bit) <==> IsTaken(s + [c], bit) {
      TakenSnoc(s, c, bit);
      if !IsLetter(A, c) {
        SetBit(st.spacers, Position(st.letters), bit);
      }
    }
  }

  /** The first wrong character decides. */
  lemma {:induction false} FoldFails(s: string)
    ensures Fold(s).Ok? <==> AllRight(s)
    ensures Fold(s).Ok? ==> ReadSoFar(s, Fold(s).value)
    ensures Fold(s).Err? ==> exists i: nat :: i < |s| && AllRight(s[..i]) && Wrong(s[..i], s[i]) == Some(Fold(s).error)
  {
    hide Fold, AllRight, Wrong, ReadSoFar, SpacedStep;
    if s == "" {
      NothingRead();
    } else {
      var front, c := DropLast(s), Last(s);
      assert s == front + [c] && s[..|front|] == front;
      FoldFails(front);
      FoldOne(front, c);
      RightSnoc(front, c);
      if Fold(front).Ok? {
        ReadOne(front, Fold(front).value, c);
        if SpacedStep(Fold(front).value, c).Ok? {
          ReadMore(front, Fold(front).value, c);
        }
      } else {
        FoldStops(s);
        var i: nat :| i < |front| && AllRight(front[..i]) && Wrong(front[..i], front[i]) == Some(Fold(front).error);
        assert front[..i] == s[..i] && front[i] == s[i];
      }
    }
  }

  lemma FoldStops(s: string)
    requires s != "" && Fold(DropLast(s)).Err?
    ensures Fold(s) == Fold(DropLast(s))
  {
  }

  lemma NothingRead()
    ensures Fold("") == Ok(Spaced("", 0)) && AllRight("") && ReadSoFar("", Spaced("", 0))
  {
    hide Bit;
    forall bit ensures !Bit(0, bit) {
      NoBits(bit);
    }
  }

  lemma {:induction false} NoBits(bit: nat)
    ensures !Bit(0, bit)
  {
    if bit > 0 {
      NoBits(bit - 1);
    }
  }

  /** Up to 32 letters, only a spacer at the end stands behind the last letter. */
  lemma {:induction false} TopBit(s: string)
    requires AllRight(s) && |CapitalsOf(s)| <= 32
    ensures forall bit :: bit >= |CapitalsOf(s)| ==> !IsTaken(s, bit)
    ensures CapitalsOf(s) == "" ==> s == ""
    ensures CapitalsOf(s) != "" ==> (IsTaken(s, |CapitalsOf(s)| - 1) <==> IsSpacer(Last(s)))
  {
    hide AllRight, IsTaken;
    if s == "" {
      NothingTaken();
    } else {
      var front, c := DropLast(s), Last(s);
      assert s == front + [c];
      RightSnoc(front, c);
      TopBit(front);
      forall bit {
        TakenSnoc(front, c, bit);
      }
    }
  }

  lemma NothingTaken()
    ensures forall bit :: !IsTaken("", bit)
  {
  }

  lemma {:induction false} HighestBit(n: nat)
    requires n > 0
    ensures BitLength(n) > 0 && Bit(n, BitLength(n) - 1)
  {
    if n > 1 {
      HighestBit(n / 2);
    }
  }

  /** Spacers reach the last letter if and only if there is a spacer at the end, and no more than 32 letters. */
  lemma TrailingBit(s: string, st: Spaced)
    requires AllRight(s) && ReadSoFar(s, st)
    ensures BitLength(st.spacers) >= |st.letters| <==> s == "" || (IsSpacer(Last(s)) && |CapitalsOf(s)| <= 32)
  {
    hide AllRight, IsTaken, Bit, BitLength, Pow2, IsSpacer;
    var n, k := st.spacers, |st.letters|;
    if k > 32 {
      Pow2Of32();
      BitLengthBound(n, 32);
      NoCapitals();
    } else {
      TopBit(s);
      if n > 0 {
        HighestBit(n);
        assert IsTaken(s, BitLength(n) - 1);
        assert BitLength(n) <= k;
      } else {
        Pow2Of32();
        BitLengthBound(0, 0);
        NoneSet(k - 1);
      }
      if k > 0 && Bit(n, k - 1) {
        HighBitIsLong(n, k - 1);
      }
    }
  }

  lemma NoneSet(k: int)
    ensures k >= 0 ==> !Bit(0, k)
    ensures BitLength(0) == 0
  {
    if k >= 0 {
      NoBits(k);
    }
  }

  lemma NoCapitals()
    ensures CapitalsOf("") == ""
  {
  }

  lemma HighBitIsLong(n: nat, k: nat)
    requires Bit(n, k)
    ensures BitLength(n) > k
  {
    hide Bit, BitLength, Pow2;
    BitLengthBound(n, k);
    if n < Pow2(k) {
      NoHighBit(n, k);
    }
  }

  /** Exactly why a string does not parse, and what it parses to otherwise: the first wrong character, then a spacer at the end (or
      nothing at all), then the capitals as a name. */
  lemma SpacedFails(s: string)
    ensures !AllRight(s) ==>
              exists i: nat :: i < |s| && AllRight(s[..i]) && Wrong(s[..i], s[i]).Some?
                               && ParseSpacedOf(s) == Err(Wrong(s[..i], s[i]).value)
    ensures AllRight(s) && (s == "" || (IsSpacer(Last(s)) && |CapitalsOf(s)| <= 32)) ==> ParseSpacedOf(s) == Err(TrailingSpacer)
    ensures AllRight(s) && s != "" && (!IsSpacer(Last(s)) || |CapitalsOf(s)| > 32) ==>
              match ParseOf(CapitalsOf(s))
              case Err(e) => ParseSpacedOf(s) == Err(BadRune(e))
              case Ok(n) => && ParseSpacedOf(s).Ok? && ParseSpacedOf(s).value.rune == n
                            && forall bit: nat :: Bit(ParseSpacedOf(s).value.spacers, bit) <==> IsTaken(s, bit)
  {
    hide Fold, AllRight, Wrong, Bit, IsTaken, BitLength, ParseOf, IsSpacer, CapitalsOf;
    FoldFails(s);
    if Fold(s).Ok? {
      TrailingBit(s, Fold(s).value);
    }
  }
}
