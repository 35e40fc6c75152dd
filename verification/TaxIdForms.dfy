/**
 * Which codes the validators of TaxIds accept, spelled out by the characters
 * that may stand in each place and by what each of them weighs.
 */
module TaxIdForms {
  import opened Text
  import opened TaxIds

  // ----- Codice Fiscale -----

  const MONTH_LETTERS := "ABCDEHLMPRST"

  /** The letter that stands for each digit where two people would share a code. */
  const SUBSTITUTES := "LMNPQRSTUV"

  /** The letters by what they weigh from the 1st, 3rd, ... place. */
  const BY_ODD_WEIGHT := "BAKPLCQDREVOSFTGUHMINJWZYX"

  /** `c` stands for the digit `d`. */
  predicate StandsFor(c: char, d: nat) {
    d < 10 && (c as int == '0' as int + d || c == SUBSTITUTES[d])
  }

  lemma NumeralIff(c: char)
    ensures IsNumeral(c) <==> exists d: nat :: StandsFor(c, d)
    ensures forall d: nat :: StandsFor(c, d) ==> DigitOf(c) == d
  {
    if IsNumeral(c) {
      assert StandsFor(c, DigitOf(c));
    }
  }

  lemma MonthIff(c: char)
    ensures IsMonth(c) <==> c in MONTH_LETTERS
  {
    assert forall i :: 0 <= i < 12 ==> IsMonth(MONTH_LETTERS[i]);
    assert 'A' == MONTH_LETTERS[0] && 'B' == MONTH_LETTERS[1] && 'C' == MONTH_LETTERS[2] && 'D' == MONTH_LETTERS[3];
    assert 'E' == MONTH_LETTERS[4] && 'H' == MONTH_LETTERS[5] && 'L' == MONTH_LETTERS[6] && 'M' == MONTH_LETTERS[7];
    assert 'P' == MONTH_LETTERS[8] && 'R' == MONTH_LETTERS[9] && 'S' == MONTH_LETTERS[10] && 'T' == MONTH_LETTERS[11];
  }

  /** In its place a letter weighs what the two orders say, and a digit what the letter of its rank does. */
  lemma WeightsAre(i: nat, c: char)
    ensures IsUpper(c) && i % 2 == 0 ==>
      0 <= Weight(i, c) < 26 && BY_ODD_WEIGHT[Weight(i, c)] == c
    ensures IsUpper(c) && i % 2 == 1 ==> Weight(i, c) == c as int - 'A' as int
    ensures IsDigit(c) ==> Weight(i, c) == Weight(i, (c as int - '0' as int + 'A' as int) as char)
  {
    hide LetterByOdd, LetterByEven;
    if IsUpper(c) && i % 2 == 0 { OddWeightsAre(c); }
  }

  lemma OddWeightsAre(c: char)
    requires IsUpper(c)
    ensures 0 <= OddValue(c) < 26 && BY_ODD_WEIGHT[OddValue(c)] == c
  {
  }

  /** The day of birth, and forty more for women. */
  predicate IsBirthday(c: char, d: char) {
    exists day: nat :: 1 <= day <= 31
      && ((StandsFor(c, day / 10) && StandsFor(d, day % 10)) || (StandsFor(c, day / 10 + 4) && StandsFor(d, day % 10)))
  }

  lemma BirthdayIff(c: char, d: char)
    requires IsNumeral(c) && IsNumeral(d)
    ensures IsDay(DigitOf(c) * 10 + DigitOf(d)) <==> IsBirthday(c, d)
  {
    hide IsNumeral, StandsFor;
    NumeralIff(c);
    NumeralIff(d);
    var tens: nat :| StandsFor(c, tens);
    var units: nat :| StandsFor(d, units);
    StandsForADigit(c, tens);
    StandsForADigit(d, units);
    var number := tens * 10 + units;
    if IsDay(number) {
      var day := if number <= 31 then number else number - 40;
      assert day / 10 == if number <= 31 then tens else tens - 4;
      assert day % 10 == units;
    }
    if IsBirthday(c, d) {
      var day: nat :| 1 <= day <= 31
        && ((StandsFor(c, day / 10) && StandsFor(d, day % 10)) || (StandsFor(c, day / 10 + 4) && StandsFor(d, day % 10)));
      assert units == day % 10 && (tens == day / 10 || tens == day / 10 + 4);
      assert day == 10 * (day / 10) + day % 10;
    }
  }

  lemma StandsForADigit(c: char, d: nat)
    requires StandsFor(c, d)
    ensures d < 10
  {
  }

  /** Six letters, two numerals, a month, two numerals, a letter, three numerals and a letter. */
  ghost predicate MayStand(i: nat, c: char) {
    if i in {6, 7, 9, 10, 12, 13, 14} then exists d: nat :: StandsFor(c, d)
    else if i == 8 then c in MONTH_LETTERS
    else 'A' <= c <= 'Z'
  }

  ghost predicate IsWritten(cf: string) {
    |cf| == 16 && forall i: nat :: i < 16 ==> MayStand(i, cf[i])
  }

  lemma ShapeIff(cf: string)
    ensures HasShape(cf) <==> IsWritten(cf)
  {
    if |cf| == 16 {
      forall i: nat | i < 16 ensures Fits(i, cf[i]) <==> MayStand(i, cf[i]) {
        FitsIff(i, cf[i]);
      }
    }
    hide Fits, MayStand;
  }

  lemma FitsIff(i: nat, c: char)
    requires i < 16
    ensures Fits(i, c) <==> MayStand(i, c)
  {
    NumeralIff(c);
    MonthIff(c);
    hide IsNumeral, StandsFor, IsMonth, MONTH_LETTERS;
  }

  /** The sum of the fifteen weights, from the first to the last. */
  lemma CheckSumIs(cf: string)
    requires |cf| >= 15
    ensures CheckSum(cf, 15) ==
      OddValue(cf[0]) + EvenValue(cf[1]) + OddValue(cf[2]) + EvenValue(cf[3]) + OddValue(cf[4])
      + EvenValue(cf[5]) + OddValue(cf[6]) + EvenValue(cf[7]) + OddValue(cf[8]) + EvenValue(cf[9])
      + OddValue(cf[10]) + EvenValue(cf[11]) + OddValue(cf[12]) + EvenValue(cf[13]) + OddValue(cf[14])
  {
    hide OddValue, EvenValue, CheckSum;
    TwoWeights(cf, 0);
    TwoWeights(cf, 2);
    TwoWeights(cf, 4);
    TwoWeights(cf, 6);
    TwoWeights(cf, 8);
    TwoWeights(cf, 10);
    TwoWeights(cf, 12);
    LastWeight(cf);
  }

  lemma TwoWeights(cf: string, n: nat)
    requires n % 2 == 0 && n + 2 <= |cf|
    ensures CheckSum(cf, n + 2) == CheckSum(cf, n) + OddValue(cf[n]) + EvenValue(cf[n + 1])
  {
    hide OddValue, EvenValue;
    assert CheckSum(cf, n + 1) == CheckSum(cf, n) + Weight(n, cf[n]);
  }

  lemma LastWeight(cf: string)
    requires |cf| >= 15
    ensures CheckSum(cf, 0) == 0 && CheckSum(cf, 15) == CheckSum(cf, 14) + OddValue(cf[14])
  {
    hide OddValue, EvenValue;
  }

  /** A code is accepted exactly when it is written so, names a day, and closes on the rank of its sum. */
  lemma CodiceFiscaleIff(cf: string)
    ensures CodiceFiscaleOk(cf) <==>
      && IsWritten(cf) && IsBirthday(cf[9], cf[10])
      && cf[15] as int - 'A' as int ==
           (OddValue(cf[0]) + EvenValue(cf[1]) + OddValue(cf[2]) + EvenValue(cf[3]) + OddValue(cf[4])
            + EvenValue(cf[5]) + OddValue(cf[6]) + EvenValue(cf[7]) + OddValue(cf[8]) + EvenValue(cf[9])
            + OddValue(cf[10]) + EvenValue(cf[11]) + OddValue(cf[12]) + EvenValue(cf[13]) + OddValue(cf[14])) % 26
  {
    hide IsWritten, IsBirthday, OddValue, EvenValue, CheckSum;
    ShapeIff(cf);
    if HasShape(cf) {
      CheckSumIs(cf);
      assert Fits(9, cf[9]) && Fits(10, cf[10]);
      BirthdayIff(cf[9], cf[10]);
    }
  }

  const EXAMPLE := "RSSMRA85T10A562S"

  lemma ExampleIsWritten()
    ensures HasShape(EXAMPLE) && HasDay(EXAMPLE)
  {
  }

  lemma ExampleReads()
    ensures |EXAMPLE| == 16
    ensures EXAMPLE[0] == 'R' && EXAMPLE[1] == 'S' && EXAMPLE[2] == 'S' && EXAMPLE[3] == 'M' && EXAMPLE[4] == 'R'
    ensures EXAMPLE[5] == 'A' && EXAMPLE[6] == '8' && EXAMPLE[7] == '5' && EXAMPLE[8] == 'T' && EXAMPLE[9] == '1'
    ensures EXAMPLE[10] == '0' && EXAMPLE[11] == 'A' && EXAMPLE[12] == '5' && EXAMPLE[13] == '6' && EXAMPLE[14] == '2'
    ensures EXAMPLE[15] == 'S'
  {
  }

  lemma ExampleWeighs()
    ensures OddValue('R') == 8 && OddValue('S') == 12 && OddValue('8') == 19 && OddValue('T') == 14
    ensures OddValue('0') == 1 && OddValue('5') == 13 && OddValue('2') == 5
    ensures EvenValue('S') == 18 && EvenValue('M') == 12 && EvenValue('A') == 0
    ensures EvenValue('5') == 5 && EvenValue('1') == 1 && EvenValue('6') == 6
  {
  }

  lemma ExampleSum()
    ensures CheckSum(EXAMPLE, 15) == 122 && |EXAMPLE| == 16 && EXAMPLE[15] == CheckLetter(122)
  {
    ExampleReads();
    hide EXAMPLE, CheckSum, OddValue, EvenValue;
    CheckSumIs(EXAMPLE);
    ExampleWeighs();
  }

  /** The code the file gives as its example, and the same under another letter. */
  lemma ExampleIsAccepted(c: char)
    ensures CodiceFiscaleOk(EXAMPLE[15 := c]) <==> c == 'S'
  {
    ExampleIsWritten();
    ExampleSum();
    assert EXAMPLE[15] == 'S';
    hide CheckSum, HasShape, HasDay;
    CheckLetterIsUnique(EXAMPLE, c);
  }

  // ----- Partita IVA -----

  /** What a digit adds from the 2nd, 4th, ... place. */
  function Twice(d: nat): int {
    if d < 5 then 2 * d else 2 * d - 9
  }

  lemma LuhnSumIs(s: string)
    requires |s| == 11 && AllDigits(s)
    ensures LuhnSum(s, 11) ==
      DigitValue(s[0]) + Twice(DigitValue(s[1])) + DigitValue(s[2]) + Twice(DigitValue(s[3]))
      + DigitValue(s[4]) + Twice(DigitValue(s[5])) + DigitValue(s[6]) + Twice(DigitValue(s[7]))
      + DigitValue(s[8]) + Twice(DigitValue(s[9])) + DigitValue(s[10])
  {
    hide LuhnSum, DigitValue;
    TwoDigits(s, 0);
    TwoDigits(s, 2);
    TwoDigits(s, 4);
    TwoDigits(s, 6);
    TwoDigits(s, 8);
    LastDigit(s);
  }

  lemma TwoDigits(s: string, n: nat)
    requires AllDigits(s) && n % 2 == 0 && n + 2 <= |s|
    ensures LuhnSum(s, n + 2) == LuhnSum(s, n) + DigitValue(s[n]) + Twice(DigitValue(s[n + 1]))
  {
    hide DigitValue;
    assert LuhnSum(s, n + 1) == LuhnSum(s, n) + DigitValue(s[n]);
  }

  lemma LastDigit(s: string)
    requires |s| == 11 && AllDigits(s)
    ensures LuhnSum(s, 0) == 0 && LuhnSum(s, 11) == LuhnSum(s, 10) + DigitValue(s[10])
  {
    hide DigitValue;
  }

  /** Eleven digits whose weights add up to whole tens. */
  ghost predicate IsNumber(s: string) {
    && |s| == 11 && (forall i :: 0 <= i < 11 ==> '0' <= s[i] <= '9')
    && (DigitValue(s[0]) + Twice(DigitValue(s[1])) + DigitValue(s[2]) + Twice(DigitValue(s[3]))
        + DigitValue(s[4]) + Twice(DigitValue(s[5])) + DigitValue(s[6]) + Twice(DigitValue(s[7]))
        + DigitValue(s[8]) + Twice(DigitValue(s[9])) + DigitValue(s[10])) % 10 == 0
  }

  lemma LuhnIff(s: string)
    ensures LuhnOk(s) <==> IsNumber(s)
  {
    if |s| == 11 && AllDigits(s) { LuhnSumIs(s); }
    hide LuhnSum, DigitValue;
  }

  /** Such a number is accepted, with the country in front or not, and nothing else is. */
  lemma PartitaIvaIff(cleaned: string)
    ensures PartitaIvaOk(cleaned) <==>
      IsNumber(cleaned) || (|cleaned| == 13 && cleaned[..2] == "IT" && IsNumber(cleaned[2..]))
  {
    LuhnIff(cleaned);
    LuhnIff(WithoutPrefix(cleaned));
    if LuhnOk(cleaned) { NoDigitsStartWithIT(cleaned); }
    hide LuhnOk;
    assert IsNumber(cleaned) ==> |cleaned| == 11 && '0' <= cleaned[0] <= '9';
    assert IsNumber(WithoutPrefix(cleaned)) ==> |WithoutPrefix(cleaned)| == 11;
    hide IsNumber;
    assert HasPrefix(cleaned) <==> |cleaned| >= 2 && cleaned[..2] == "IT";
  }

  // ----- Both -----

  /** Blanks, full stops and hyphens go, letters become capitals and everything else stays, in its order. */
  lemma NormalizedIs(value: string)
    ensures
      NormalizeTaxId(value) ==
        if value == "" then ""
        else if IsSpace(value[0]) || value[0] in ".-" then NormalizeTaxId(value[1..])
        else [if 'a' <= value[0] <= 'z' then (value[0] as int - 'a' as int + 'A' as int) as char else value[0]]
             + NormalizeTaxId(value[1..])
  {
  }
}
