/**
 * src/common/validators/is-italian-tax-id.validator.ts: the check character of a
 * Codice Fiscale (Ministerial Decree of 23 December 1976) and the check digit of a
 * Partita IVA (the Luhn formula), with generatePartitaIva of
 * src/database/seed/seed-all-users.ts.
 */
module TaxIds {
  import opened Text

  // ----- Normalisation: no whitespace or separators, upper case -----

  predicate IsSeparator(c: char) {
    IsSpace(c) || c == '.' || c == '-'
  }

  function Stripped(value: string): (s: string)
    ensures |s| <= |value|
  {
    if value == "" then ""
    else if IsSeparator(value[0]) then Stripped(value[1..])
    else [value[0]] + Stripped(value[1..])
  }

  function NormalizeTaxId(value: string): string {
    UpperAll(Stripped(value))
  }

  lemma {:induction false} StrippedConcat(a: string, b: string)
    ensures Stripped(a + b) == Stripped(a) + Stripped(b)
  {
    if a == "" {
      assert a + b == b;
    } else {
      assert (a + b)[1..] == a[1..] + b;
      StrippedConcat(a[1..], b);
    }
  }

  /** Separators do not matter, wherever they are written. */
  lemma SeparatorsDoNotMatter(a: string, sep: char, b: string)
    requires IsSeparator(sep)
    ensures NormalizeTaxId(a + [sep] + b) == NormalizeTaxId(a + b)
  {
    StrippedConcat(a + [sep], b);
    StrippedConcat(a, [sep]);
    StrippedConcat(a, b);
    assert Stripped([sep]) == "";
    assert Stripped(a) + "" == Stripped(a);
  }

  // ----- Codice Fiscale -----

  predicate IsUpper(c: char) {
    'A' <= c <= 'Z'
  }

  /** A digit, or the letter that replaces one when two people would share a code. */
  predicate IsNumeral(c: char) {
    IsDigit(c) || 'L' <= c <= 'N' || 'P' <= c <= 'V'
  }

  /** The twelve letters in use. */
  predicate IsMonth(c: char) {
    'A' <= c <= 'E' || c == 'H' || 'L' <= c <= 'M' || c == 'P' || 'R' <= c <= 'T'
  }

  /** The classes of CODICE_FISCALE_PATTERN, position by position. */
  predicate Fits(i: nat, c: char) {
    if i == 6 || i == 7 || i == 9 || i == 10 || 12 <= i <= 14 then IsNumeral(c)
    else if i == 8 then IsMonth(c)
    else IsUpper(c)
  }

  predicate HasShape(cf: string) {
    |cf| == 16 && forall i: nat :: i < 16 ==> Fits(i, cf[i])
  }

  /** A digit, or the digit a letter of the omocodia table stands for. */
  function DigitOf(c: char): nat {
    if IsDigit(c) then DigitValue(c)
    else if 'L' <= c <= 'N' then c as int - 'L' as int
    else if 'P' <= c <= 'V' then c as int - 'P' as int + 3
    else 0
  }

  /** The day of birth, with forty added for women. */
  predicate IsDay(day: int) {
    1 <= day <= 31 || 41 <= day <= 71
  }

  /** ODD_VALUES: what a character contributes from the 1st, 3rd, ... position. */
  function OddValue(c: char): int {
    match c
    case '0' => 1 case '1' => 0 case '2' => 5 case '3' => 7 case '4' => 9 case '5' => 13
    case '6' => 15 case '7' => 17 case '8' => 19 case '9' => 21 case 'A' => 1 case 'B' => 0
    case 'C' => 5 case 'D' => 7 case 'E' => 9 case 'F' => 13 case 'G' => 15 case 'H' => 17
    case 'I' => 19 case 'J' => 21 case 'K' => 2 case 'L' => 4 case 'M' => 18 case 'N' => 20
    case 'O' => 11 case 'P' => 3 case 'Q' => 6 case 'R' => 8 case 'S' => 12 case 'T' => 14
    case 'U' => 16 case 'V' => 10 case 'W' => 22 case 'X' => 25 case 'Y' => 24 case 'Z' => 23
    case _ => 0
  }

  /** EVEN_VALUES: what it contributes from the 2nd, 4th, ... position. */
  function EvenValue(c: char): int {
    match c
    case '0' => 0 case '1' => 1 case '2' => 2 case '3' => 3 case '4' => 4 case '5' => 5
    case '6' => 6 case '7' => 7 case '8' => 8 case '9' => 9 case 'A' => 0 case 'B' => 1
    case 'C' => 2 case 'D' => 3 case 'E' => 4 case 'F' => 5 case 'G' => 6 case 'H' => 7
    case 'I' => 8 case 'J' => 9 case 'K' => 10 case 'L' => 11 case 'M' => 12 case 'N' => 13
    case 'O' => 14 case 'P' => 15 case 'Q' => 16 case 'R' => 17 case 'S' => 18 case 'T' => 19
    case 'U' => 20 case 'V' => 21 case 'W' => 22 case 'X' => 23 case 'Y' => 24 case 'Z' => 25
    case _ => 0
  }

  function Weight(i: nat, c: char): int {
    if i % 2 == 0 then OddValue(c) else EvenValue(c)
  }

  function CheckSum(cf: string, n: nat): int
    requires n <= |cf|
  {
    if n == 0 then 0 else CheckSum(cf, n - 1) + Weight(n - 1, cf[n - 1])
  }

  function CheckLetter(sum: int): char {
    ('A' as int + sum % 26) as char
  }

  predicate HasDay(cf: string)
    requires |cf| == 16
  {
    IsDay(DigitOf(cf[9]) * 10 + DigitOf(cf[10]))
  }

  /** What the validator accepts of a normalised value. */
  predicate CodiceFiscaleOk(cf: string) {
    HasShape(cf) && HasDay(cf) && cf[15] == CheckLetter(CheckSum(cf, 15))
  }

  method IsValidCodiceFiscale(value: string) returns (ok: bool)
    ensures ok == CodiceFiscaleOk(NormalizeTaxId(value))
  {
    hide Weight, DigitOf;
    var cleaned := NormalizeTaxId(value);
    if !HasShape(cleaned) { return false; }
    if !IsDay(DigitOf(cleaned[9]) * 10 + DigitOf(cleaned[10])) { return false; }
    var sum := 0;
    for i := 0 to 15
      invariant sum == CheckSum(cleaned, i)
    {
      sum := sum + Weight(i, cleaned[i]);
    }
    return cleaned[15] == CheckLetter(sum);
  }

  // ----- The tables tell characters of one class apart -----

  function LetterByOdd(v: int): char {
    match v
    case 0 => 'B' case 1 => 'A' case 2 => 'K' case 3 => 'P' case 4 => 'L' case 5 => 'C'
    case 6 => 'Q' case 7 => 'D' case 8 => 'R' case 9 => 'E' case 10 => 'V' case 11 => 'O'
    case 12 => 'S' case 13 => 'F' case 14 => 'T' case 15 => 'G' case 16 => 'U' case 17 => 'H'
    case 18 => 'M' case 19 => 'I' case 20 => 'N' case 21 => 'J' case 22 => 'W' case 23 => 'Z'
    case 24 => 'Y' case 25 => 'X'
    case _ => ' '
  }

  function LetterByEven(v: int): char {
    match v
    case 0 => 'A' case 1 => 'B' case 2 => 'C' case 3 => 'D' case 4 => 'E' case 5 => 'F'
    case 6 => 'G' case 7 => 'H' case 8 => 'I' case 9 => 'J' case 10 => 'K' case 11 => 'L'
    case 12 => 'M' case 13 => 'N' case 14 => 'O' case 15 => 'P' case 16 => 'Q' case 17 => 'R'
    case 18 => 'S' case 19 => 'T' case 20 => 'U' case 21 => 'V' case 22 => 'W' case 23 => 'X'
    case 24 => 'Y' case 25 => 'Z'
    case _ => ' '
  }

  function NumeralByOdd(v: int): char {
    match v
    case 0 => '1' case 1 => '0' case 3 => 'P' case 4 => 'L' case 5 => '2' case 6 => 'Q'
    case 7 => '3' case 8 => 'R' case 9 => '4' case 10 => 'V' case 12 => 'S' case 13 => '5'
    case 14 => 'T' case 15 => '6' case 16 => 'U' case 17 => '7' case 18 => 'M' case 19 => '8'
    case 20 => 'N' case 21 => '9'
    case _ => ' '
  }

  function NumeralByEven(v: int): char {
    match v
    case 0 => '0' case 1 => '1' case 2 => '2' case 3 => '3' case 4 => '4' case 5 => '5'
    case 6 => '6' case 7 => '7' case 8 => '8' case 9 => '9' case 11 => 'L' case 12 => 'M'
    case 13 => 'N' case 15 => 'P' case 16 => 'Q' case 17 => 'R' case 18 => 'S' case 19 => 'T'
    case 20 => 'U' case 21 => 'V'
    case _ => ' '
  }

  /** The letter of each difference between the tables; W and Y have the same one. */
  function LetterByDifference(v: int): char {
    match v
    case 0 => 'W' case 1 => 'A' case 2 => 'X' case 3 => 'C' case 4 => 'D' case 5 => 'E'
    case 6 => 'M' case 7 => 'N' case 8 => 'F' case 9 => 'G' case 10 => 'H' case 11 => 'I'
    case 12 => 'J' case 14 => 'P' case 15 => 'V' case 16 => 'Q' case 17 => 'R' case 18 => 'K'
    case 19 => 'L' case 20 => 'S' case 21 => 'T' case 22 => 'U' case 23 => 'O' case 24 => 'Z'
    case 25 => 'B'
    case _ => ' '
  }

  function NumeralByDifference(v: int): char {
    match v
    case 1 => '0' case 3 => '2' case 4 => '3' case 5 => '4' case 6 => 'M' case 7 => 'N'
    case 8 => '5' case 9 => '6' case 10 => '7' case 11 => '8' case 12 => '9' case 14 => 'P'
    case 15 => 'V' case 16 => 'Q' case 17 => 'R' case 19 => 'L' case 20 => 'S' case 21 => 'T'
    case 22 => 'U' case 25 => '1'
    case _ => ' '
  }

  function Difference(c: char): int {
    (OddValue(c) - EvenValue(c)) % 26
  }

  lemma LettersAreTold(c: char)
    requires IsUpper(c)
    ensures 0 <= OddValue(c) < 26 && LetterByOdd(OddValue(c)) == c
    ensures 0 <= EvenValue(c) < 26 && LetterByEven(EvenValue(c)) == c
  {
  }

  lemma NumeralsAreTold(c: char)
    requires IsNumeral(c)
    ensures 0 <= OddValue(c) < 26 && NumeralByOdd(OddValue(c)) == c
    ensures 0 <= EvenValue(c) < 26 && NumeralByEven(EvenValue(c)) == c
  {
  }

  lemma LowLetterDifferences(c: char)
    requires 'A' <= c <= 'M'
    ensures LetterByDifference(Difference(c)) == c
  {
  }

  lemma HighLetterDifferences(c: char)
    requires 'N' <= c <= 'V'
    ensures LetterByDifference(Difference(c)) == c
  {
  }

  lemma LastLetterDifferences(c: char)
    requires 'W' <= c <= 'Z'
    ensures LetterByDifference(Difference(c)) == if c == 'Y' then 'W' else c
  {
  }

  lemma LetterDifferences(c: char)
    requires IsUpper(c)
    ensures LetterByDifference(Difference(c)) == if c == 'Y' then 'W' else c
  {
    hide LetterByDifference, Difference;
    if c <= 'M' { LowLetterDifferences(c); } else if c <= 'V' { HighLetterDifferences(c); } else { LastLetterDifferences(c); }
  }

  lemma DigitDifferences(c: char)
    requires IsDigit(c)
    ensures NumeralByDifference(Difference(c)) == c
  {
  }

  lemma SubstituteDifferences(c: char)
    requires IsNumeral(c) && !IsDigit(c)
    ensures NumeralByDifference(Difference(c)) == c
  {
  }

  lemma NumeralDifferences(c: char)
    requires IsNumeral(c)
    ensures NumeralByDifference(Difference(c)) == c
  {
    hide NumeralByDifference, Difference;
    if IsDigit(c) { DigitDifferences(c); } else { SubstituteDifferences(c); }
  }

  /** Two characters that fit one position never contribute the same from it. */
  lemma WeightsDiffer(i: nat, c: char, d: char)
    requires Fits(i, c) && Fits(i, d) && c != d
    ensures (Weight(i, c) - Weight(i, d)) % 26 != 0
  {
    hide OddValue, EvenValue, LetterByOdd, LetterByEven, NumeralByOdd, NumeralByEven;
    if IsUpper(c) && IsUpper(d) {
      LettersAreTold(c);
      LettersAreTold(d);
    } else {
      NumeralsAreTold(c);
      NumeralsAreTold(d);
    }
  }

  // ----- Errors the check character catches -----

  /** Two codes that agree before `n` except perhaps at `k`. */
  lemma {:induction false} SumChangesAt(s: string, t: string, k: nat, n: nat)
    requires n <= |s| && |s| == |t| && k < |s|
    requires forall i :: 0 <= i < n && i != k ==> s[i] == t[i]
    ensures CheckSum(s, n) - CheckSum(t, n) == if k < n then Weight(k, s[k]) - Weight(k, t[k]) else 0
  {
    hide Weight;
    if n > 0 { SumChangesAt(s, t, k, n - 1); }
  }

  /** Changing one character of an accepted code, to whatever else, is always noticed. */
  lemma OneWrongCharacterIsNoticed(cf: string, k: nat, c: char)
    requires CodiceFiscaleOk(cf) && k < 16 && c != cf[k]
    ensures !CodiceFiscaleOk(cf[k := c])
  {
    hide Weight, Fits, HasDay;
    var t := cf[k := c];
    if HasShape(t) {
      assert t[15] == if k == 15 then c else cf[15];
      assert Fits(k, cf[k]) && Fits(k, t[k]);
      SumChangesAt(cf, t, k, 15);
      if k < 15 { WeightsDiffer(k, cf[k], c); }
    }
  }

  /** Two accepted codes never differ in exactly one position. */
  lemma AcceptedCodesDifferTwice(s: string, t: string, k: nat)
    requires |s| == |t| == 16 && k < 16 && s[k] != t[k]
    requires forall i :: 0 <= i < 16 && i != k ==> s[i] == t[i]
    ensures !(CodiceFiscaleOk(s) && CodiceFiscaleOk(t))
  {
    assert s[k := t[k]] == t;
    if CodiceFiscaleOk(s) { OneWrongCharacterIsNoticed(s, k, t[k]); }
  }

  /** Fifteen characters of the right shape have exactly one check letter. */
  lemma CheckLetterIsUnique(cf: string, c: char)
    requires CodiceFiscaleOk(cf)
    ensures CodiceFiscaleOk(cf[15 := c]) <==> c == cf[15]
  {
    if c != cf[15] {
      OneWrongCharacterIsNoticed(cf, 15, c);
    } else {
      assert cf[15 := c] == cf;
    }
  }

  function Swapped(s: string, k: nat): (t: string)
    requires k + 1 < |s|
    ensures |t| == |s| && t[k] == s[k + 1] && t[k + 1] == s[k]
    ensures forall i :: 0 <= i < |s| && i != k && i != k + 1 ==> t[i] == s[i]
  {
    s[k := s[k + 1]][k + 1 := s[k]]
  }

  lemma SumAfterSwap(s: string, k: nat, n: nat)
    requires k + 1 < n <= |s|
    ensures CheckSum(s, n) - CheckSum(Swapped(s, k), n)
         == Weight(k, s[k]) + Weight(k + 1, s[k + 1]) - Weight(k, s[k + 1]) - Weight(k + 1, s[k])
  {
    hide Weight, CheckSum;
    var u := s[k := s[k + 1]];
    SumChangesAt(s, u, k, n);
    SumChangesAt(u, Swapped(s, k), k + 1, n);
  }

  predicate IsWithY(c: char, d: char) {
    (c == 'W' && d == 'Y') || (c == 'Y' && d == 'W')
  }

  lemma DifferencesTell(c: char, d: char)
    requires (IsUpper(c) && IsUpper(d)) || (IsNumeral(c) && IsNumeral(d))
    requires c != d
    ensures Difference(c) == Difference(d) <==> IsWithY(c, d)
  {
    if IsWithY(c, d) {
    } else {
      hide Difference, LetterByDifference, NumeralByDifference;
      if IsUpper(c) && IsUpper(d) {
        LetterDifferences(c);
        LetterDifferences(d);
      } else {
        NumeralDifferences(c);
        NumeralDifferences(d);
      }
    }
  }

  lemma SwapShowsInDifferences(k: nat, c: char, d: char)
    ensures (Weight(k, c) + Weight(k + 1, d) - Weight(k, d) - Weight(k + 1, c)) % 26 == 0 <==> Difference(c) == Difference(d)
  {
    hide OddValue, EvenValue;
    var (x, y) := (OddValue(c) - EvenValue(c), OddValue(d) - EvenValue(d));
    SameRemainder(x, y);
    SameRemainder(y, x);
  }

  lemma SameRemainder(x: int, y: int)
    ensures (x - y) % 26 == 0 <==> x % 26 == y % 26
  {
    var (p, q) := (x / 26, y / 26);
    assert x - y == 26 * (p - q) + (x % 26 - y % 26);
  }

  /** Where W and Y stand side by side, every position takes any letter. */
  lemma WithYStandsInTheName(cf: string, k: nat)
    requires HasShape(cf) && k < 14 && IsWithY(cf[k], cf[k + 1])
    ensures k < 5
  {
    assert Fits(k, cf[k]) && Fits(k + 1, cf[k + 1]);
  }

  /** Swapping two neighbours among the first fifteen is noticed, unless they are W and Y. */
  lemma SwappedNeighboursAreNoticed(cf: string, k: nat)
    requires CodiceFiscaleOk(cf) && k < 14 && cf[k] != cf[k + 1]
    ensures CodiceFiscaleOk(Swapped(cf, k)) <==> IsWithY(cf[k], cf[k + 1])
  {
    hide Weight, Difference, OddValue, EvenValue, CheckSum;
    var t := Swapped(cf, k);
    var (c, d) := (cf[k], cf[k + 1]);
    SumAfterSwap(cf, k, 15);
    SwapShowsInDifferences(k, c, d);
    SameRemainder(CheckSum(cf, 15), CheckSum(t, 15));
    if IsWithY(c, d) {
      WithYStandsInTheName(cf, k);
      DifferencesTell(c, d);
      assert forall i: nat :: i < 16 ==> Fits(i, t[i]);
    } else if HasShape(t) {
      assert Fits(k, c) && Fits(k + 1, d) && Fits(k, d) && Fits(k + 1, c);
      DifferencesTell(c, d);
    }
  }

  // ----- Partita IVA: the Luhn formula over eleven digits -----

  function Doubled(digit: nat): int {
    if digit * 2 > 9 then digit * 2 - 9 else digit * 2
  }

  function LuhnWeight(i: nat, digit: nat): int {
    if i % 2 == 0 then digit else Doubled(digit)
  }

  predicate AllDigits(s: string) {
    forall i :: 0 <= i < |s| ==> IsDigit(s[i])
  }

  function LuhnSum(digits: string, n: nat): int
    requires n <= |digits| && AllDigits(digits)
  {
    if n == 0 then 0 else LuhnSum(digits, n - 1) + LuhnWeight(n - 1, DigitValue(digits[n - 1]))
  }

  predicate LuhnOk(digits: string) {
    |digits| == 11 && AllDigits(digits) && LuhnSum(digits, 11) % 10 == 0
  }

  predicate HasPrefix(s: string) {
    |s| >= 2 && s[0] == 'I' && s[1] == 'T'
  }

  /** `cleaned.replace(/^IT/, '')` */
  function WithoutPrefix(s: string): string {
    if HasPrefix(s) then s[2..] else s
  }

  /** What the validator accepts of a normalised value: /^(IT)?\d{11}$/ and the check digit. */
  predicate PartitaIvaOk(cleaned: string) {
    LuhnOk(WithoutPrefix(cleaned))
  }

  method IsValidPartitaIva(value: string) returns (ok: bool)
    ensures ok == PartitaIvaOk(NormalizeTaxId(value))
  {
    hide Doubled, DigitValue;
    var digits := WithoutPrefix(NormalizeTaxId(value));
    if !(|digits| == 11 && AllDigits(digits)) { return false; }
    var sum := 0;
    for i := 0 to 11
      invariant sum == LuhnSum(digits, i)
    {
      var digit := DigitValue(digits[i]);
      if i % 2 == 0 {
        sum := sum + digit;
      } else {
        sum := sum + Doubled(digit);
      }
    }
    return sum % 10 == 0;
  }

  function DigitChar(d: nat): (c: char)
    requires d < 10
    ensures IsDigit(c) && DigitValue(c) == d
  {
    ('0' as int + d) as char
  }

  /** The seeder: ten digits and the one that follows from them. */
  method GeneratePartitaIva(digits: string) returns (number: string)
    requires |digits| == 10 && AllDigits(digits)
    ensures |number| == 11 && number[..10] == digits
    ensures PartitaIvaOk(number)
  {
    hide Doubled, DigitValue;
    var sum := 0;
    for i := 0 to 10
      invariant sum == LuhnSum(digits, i)
    {
      sum := sum + LuhnWeight(i, DigitValue(digits[i]));
    }
    var check := (10 - sum % 10) % 10;
    number := digits + [DigitChar(check)];
    LuhnPrefix(digits, number, 10);
    assert LuhnSum(number, 11) == sum + check;
    NoDigitsStartWithIT(number);
  }

  lemma {:induction false} LuhnPrefix(s: string, t: string, n: nat)
    requires n <= |s| && n <= |t| && AllDigits(s) && AllDigits(t)
    requires forall i :: 0 <= i < n ==> s[i] == t[i]
    ensures LuhnSum(s, n) == LuhnSum(t, n)
  {
    hide LuhnWeight, DigitValue;
    if n > 0 { LuhnPrefix(s, t, n - 1); }
  }

  lemma {:induction false} LuhnChangesAt(s: string, t: string, k: nat, n: nat)
    requires n <= |s| && |s| == |t| && k < |s| && AllDigits(s) && AllDigits(t)
    requires forall i :: 0 <= i < n && i != k ==> s[i] == t[i]
    ensures LuhnSum(s, n) - LuhnSum(t, n)
         == if k < n then LuhnWeight(k, DigitValue(s[k])) - LuhnWeight(k, DigitValue(t[k])) else 0
  {
    hide LuhnWeight, DigitValue;
    if n > 0 { LuhnChangesAt(s, t, k, n - 1); }
  }

  lemma DigitsWeighDifferently(i: nat, d: nat, e: nat)
    requires d < 10 && e < 10 && d != e
    ensures (LuhnWeight(i, d) - LuhnWeight(i, e)) % 10 != 0
  {
    assert 0 <= Doubled(d) < 10 && 0 <= Doubled(e) < 10;
    assert Doubled(d) != Doubled(e);
  }

  lemma SameTens(x: int, y: int)
    ensures (x - y) % 10 == 0 <==> x % 10 == y % 10
  {
    var (p, q) := (x / 10, y / 10);
    assert x - y == 10 * (p - q) + (x % 10 - y % 10);
  }

  /** Two accepted numbers never differ in exactly one digit. */
  lemma AcceptedNumbersDifferTwice(s: string, t: string, k: nat)
    requires |s| == |t| == 11 && AllDigits(s) && AllDigits(t) && k < 11 && s[k] != t[k]
    requires forall i :: 0 <= i < 11 && i != k ==> s[i] == t[i]
    ensures !(PartitaIvaOk(s) && PartitaIvaOk(t))
  {
    NoDigitsStartWithIT(s);
    NoDigitsStartWithIT(t);
    LuhnChangesAt(s, t, k, 11);
    DigitsWeighDifferently(k, DigitValue(s[k]), DigitValue(t[k]));
    SameTens(LuhnSum(s, 11), LuhnSum(t, 11));
    hide LuhnSum, LuhnWeight;
  }

  lemma NoDigitsStartWithIT(s: string)
    requires AllDigits(s)
    ensures WithoutPrefix(s) == s
  {
    assert s != "" ==> IsDigit(s[0]);
  }

  lemma SwappedDigitsWeigh(k: nat, d: nat, e: nat)
    requires d < 10 && e < 10 && d != e
    ensures (LuhnWeight(k, d) + LuhnWeight(k + 1, e) - LuhnWeight(k, e) - LuhnWeight(k + 1, d)) % 10 == 0
            <==> (d == 0 && e == 9) || (d == 9 && e == 0)
  {
    var (x, y) := (d - Doubled(d), e - Doubled(e));
    SameTens(x, y);
    SameTens(y, x);
  }

  predicate IsZeroWithNine(c: char, d: char) {
    (c == '0' && d == '9') || (c == '9' && d == '0')
  }

  /** Swapping two different neighbouring digits is noticed, unless they are 0 and 9. */
  lemma SwappedDigitsAreNoticed(s: string, k: nat)
    requires |s| == 11 && PartitaIvaOk(s) && k < 10 && s[k] != s[k + 1]
    ensures PartitaIvaOk(Swapped(s, k)) <==> IsZeroWithNine(s[k], s[k + 1])
  {
    AcceptedElevenAreDigits(s);
    NoDigitsStartWithIT(s);
    var t := Swapped(s, k);
    var u := s[k := s[k + 1]];
    NoDigitsStartWithIT(t);
    LuhnChangesAt(s, u, k, 11);
    LuhnChangesAt(u, t, k + 1, 11);
    SwappedDigitsWeigh(k, DigitValue(s[k]), DigitValue(s[k + 1]));
    SameTens(LuhnSum(s, 11), LuhnSum(t, 11));
    hide LuhnSum, LuhnWeight;
  }

  /** An accepted value of eleven characters is the digits themselves. */
  lemma AcceptedElevenAreDigits(s: string)
    requires |s| == 11 && PartitaIvaOk(s)
    ensures AllDigits(s)
  {
    assert |WithoutPrefix(s)| == 11;
  }
}
