/**
 * Bills are mostly printed in capitals. What src/common/utils/address.utils.ts
 * makes of the case of a line: normalizeCase, and the scanners, which read a
 * line alike in whatever case it is printed.
 */
module LetterCase {
  import opened Wrappers
  import opened Text
  import opened Address

  predicate IsSmall(c: char) {
    'a' <= c <= 'z'
  }

  predicate IsCapital(c: char) {
    'A' <= c <= 'Z'
  }

  predicate HasSmall(s: string) {
    exists i :: 0 <= i < |s| && IsSmall(s[i])
  }

  predicate StartsWord(s: string, i: nat)
    requires i < |s|
  {
    i == 0 || s[i - 1] == ' '
  }

  /** A letter is a capital exactly at the start of a word. */
  predicate CapitalisedAt(s: string, i: nat)
    requires i < |s|
  {
    IsSmall(s[i]) || IsCapital(s[i]) ==> (IsCapital(s[i]) <==> StartsWord(s, i))
  }

  predicate CapitalisedWords(s: string) {
    forall i: nat :: i < |s| ==> CapitalisedAt(s, i)
  }

  predicate SameLetter(c: char, d: char) {
    c == d || (IsSmall(c) && d as int == c as int - 32) || (IsSmall(d) && c as int == d as int - 32)
  }

  /** Equal but for the case of their letters. */
  predicate SameLetters(a: string, b: string) {
    |a| == |b| && forall i :: 0 <= i < |a| ==> SameLetter(a[i], b[i])
  }

  predicate SameField(a: Option<string>, b: Option<string>) {
    match (a, b)
    case (Some(x), Some(y)) => SameLetters(x, y)
    case (None, None) => true
    case _ => false
  }

  lemma UpperCases(c: char)
    ensures SameLetter(c, Upper(c)) && !IsSmall(Upper(c))
    ensures SameLetter(c, Lower(c)) && !IsCapital(Lower(c))
    ensures !IsSmall(c) ==> Upper(c) == c
  {
  }

  lemma CapitalsOnly(s: string)
    ensures s == UpperAll(s) <==> !HasSmall(s)
    ensures SameLetters(s, UpperAll(s)) && !HasSmall(UpperAll(s))
  {
    var u := UpperAll(s);
    forall i | 0 <= i < |s|
      ensures SameLetter(s[i], u[i]) && !IsSmall(u[i]) && (s[i] == u[i] <==> !IsSmall(s[i]))
    {
      UpperCases(s[i]);
      assert u[i] == Upper(s[i]);
    }
    if !HasSmall(s) { assert s == u; }
    hide Upper, IsSmall, SameLetter;
    if i :| 0 <= i < |s| && IsSmall(s[i]) { assert s[i] != u[i]; }
  }

  lemma UpperOrLower(c: char, first: bool)
    ensures var d := if first then Upper(c) else Lower(c);
      && SameLetter(c, d) && (d == ' ' <==> c == ' ')
      && (IsSmall(d) || IsCapital(d) ==> (IsCapital(d) <==> first))
  {
  }

  lemma TitleCaseCapitalises(s: string)
    ensures SameLetters(s, TitleCase(s)) && CapitalisedWords(TitleCase(s))
  {
    var t := TitleCase(s);
    forall i: nat | i < |s| ensures SameLetter(s[i], t[i]) && CapitalisedAt(t, i) {
      UpperOrLower(s[i], i == 0 || s[i - 1] == ' ');
      if i > 0 { UpperOrLower(s[i - 1], i == 1 || s[i - 2] == ' '); }
    }
  }

  /** Text with a small letter in it is left as it is; capitals become capitalised words. */
  lemma NormalizeCaseIs(s: string)
    ensures SameLetters(s, NormalizeCase(s))
    ensures HasSmall(s) ==> NormalizeCase(s) == s
    ensures !HasSmall(s) ==> CapitalisedWords(NormalizeCase(s))
  {
    CapitalsOnly(s);
    TitleCaseCapitalises(s);
    hide HasSmall, CapitalisedWords;
  }

  /** Two spellings in capitalised words differ in nothing. */
  lemma CapitalisedOnce(a: string, b: string)
    requires SameLetters(a, b) && CapitalisedWords(a) && CapitalisedWords(b)
    ensures a == b
  {
    forall i | 0 <= i < |a| ensures a[i] == b[i] {
      OneLetter(a[i], b[i]);
      if i > 0 { OneLetter(a[i - 1], b[i - 1]); }
      hide SameLetter;
      assert CapitalisedAt(a, i) && CapitalisedAt(b, i);
    }
  }

  lemma OneLetter(c: char, d: char)
    requires SameLetter(c, d)
    ensures c == ' ' <==> d == ' '
    ensures IsSmall(c) || IsCapital(c) <==> IsSmall(d) || IsCapital(d)
    ensures c == d <==> IsCapital(c) == IsCapital(d)
  {
  }

  /** Mixed case, or already in capitalised words. */
  predicate KeepsCase(s: string) {
    HasSmall(s) || CapitalisedWords(s)
  }

  lemma KeepsCaseIff(s: string)
    ensures NormalizeCase(s) == s <==> KeepsCase(s)
  {
    NormalizeCaseIs(s);
    hide HasSmall, CapitalisedWords, NormalizeCase;
    if CapitalisedWords(s) && !HasSmall(s) { CapitalisedOnce(s, NormalizeCase(s)); }
  }

  lemma SameLettersFlips(a: string, b: string)
    requires SameLetters(a, b)
    ensures SameLetters(b, a)
  {
  }

  lemma SameLettersChains(a: string, b: string, c: string)
    requires SameLetters(a, b) && SameLetters(b, c)
    ensures SameLetters(a, c)
  {
    forall i | 0 <= i < |a| ensures SameLetter(a[i], c[i]) {
      assert SameLetter(a[i], b[i]) && SameLetter(b[i], c[i]);
    }
  }

  // ----- Every scanner commutes with capitals -----

  lemma UpperKeepsClass(c: char, k: Class)
    requires !k.Only?
    ensures k.Has(Upper(c)) == k.Has(c)
  {
    assert IsSpace(Upper(c)) == IsSpace(c);
  }

  lemma UpperOfPart(s: string, i: nat, j: nat)
    requires i <= j <= |s|
    ensures UpperAll(s[i..j]) == UpperAll(s)[i..j]
  {
  }

  lemma UpperOfTail(s: string, i: nat)
    requires i <= |s|
    ensures UpperAll(s[i..]) == UpperAll(s)[i..]
  {
  }

  lemma UpperOfHead(s: string, i: nat)
    requires i <= |s|
    ensures UpperAll(s[..i]) == UpperAll(s)[..i]
  {
  }

  lemma UpperOfSum(a: string, b: string)
    ensures UpperAll(a + b) == UpperAll(a) + UpperAll(b)
  {
  }

  lemma UpperTwice(s: string)
    ensures UpperAll(UpperAll(s)) == UpperAll(s)
  {
    forall i | 0 <= i < |s| ensures Upper(Upper(s[i])) == Upper(s[i]) {
      UpperCases(s[i]);
    }
  }

  lemma {:induction false} UpperSpan(s: string, i: nat, k: Class)
    requires i <= |s| && !k.Only?
    ensures Span(UpperAll(s), i, k) == Span(s, i, k)
    decreases |s| - i
  {
    if i < |s| {
      UpperKeepsClass(s[i], k);
      UpperSpan(s, i + 1, k);
    }
  }

  lemma TrimLeftStep(s: string, k: Class)
    requires s != ""
    ensures TrimLeft(s, k) == if k.Has(s[0]) then TrimLeft(s[1..], k) else s
  {
  }

  lemma {:induction false} UpperTrimLeft(s: string, k: Class)
    requires !k.Only?
    ensures TrimLeft(UpperAll(s), k) == UpperAll(TrimLeft(s, k))
  {
    if s != "" {
      UpperKeepsClass(s[0], k);
      UpperOfTail(s, 1);
      UpperTrimLeft(s[1..], k);
      hide *;
      TrimLeftStep(s, k);
      TrimLeftStep(UpperAll(s), k);
    }
  }

  lemma {:induction false} UpperTrimRight(s: string, k: Class)
    requires !k.Only?
    ensures TrimRight(UpperAll(s), k) == UpperAll(TrimRight(s, k))
  {
    if s != "" {
      UpperKeepsClass(s[|s| - 1], k);
      UpperOfHead(s, |s| - 1);
      UpperTrimRight(s[..|s| - 1], k);
      hide Class.Has;
    }
  }

  lemma UpperTrim(s: string)
    ensures Trim(UpperAll(s)) == UpperAll(Trim(s))
  {
    UpperTrimLeft(s, Space);
    UpperTrimRight(TrimLeft(s, Space), Space);
  }

  lemma {:induction false} UpperCollapse(s: string)
    ensures Collapse(UpperAll(s)) == UpperAll(Collapse(s))
  {
    if s != "" {
      UpperKeepsClass(s[0], Space);
      if |s| > 1 { UpperKeepsClass(s[1], Space); }
      UpperOfTail(s, 1);
      UpperCollapse(s[1..]);
      UpperOfSum(CollapsedHead(s), Collapse(s[1..]));
      hide IsSpace;
      assert CollapsedHead(UpperAll(s)) == UpperAll(CollapsedHead(s));
      assert UpperAll(s)[1..] == UpperAll(s[1..]);
    }
  }

  lemma {:induction false} UpperRemoveSpaces(s: string)
    ensures RemoveSpaces(UpperAll(s)) == UpperAll(RemoveSpaces(s))
  {
    if s != "" {
      UpperKeepsClass(s[0], Space);
      UpperOfTail(s, 1);
      UpperRemoveSpaces(s[1..]);
      hide IsSpace;
      assert UpperAll(s)[1..] == UpperAll(s[1..]);
      UpperOfSum([s[0]], RemoveSpaces(s[1..]));
      assert UpperAll([s[0]]) == [Upper(s[0])];
    }
  }

  lemma UpperTrimSeparators(s: string)
    ensures TrimSeparators(UpperAll(s)) == UpperAll(TrimSeparators(s))
  {
    UpperCollapse(s);
    UpperTrimLeft(Collapse(s), Separator);
    UpperTrimRight(TrimLeft(Collapse(s), Separator), Separator);
    UpperTrim(TrimRight(TrimLeft(Collapse(s), Separator), Separator));
    hide Trim, Collapse, TrimLeft, TrimRight;
  }

  lemma UpperBlankParens(s: string)
    ensures BlankParens(UpperAll(s)) == UpperAll(BlankParens(s))
  {
    forall i | 0 <= i < |s| ensures BlankParens(UpperAll(s))[i] == UpperAll(BlankParens(s))[i] {
    }
  }

  /** Matching at the same positions, two searches find the same one. */
  lemma SameFirst(p: (string, nat) -> bool, s: string, t: string)
    requires |s| == |t| && forall i: nat :: i <= |s| ==> p(s, i) == p(t, i)
    ensures First(p, s, 0) == First(p, t, 0)
  {
    var r := First(p, s, 0);
    if r.Some? { FirstIs(p, t, r.value); }
  }

  lemma UpperMarks(c: char)
    ensures IsLetter(Upper(c)) == IsLetter(c)
    ensures (Upper(c) == '(') == (c == '(') && (Upper(c) == ')') == (c == ')') && (Upper(c) == ',') == (c == ',')
  {
  }

  /** ParenAt read off the characters it looks at. */
  lemma SameParen(s: string, u: string, i: nat)
    requires |u| == |s| && i < |s| && (u[i] == '(') == (s[i] == '(')
    requires Span(u, i + 1, Space) == Span(s, i + 1, Space)
    requires var k := Span(s, i + 1, Space); k + 2 <= |s| ==>
      && IsLetter(u[k]) == IsLetter(s[k]) && IsLetter(u[k + 1]) == IsLetter(s[k + 1])
      && Span(u, k + 2, Space) == Span(s, k + 2, Space)
      && (Span(s, k + 2, Space) < |s| ==> (u[Span(s, k + 2, Space)] == ')') == (s[Span(s, k + 2, Space)] == ')'))
    ensures ParenAt(u, i) == ParenAt(s, i)
  {
    hide Span, IsLetter, IsSpace;
  }

  lemma UpperParenAt(s: string, i: nat)
    ensures ParenAt(UpperAll(s), i) == ParenAt(s, i)
  {
    if i < |s| {
      var u := UpperAll(s);
      UpperMarks(s[i]);
      UpperSpan(s, i + 1, Space);
      var k := Span(s, i + 1, Space);
      if k + 2 <= |s| {
        UpperMarks(s[k]);
        UpperMarks(s[k + 1]);
        UpperSpan(s, k + 2, Space);
        var m := Span(s, k + 2, Space);
        if m < |s| { UpperMarks(s[m]); }
      }
      hide *;
      SameParen(s, u, i);
    }
  }

  lemma UpperFindParen(s: string)
    ensures FindParen(UpperAll(s)) == FindParen(s)
  {
    forall i: nat | i <= |s| ensures IsParenAt(UpperAll(s), i) == IsParenAt(s, i) {
      UpperParenAt(s, i);
    }
    SameFirst(IsParenAt, UpperAll(s), s);
    var r := First(IsParenAt, s, 0);
    if r.Some? { UpperParenAt(s, r.value); }
    hide ParenAt;
  }

  lemma UpperFindTrailing(s: string)
    ensures FindTrailing(UpperAll(s)) == FindTrailing(s)
  {
    UpperTrimRight(s, Space);
    var e := |TrimRight(s, Space)|;
    if 3 <= e { UpperKeepsClass(s[e - 3], TokenLead); }
    hide TrimRight, Class.Has;
  }

  lemma UpperOfPair(s: string, i: nat)
    requires i + 2 <= |s|
    ensures UpperAll(UpperAll(s)[i..i + 2]) == UpperAll(s[i..i + 2])
  {
    UpperOfPart(s, i, i + 2);
    UpperTwice(s[i..i + 2]);
  }

  lemma UpperWithout(s: string, i: nat, j: nat)
    requires i <= j <= |s|
    ensures UpperAll(s)[..i] + " " + UpperAll(s)[j..] == UpperAll(s[..i] + " " + s[j..])
  {
    UpperOfHead(s, i);
    UpperOfTail(s, j);
    UpperOfSum(s[..i], " ");
    UpperOfSum(s[..i] + " ", s[j..]);
    assert UpperAll(" ") == " ";
  }

  lemma TakeProvinceStep(s: string)
    ensures var paren, trailing := FindParen(s), FindTrailing(s);
      && (paren.Some? ==> paren.value.start <= paren.value.letters <= paren.value.letters + 2 <= paren.value.end <= |s|)
      && TakeProvince(s) ==
           if paren.Some? && IsSigla(UpperAll(s[paren.value.letters..paren.value.letters + 2])) then
             (UpperAll(s[paren.value.letters..paren.value.letters + 2]),
              s[..paren.value.start] + " " + s[paren.value.end..])
           else if trailing.Some? && IsSigla(UpperAll(s[trailing.value + 1..trailing.value + 3])) then
             (UpperAll(s[trailing.value + 1..trailing.value + 3]), s[..trailing.value])
           else ("", s)
  {
    hide FindTrailing, IsSigla, UpperAll, ParenAt;
  }

  lemma UpperTakeProvince(s: string)
    ensures TakeProvince(UpperAll(s)) == (TakeProvince(s).0, UpperAll(TakeProvince(s).1))
  {
    hide *;
    UpperFindParen(s);
    UpperFindTrailing(s);
    TakeProvinceStep(s);
    TakeProvinceStep(UpperAll(s));
    var paren, trailing := FindParen(s), FindTrailing(s);
    if paren.Some? {
      UpperOfPair(s, paren.value.letters);
      UpperWithout(s, paren.value.start, paren.value.end);
    }
    if trailing.Some? {
      UpperOfPair(s, trailing.value + 1);
      UpperOfHead(s, trailing.value);
    }
  }

  lemma UpperFindCap(s: string)
    ensures FindCap(UpperAll(s)) == FindCap(s)
  {
    forall i: nat | i <= |s| ensures CapAt(UpperAll(s), i) == CapAt(s, i) {
      assert forall j :: 0 <= j < |s| ==> IsDigit(UpperAll(s)[j]) == IsDigit(s[j]);
    }
    SameFirst(CapAt, UpperAll(s), s);
  }

  lemma {:induction false} UpperLastComma(s: string, n: nat)
    requires n <= |s|
    ensures LastComma(UpperAll(s), n) == LastComma(s, n)
  {
    if n > 0 {
      assert (Upper(s[n - 1]) == ',') == (s[n - 1] == ',');
      UpperLastComma(s, n - 1);
    }
  }

  lemma UpperHasDigit(s: string)
    ensures HasDigit(UpperAll(s)) == HasDigit(s)
  {
    forall i | 0 <= i < |s| ensures IsDigit(UpperAll(s)[i]) == IsDigit(s[i]) {
    }
    if HasDigit(s) {
      var c :| c in s && IsDigit(c);
      var i :| 0 <= i < |s| && s[i] == c;
      assert UpperAll(s)[i] in UpperAll(s);
    }
    if HasDigit(UpperAll(s)) {
      var c :| c in UpperAll(s) && IsDigit(c);
      var i :| 0 <= i < |s| && UpperAll(s)[i] == c;
      assert s[i] in s;
    }
  }

  lemma UpperCityComma(s: string)
    ensures CityComma(UpperAll(s)) == CityComma(s)
  {
    hide LastComma, Trim, HasDigit, IsSpace, IsDigit;
    UpperLastComma(s, |s|);
    var comma := LastComma(s, |s|);
    if comma.Some? {
      UpperOfTail(s, comma.value + 1);
      UpperTrim(s[comma.value + 1..]);
      UpperHasDigit(s[comma.value + 1..]);
    }
  }

  lemma UpperOfCap(s: string, i: nat)
    requires CapAt(s, i)
    ensures UpperAll(s)[i..i + 5] == s[i..i + 5]
  {
    var u := UpperAll(s);
    forall j | i <= j < i + 5 ensures u[j] == s[j] {
      assert IsDigit(s[j]);
    }
  }

  lemma SplitStep(s: string)
    ensures var cap, comma := FindCap(s), CityComma(s);
      && (cap.Some? ==> CapAt(s, cap.value))
      && SplitStreetFromCity(s) ==
           if cap.Some? then Split(s[cap.value..cap.value + 5], s[..cap.value], s[cap.value + 5..])
           else if comma.Some? then Split("", s[..comma.value], s[comma.value + 1..])
           else Split("", s, "")
  {
    hide CityComma;
  }

  lemma UpperSplit(s: string)
    ensures
      var split, upper := SplitStreetFromCity(s), SplitStreetFromCity(UpperAll(s));
      && upper.postalCode == split.postalCode
      && upper.streetPart == UpperAll(split.streetPart) && upper.cityPart == UpperAll(split.cityPart)
  {
    assert UpperAll("") == "";
    assert FindCap(s).Some? ==> FindCap(s).value + 5 <= |s|;
    hide *;
    UpperFindCap(s);
    UpperCityComma(s);
    SplitStep(s);
    SplitStep(UpperAll(s));
    var cap, comma := FindCap(s), CityComma(s);
    if cap.Some? {
      UpperOfCap(s, cap.value);
      UpperOfHead(s, cap.value);
      UpperOfTail(s, cap.value + 5);
    } else if comma.Some? {
      UpperOfHead(s, comma.value);
      UpperOfTail(s, comma.value + 1);
    }
  }

  lemma UpperIsBisOrTer(s: string)
    ensures IsBisOrTer(UpperAll(s)) == IsBisOrTer(s)
  {
    if |s| == 3 {
      UpperCases(s[0]);
      UpperCases(s[1]);
      UpperCases(s[2]);
      assert Upper(Upper(s[0])) == Upper(s[0]) && Upper(Upper(s[1])) == Upper(s[1]) && Upper(Upper(s[2])) == Upper(s[2]);
    }
  }

  lemma UpperCivicSuffix(s: string)
    ensures CivicSuffix(UpperAll(s)) == CivicSuffix(s)
  {
    UpperIsBisOrTer(s);
    if |s| > 1 {
      UpperKeepsClass(s[1], Space);
      UpperOfTail(s, 1);
      UpperOfTail(s, 2);
      UpperIsBisOrTer(s[1..]);
      UpperIsBisOrTer(s[2..]);
    }
    hide IsBisOrTer, IsSpace;
  }

  lemma UpperSuffixStart(s: string)
    ensures SuffixStart(UpperAll(s)) == SuffixStart(s)
  {
    UpperSpan(s, 0, Digit);
    UpperSpan(s, Span(s, 0, Digit), Space);
    var a := Span(s, Span(s, 0, Digit), Space);
    if a < |s| {
      UpperKeepsClass(s[a], SlashDash);
      UpperSpan(s, a + 1, Space);
    }
    hide Span, Class.Has;
  }

  lemma UpperCivicToken(s: string)
    ensures CivicToken(UpperAll(s)) == CivicToken(s)
  {
    UpperSpan(s, 0, Digit);
    UpperSuffixStart(s);
    var b := SuffixStart(s);
    UpperOfTail(s, b);
    UpperTrimRight(s[b..], Space);
    UpperCivicSuffix(TrimRight(s[b..], Space));
    hide Span, SuffixStart, CivicSuffix, TrimRight;
  }

  lemma UpperFindNumber(s: string)
    ensures FindNumber(UpperAll(s)) == FindNumber(s)
  {
    forall i: nat | i <= |s| ensures NumberAt(UpperAll(s), i) == NumberAt(s, i) {
      if i < |s| {
        UpperKeepsClass(s[i], CommaSpace);
        UpperSpan(s, i, CommaSpace);
        UpperOfTail(s, Span(s, i, CommaSpace));
        UpperCivicToken(s[Span(s, i, CommaSpace)..]);
        hide CivicToken, Class.Has, Span;
      }
    }
    SameFirst(NumberAt, UpperAll(s), s);
  }

  lemma UpperTakeNumber(s: string)
    ensures TakeNumber(UpperAll(s)) == (UpperAll(TakeNumber(s).0), UpperAll(TakeNumber(s).1))
  {
    UpperFindNumber(s);
    var hit := FindNumber(s);
    if hit.Some? {
      UpperOfHead(s, hit.value);
      UpperTrimSeparators(s[..hit.value]);
      UpperSpan(s, hit.value, CommaSpace);
      UpperOfTail(s, Span(s, hit.value, CommaSpace));
      UpperRemoveSpaces(s[Span(s, hit.value, CommaSpace)..]);
    }
    assert UpperAll("") == "";
    hide FindNumber, TrimSeparators, RemoveSpaces, Span;
  }

  // ----- A whole line -----

  /** The same cut; names spelled with the same letters, everything else equal. */
  predicate SameCut(a: Parts, b: Parts) {
    && SameField(a.street, b.street) && SameField(a.city, b.city)
    && a.streetNumber == b.streetNumber && a.postalCode == b.postalCode && a.province == b.province
  }

  predicate InCapitalisedWords(p: Parts) {
    && (p.street.Some? ==> CapitalisedWords(p.street.value))
    && (p.city.Some? ==> CapitalisedWords(p.city.value))
  }

  lemma NameInCapitals(s: string)
    ensures SameField(OrNull(NormalizeCase(s)), OrNull(NormalizeCase(UpperAll(s))))
    ensures CapitalisedWords(NormalizeCase(UpperAll(s)))
  {
    var u := UpperAll(s);
    CapitalsOnly(s);
    NormalizeCaseIs(s);
    NormalizeCaseIs(u);
    SameLettersChains(s, u, NormalizeCase(u));
    SameLettersFlips(s, NormalizeCase(s));
    SameLettersChains(NormalizeCase(s), s, NormalizeCase(u));
    hide NormalizeCase, CapitalisedWords, HasSmall, SameLetters;
  }

  lemma UpperParseRest(text: string, pr: string)
    ensures SameCut(ParseRest(text, pr), ParseRest(UpperAll(text), pr))
    ensures InCapitalisedWords(ParseRest(UpperAll(text), pr))
  {
    UpperSplit(text);
    var split := SplitStreetFromCity(text);
    UpperTrimSeparators(split.streetPart);
    var part := TrimSeparators(split.streetPart);
    UpperTakeNumber(part);
    var (street, number) := TakeNumber(part);
    UpperTwice(number);
    UpperBlankParens(split.cityPart);
    UpperTrimSeparators(BlankParens(split.cityPart));
    NameInCapitals(street);
    NameInCapitals(TrimSeparators(BlankParens(split.cityPart)));
    hide SplitStreetFromCity, TakeNumber, TrimSeparators, BlankParens, NormalizeCase, CapitalisedWords, SameField;
  }

  lemma ParseStep(raw: string)
    ensures var text := Clean(Some(raw));
      ParseAddressLine(Some(raw)) ==
        if text == "" then EMPTY_PARTS else ParseRest(TakeProvince(text).1, TakeProvince(text).0)
  {
    hide Clean, TakeProvince, ParseRest;
  }

  lemma UpperClean(raw: string)
    ensures Clean(Some(UpperAll(raw))) == UpperAll(Clean(Some(raw)))
  {
    UpperCollapse(raw);
    UpperTrim(Collapse(raw));
    hide Collapse, Trim;
  }

  lemma NothingIsCut()
    ensures SameCut(EMPTY_PARTS, EMPTY_PARTS) && InCapitalisedWords(EMPTY_PARTS)
  {
  }

  /**
   * A line is cut in the same places in whatever case it is printed. In capitals it
   * gives the same number, CAP and sigla, and the same names in capitalised words.
   */
  lemma ParserIgnoresCase(raw: string)
    ensures SameCut(ParseAddressLine(Some(raw)), ParseAddressLine(Some(UpperAll(raw))))
    ensures InCapitalisedWords(ParseAddressLine(Some(UpperAll(raw))))
  {
    var text := Clean(Some(raw));
    UpperClean(raw);
    ParseStep(raw);
    ParseStep(UpperAll(raw));
    UpperTakeProvince(text);
    UpperParseRest(TakeProvince(text).1, TakeProvince(text).0);
    hide *;
    NothingIsCut();
  }
}
