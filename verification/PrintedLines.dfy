/**
 * What each scanner of src/common/utils/address.utils.ts finds in a line the
 * printer wrote: the steps of the round-trip theorem in AddressRoundTrip.
 */
module PrintedLines {
  import opened Wrappers
  import opened Text
  import opened Address

  // ----- The shape of each field on its own -----

  predicate NameShape(s: string) {
    && s != "" && Tidy(s) && Bare(s, Separator)
    && '(' !in s && ')' !in s
  }

  /** A street may hold digits and commas, but no standalone five-digit group. */
  predicate StreetShape(s: string) {
    NameShape(s) && FindCap(s).None?
  }

  /** Digits, an optional slash or dash, an optional letter, an optional BIS or TER. */
  predicate NumberShape(n: string) {
    && CivicToken(n) && (forall c :: c in n ==> !IsSpace(c))
    && UpperAll(n) == n
    && n != "" && n[|n| - 1] != '-'
    && FindCap(n).None?
  }

  predicate FieldsOk(p: Parts) {
    && (p.street.Some? ==> StreetShape(p.street.value))
    && (p.streetNumber.Some? ==> NumberShape(p.streetNumber.value))
    && (p.city.Some? ==> NameShape(p.city.value))
    && (p.postalCode.Some? ==> IsPostalCode(p.postalCode.value))
    && (p.province.Some? ==> IsSigla(p.province.value))
  }

  // ----- Which combinations of fields keep their places -----

  predicate EndsInSigla(line: string) {
    var t := FindTrailing(line);
    t.Some? && IsSigla(UpperAll(line[t.value + 1..t.value + 3]))
  }

  /** The line can be cut into street line, CAP and city where the fields meet. */
  predicate CutWhereFieldsMeet(p: Parts) {
    && (p.streetNumber.Some? ==> p.street.Some?)
    && (p.city.Some? && p.postalCode.None? ==>
          p.street.Some? && !HasDigit(p.city.value) && ',' !in p.city.value)
    && (p.street.Some? && p.streetNumber.None? && p.city.None? && p.postalCode.None? && p.province.None? ==>
          CityComma(p.street.value).None?)
  }

  predicate Placed(p: Parts) {
    && CutWhereFieldsMeet(p)
    && (p.province.None? ==> !EndsInSigla(Line(p)))
    && (p.street.Some? && p.streetNumber.None? ==> FindNumber(p.street.value).None?)
  }

  // ----- Trimming away what surrounds a field -----

  lemma TrimSeparatorsPad(l: string, x: string, r: string)
    requires Separator.Covers(l) && Separator.Covers(r)
    requires Tidy(x) && Bare(x, Separator)
    ensures TrimSeparators(l + x + r) == x
  {
    hide Collapse, TrimLeft, TrimRight;
    CollapseCovered(l, Separator);
    CollapseCovered(r, Separator);
    CollapseTidy(x);
    var cl, cr := Collapse(l), Collapse(r);
    if x == "" {
      assert l + x + r == l + r;
      assert Separator.Covers(l + r);
      CollapseCovered(l + r, Separator);
      var m := Collapse(l + r);
      assert m + "" == m;
      TrimLeftPad(m, "", Separator);
    } else {
      CollapseConcat(l, x + r);
      CollapseConcat(x, r);
      assert l + x + r == l + (x + r);
      TrimLeftPad(cl, x + cr, Separator);
      TrimLeftBare(x, cr, Separator);
      TrimRightPad(x, cr, Separator);
      TrimBare(x);
    }
  }

  lemma CleanIs(s: string)
    requires Tidy(s) && Bare(s, Space)
    ensures Clean(Some(s)) == s
  {
    CollapseTidy(s);
    TrimBare(s);
  }

  // ----- The shapes imply what the scanners look for -----

  /** Behind its leading digits a civic token holds letters, blanks, slashes and dashes. */
  lemma CivicCharAt(s: string, i: nat)
    requires Span(s, 0, Digit) <= i < |s|
    ensures CivicToken(s) ==> IsLetter(s[i]) || IsSpace(s[i]) || SlashDash.Has(s[i])
  {
    var b := SuffixStart(s);
    if b <= i {
      var tail := s[b..];
      var u := TrimRight(tail, Space);
      assert tail[i - b] == s[i];
      if i - b < |u| {
        assert u[i - b] == tail[i - b];
        SuffixChars(u, i - b);
      }
    }
  }

  lemma SuffixChars(u: string, i: nat)
    requires i < |u|
    ensures CivicSuffix(u) ==> IsLetter(u[i]) || IsSpace(u[i])
  {
  }

  lemma NumberCharAt(n: string, i: nat)
    requires NumberShape(n) && i < |n|
    ensures !IsSpace(n[i]) && (IsDigit(n[i]) || IsLetter(n[i]) || SlashDash.Has(n[i]))
  {
    assert n[i] in n;
    if Span(n, 0, Digit) <= i { CivicCharAt(n, i); }
  }

  lemma NumberStartsWithDigit(n: string)
    requires NumberShape(n)
    ensures IsDigit(n[0])
  {
    hide CivicSuffix, TrimRight, SuffixStart, FindCap, UpperAll;
  }

  lemma NumberFacts(n: string)
    requires NumberShape(n)
    ensures n != "" && IsDigit(n[0]) && Tidy(n) && Bare(n, Separator)
    ensures '(' !in n && ')' !in n && ',' !in n
    ensures RemoveSpaces(n) == n
  {
    hide CivicToken, FindCap, UpperAll;
    NumberStartsWithDigit(n);
    NumberCharAt(n, |n| - 1);
    forall i | 0 <= i < |n| ensures !IsSpace(n[i]) && n[i] != '(' && n[i] != ')' && n[i] != ',' {
      NumberCharAt(n, i);
    }
    RemoveNoSpaces(n);
  }

  lemma {:induction false} RemoveNoSpaces(s: string)
    requires forall c :: c in s ==> !IsSpace(c)
    ensures RemoveSpaces(s) == s
  {
    if s != "" {
      assert s[0] in s;
      RemoveNoSpaces(s[1..]);
      assert s == [s[0]] + s[1..];
    }
  }

  /** The separators between two fields never join two runs of digits. */
  predicate DigitsEnd(a: string, b: string) {
    a == "" || b == "" || !IsDigit(a[|a| - 1]) || !IsDigit(b[0])
  }

  lemma CapNotBefore(a: string, b: string, j: nat)
    requires FindCap(a).None? && DigitsEnd(a, b) && j < |a|
    ensures !CapAt(a + b, j)
  {
    var s := a + b;
    assert forall k :: 0 <= k < |a| ==> s[k] == a[k];
    if j + 5 <= |a| {
      assert CapAt(s, j) ==> CapAt(a, j);
    } else if b != "" {
      assert s[|a| - 1] == a[|a| - 1] && s[|a|] == b[0];
    }
  }

  lemma CapConcat(a: string, b: string)
    requires FindCap(a).None? && FindCap(b).None? && DigitsEnd(a, b)
    ensures FindCap(a + b).None?
  {
    var s := a + b;
    forall j | 0 <= j <= |s| ensures !CapAt(s, j) {
      if j < |a| {
        CapNotBefore(a, b, j);
      } else if CapAt(s, j) {
        assert forall k :: 0 <= k < |b| ==> s[k + |a|] == b[k];
        assert CapAt(b, j - |a|);
      }
    }
  }

  lemma NoCapWithoutDigits(s: string)
    requires !HasDigit(s)
    ensures FindCap(s).None?
  {
    forall j | 0 <= j <= |s| ensures !CapAt(s, j) {
      if j < |s| { assert s[j] in s; }
    }
  }

  // ----- The civic number is found where it was printed -----

  /** A civic token has one run of digits: behind a non-digit comes no digit. */
  lemma OneRunOfDigits(t: string, gap: nat, i: nat)
    requires gap < i < |t| && !IsDigit(t[gap]) && IsDigit(t[i])
    ensures !CivicToken(t)
  {
    assert Span(t, 0, Digit) <= gap;
    CivicCharAt(t, i);
  }

  lemma NoNumberBefore(st: string, n: string, j: nat)
    requires Bare(st, Separator) && NumberShape(n) && j < |st|
    ensures !NumberAt(st + " " + n, j)
  {
    hide NumberShape, CivicToken;
    var s := st + " " + n;
    NumberFacts(n);
    assert s[|st| - 1] == st[|st| - 1] && s[|st|] == ' ' && s[|st| + 1] == n[0];
    var k := Span(s, j, CommaSpace);
    if k < |st| {
      assert s[k..][|st| - k] == ' ' && s[k..][|st| + 1 - k] == n[0];
      OneRunOfDigits(s[k..], |st| - k, |st| + 1 - k);
    }
  }

  lemma NumberAfter(st: string, n: string)
    requires st != "" && Bare(st, Separator) && NumberShape(n)
    ensures FindNumber(st + " " + n) == Some(|st|)
    ensures TakeNumber(st + " " + n) == (TrimSeparators(st), n)
  {
    hide NumberShape, NumberAt, TrimSeparators;
    var s := st + " " + n;
    NumberFacts(n);
    NumberHere(st, n);
    forall j | 0 <= j < |st| ensures !NumberAt(s, j) {
      NoNumberBefore(st, n, j);
    }
    FirstIs(NumberAt, s, |st|);
    assert s[..|st|] == st;
  }

  lemma NumberHere(st: string, n: string)
    requires NumberShape(n)
    ensures var s := st + " " + n;
      NumberAt(s, |st|) && Span(s, |st|, CommaSpace) == |st| + 1 && s[|st| + 1..] == n
  {
    var s := st + " " + n;
    NumberFacts(n);
    assert s[|st|] == ' ' && s[|st| + 1] == n[0];
    assert s[|st| + 1..] == n;
  }

  // ----- What the printer writes -----

  /** The printed line without its province. */
  function Front(p: Parts): string {
    Join(StreetLine(p), CityBase(p), ", ")
  }

  /** What the printer puts between the rest of the line and `(MI)`. */
  function BeforeProvince(p: Parts): string {
    if CityBase(p) != "" then " " else if StreetLine(p) != "" then ", " else ""
  }

  /** Text made of tidy fields: blanks are single, the ends are solid, no parentheses. */
  predicate Solid(s: string) {
    Tidy(s) && Bare(s, Separator) && '(' !in s && ')' !in s
  }

  lemma JoinSolid(a: string, b: string, sep: string)
    requires Solid(a) && Solid(b) && (sep == " " || sep == ", ")
    ensures Solid(Join(a, b, sep))
  {
    if a != "" && b != "" {
      TidyConcat(a, sep);
      TidyConcat(a + sep, b);
      var j := a + sep + b;
      assert j[0] == a[0] && j[|j| - 1] == b[|b| - 1];
    }
  }

  predicate SolidField(field: Option<string>) {
    field.Some? ==> field.value != "" && Solid(field.value)
  }

  predicate SolidFields(p: Parts) {
    SolidField(p.street) && SolidField(p.streetNumber) && SolidField(p.city) &&
    SolidField(p.postalCode) && SolidField(p.province)
  }

  lemma FieldsAreSolid(p: Parts)
    requires FieldsOk(p)
    ensures SolidFields(p)
  {
    if p.streetNumber.Some? { NumberFacts(p.streetNumber.value); }
    if p.postalCode.Some? { PostalCodeFacts(p.postalCode.value); }
    if p.province.Some? { SiglaFacts(p.province.value); }
  }

  lemma CleanSolid(field: Option<string>)
    requires SolidField(field)
    ensures Clean(field) == field.GetOr("") && Solid(Clean(field))
    ensures Clean(field) == "" <==> field.None?
  {
    if field.Some? { CleanIs(field.value); }
  }

  lemma PostalCodeFacts(z: string)
    requires IsPostalCode(z)
    ensures Solid(z) && forall i :: 0 <= i < 5 ==> IsDigit(z[i])
  {
    forall i | 0 <= i < 5 ensures IsDigit(z[i]) {
      assert z[i] in z;
    }
  }

  lemma SiglaFacts(s: string)
    requires IsSigla(s)
    ensures Solid(s) && IsLetter(s[0]) && IsLetter(s[1]) && UpperAll(s) == s
  {
    assert 'A' <= s[0] <= 'Z' && 'A' <= s[1] <= 'Z' by {
      hide Solid, UpperAll;
    }
    hide IsSiglaPair;
  }

  lemma PrintedFields(p: Parts)
    requires SolidFields(p)
    ensures StreetLine(p) == Join(p.street.GetOr(""), p.streetNumber.GetOr(""), " ")
    ensures CityBase(p) == Join(p.postalCode.GetOr(""), p.city.GetOr(""), " ")
    ensures Clean(p.province) == p.province.GetOr("")
  {
    CleanSolid(p.street);
    CleanSolid(p.streetNumber);
    CleanSolid(p.city);
    CleanSolid(p.postalCode);
    CleanSolid(p.province);
  }

  lemma LinesAreSolid(p: Parts)
    requires SolidFields(p)
    ensures Solid(Front(p)) && Solid(StreetLine(p)) && Solid(CityBase(p))
    ensures Front(p) == "" <==>
      p.street.None? && p.streetNumber.None? && p.city.None? && p.postalCode.None?
  {
    hide Solid, StreetLine, CityBase;
    PrintedFields(p);
    NothingIsSolid();
    JoinSolid(p.street.GetOr(""), p.streetNumber.GetOr(""), " ");
    JoinSolid(p.postalCode.GetOr(""), p.city.GetOr(""), " ");
    JoinSolid(StreetLine(p), CityBase(p), ", ");
  }

  lemma NothingIsSolid()
    ensures Solid("")
  {
  }

  /** The printed line is the front, and behind it the province in parentheses. */
  lemma LineShape(p: Parts)
    requires SolidFields(p)
    ensures p.province.None? ==> Line(p) == Front(p)
    ensures p.province.Some? ==>
      Line(p) == Front(p) + BeforeProvince(p) + "(" + p.province.value + ")"
  {
    PrintedFields(p);
    if p.province.Some? {
      JoinProvince(StreetLine(p), CityBase(p), p.province.value);
    }
  }

  lemma LineIsEmpty(p: Parts)
    requires SolidFields(p)
    ensures Line(p) == "" <==> p == EMPTY_PARTS
  {
    hide Solid, StreetLine, CityBase, Line, Front;
    LinesAreSolid(p);
    LineShape(p);
  }

  lemma JoinProvince(street: string, city: string, pr: string)
    ensures var front := Join(street, city, ", ");
      var sep := if city != "" then " " else if street != "" then ", " else "";
      var cityLine := if city == "" then "(" + pr + ")" else city + " (" + pr + ")";
      Join(street, cityLine, ", ") == front + sep + "(" + pr + ")"
  {
  }

  /** Cleaning a printed line changes nothing. */
  lemma LineIsClean(p: Parts)
    requires SolidFields(p)
    ensures Clean(Some(Line(p))) == Line(p)
  {
    LinesAreSolid(p);
    LineShape(p);
    if p.province.Some? {
      WithProvinceTidy(Front(p), BeforeProvince(p), p.province.value);
    }
    CleanIs(Line(p));
  }

  lemma WithProvinceTidy(front: string, sep: string, pr: string)
    requires Solid(front) && Solid(pr) && pr != ""
    requires sep == "" || sep == " " || sep == ", "
    requires front == "" ==> sep == ""
    ensures var line := front + sep + "(" + pr + ")"; Tidy(line) && Bare(line, Space)
  {
    TidyConcat(front, sep);
    TidyConcat(front + sep, "(");
    TidyConcat(front + sep + "(", pr);
    TidyConcat(front + sep + "(" + pr, ")");
    var line := front + sep + "(" + pr + ")";
    assert line[0] == if front == "" then '(' else front[0];
    assert line[|line| - 1] == ')';
  }

  // ----- What the parser makes of it, step by step -----

  lemma NoParen(s: string)
    requires '(' !in s
    ensures FindParen(s).None?
  {
    forall i | 0 <= i <= |s| ensures !IsParenAt(s, i) {
    }
  }

  lemma TakePrintedProvince(front: string, pr: string)
    requires '(' !in front && IsSigla(pr)
    ensures TakeProvince(front + "(" + pr + ")") == (pr, front + " ")
  {
    SiglaFacts(pr);
    var s := front + "(" + pr + ")";
    var i := |front|;
    assert s[i] == '(' && s[i + 1] == pr[0] && s[i + 2] == pr[1] && s[i + 3] == ')';
    assert ParenAt(s, i) == Some(ParenHit(i, i + 1, i + 4));
    assert IsParenAt(s, i);
    forall j | 0 <= j < i ensures !IsParenAt(s, j) {
      assert s[j] == front[j] && front[j] in front;
    }
    FirstIs(IsParenAt, s, i);
    assert s[i + 1..i + 3] == pr && s[..i] == front && s[i + 4..] == "";
    assert front + " " + "" == front + " ";
  }

  lemma SplitAtPrintedCap(street: string, z: string, rest: string)
    requires FindCap(street).None? && IsPostalCode(z)
    requires rest == "" || !IsDigit(rest[0])
    ensures var lead := if street == "" then "" else street + ", ";
      SplitStreetFromCity(lead + z + rest) == Split(z, lead, rest)
  {
    var lead := if street == "" then "" else street + ", ";
    var text := lead + z + rest;
    PostalCodeFacts(z);
    NoCapWithoutDigits(", ");
    CapConcat(street, ", ");
    assert FindCap(lead).None?;
    forall j | 0 <= j < 5 ensures text[|lead| + j] == z[j] {
    }
    if rest != "" { assert text[|lead| + 5] == rest[0]; }
    assert CapAt(text, |lead|);
    forall j | 0 <= j < |lead| ensures !CapAt(text, j) {
      CapNotBefore(lead, z + rest, j);
      assert lead + (z + rest) == text;
    }
    FirstIs(CapAt, text, |lead|);
    assert text[..|lead|] == lead && text[|lead|..|lead| + 5] == z && text[|lead| + 5..] == rest;
  }

  lemma LastCommaIs(s: string, i: nat)
    requires i < |s| && s[i] == ',' && forall j :: i < j < |s| ==> s[j] != ','
    ensures LastComma(s, |s|) == Some(i)
  {
  }

  lemma SplitAtPrintedComma(street: string, tail: string)
    requires street != "" && FindCap(street).None?
    requires !HasDigit(tail) && ',' !in tail && Trim(tail) != ""
    ensures SplitStreetFromCity(street + "," + tail) == Split("", street, tail)
  {
    hide FindCap, Trim, LastComma;
    var text := street + "," + tail;
    NoCapWithoutDigits("," + tail);
    CapConcat(street, "," + tail);
    assert street + ("," + tail) == text;
    assert text[|street|] == ',';
    forall j | |street| < j < |text| ensures text[j] != ',' {
      assert text[j] == tail[j - |street| - 1] && tail[j - |street| - 1] in tail;
    }
    LastCommaIs(text, |street|);
    assert text[|street| + 1..] == tail && text[..|street|] == street;
  }

  lemma TrimNotBlank(l: string, x: string, r: string)
    requires x != "" && !IsSpace(x[0]) && Space.Covers(l)
    ensures Trim(l + x + r) != ""
  {
    assert l + x + r == l + (x + r);
    TrimLeftPad(l, x + r, Space);
    TrimLeftBare(x, r, Space);
    var t := TrimRight(x + r, Space);
    assert (x + r)[0] == x[0];
  }

  lemma {:induction false} TrimBlank(s: string)
    requires Space.Covers(s)
    ensures Trim(s) == ""
  {
    assert s + "" == s;
    TrimLeftPad(s, "", Space);
  }

  lemma CityFromPart(l: string, c: string, r: string)
    requires Solid(c) && Separator.Covers(l) && Separator.Covers(r)
    ensures TrimSeparators(BlankParens(l + c + r)) == c
  {
    var tail := l + c + r;
    forall i | 0 <= i < |tail| ensures tail[i] != '(' && tail[i] != ')' {
      assert tail[i] in l || tail[i] in c || tail[i] in r;
    }
    assert BlankParens(tail) == tail;
    TrimSeparatorsPad(l, c, r);
  }
}
