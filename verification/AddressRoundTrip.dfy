/**
 * Reading back a printed address: exactly which addresses survive the printer
 * and the parser of src/common/utils/address.utils.ts unchanged.
 */
module AddressRoundTrip {
  import opened Wrappers
  import opened Text
  import opened Address
  import opened LetterCase
  import opened PrintedLines

  /** What is left of the printed province once its parentheses are cut out. */
  function Pad(street: string, base: string, province: Option<string>): (pad: string)
    ensures Separator.Covers(pad)
    ensures base != "" || street == "" ==> Space.Covers(pad)
  {
    if province.None? then "" else if base != "" then "  " else if street != "" then ",  " else " "
  }

  /** The parser's cut of `text` finds the street line, the CAP and the city. */
  predicate Cuts(text: string, street: string, z: string, c: string) {
    var split := SplitStreetFromCity(text);
    && split.postalCode == z
    && TrimSeparators(split.streetPart) == street
    && TrimSeparators(BlankParens(split.cityPart)) == c
  }

  lemma TrimSolid(x: string, r: string)
    requires Solid(x) && Separator.Covers(r)
    ensures TrimSeparators(x + r) == x
  {
    assert "" + x + r == x + r;
    TrimSeparatorsPad("", x, r);
  }

  lemma JoinAroundCap(street: string, z: string, c: string, pad: string)
    requires z != ""
    ensures var sep := if street == "" then "" else ", ";
      var blank := if c == "" then "" else " ";
      Join(street, Join(z, c, " "), ", ") + pad == (if street == "" then "" else street + ", ") + z + (blank + c + pad)
  {
  }

  lemma CutWithCap(street: string, z: string, c: string, pad: string)
    requires Solid(street) && Solid(c) && FindCap(street).None? && IsPostalCode(z)
    requires Separator.Covers(pad)
    ensures Cuts(Join(street, Join(z, c, " "), ", ") + pad, street, z, c)
  {
    hide SplitStreetFromCity, TrimSeparators, FindCap, Join;
    var sep := if street == "" then "" else ", ";
    var blank := if c == "" then "" else " ";
    var rest := blank + c + pad;
    JoinAroundCap(street, z, c, pad);
    assert pad != "" ==> pad[0] in pad;
    SplitAtPrintedCap(street, z, rest);
    CityFromPart(blank, c, pad);
    TrimSolid(street, sep);
  }

  lemma CutWithComma(street: string, c: string, pad: string)
    requires Solid(street) && Solid(c) && street != "" && c != ""
    requires FindCap(street).None? && !HasDigit(c) && ',' !in c && Space.Covers(pad)
    ensures Cuts(Join(street, c, ", ") + pad, street, "", c)
  {
    var tail := " " + c + pad;
    assert Join(street, c, ", ") + pad == street + "," + tail;
    forall x | x in tail ensures !IsDigit(x) && x != ',' {
      assert x in " " || x in c || x in pad;
    }
    TrimNotBlank(" ", c, pad);
    SplitAtPrintedComma(street, tail);
    CityFromPart(" ", c, pad);
    TrimSolid(street, "");
    assert street + "" == street;
  }

  lemma SeparatorsAreNoDigits(street: string, pad: string)
    requires Separator.Covers(pad)
    ensures !HasDigit(pad) && DigitsEnd(street, pad)
  {
    assert pad != "" ==> pad[0] in pad;
  }

  lemma NoCity()
    ensures TrimSeparators(BlankParens("")) == ""
  {
    assert Solid("") && Separator.Covers("") && "" + "" + "" == "";
    CityFromPart("", "", "");
  }

  lemma CutWithoutCity(street: string, pad: string)
    requires Solid(street) && FindCap(street).None? && Separator.Covers(pad)
    requires CityComma(street + pad).None?
    ensures Cuts(street + pad, street, "", "")
  {
    hide FindCap, CityComma, TrimSeparators, BlankParens, Solid, HasDigit, Class.Has, Class.Covers;
    SeparatorsAreNoDigits(street, pad);
    NoCapWithoutDigits(pad);
    CapConcat(street, pad);
    TrimSolid(street, pad);
    NoCity();
    assert SplitStreetFromCity(street + pad) == Split("", street + pad, "");
  }

  // ----- Without CAP and city no comma is taken for the one before a city -----

  lemma NoCityCommaBeforeProvince(street: string)
    ensures CityComma(street + ",  ").None?
  {
    var text := street + ",  ";
    assert text[|street|] == ',' && text[|street| + 1..] == "  ";
    LastCommaIs(text, |street|);
    TrimBlank("  ");
  }

  lemma NoCityCommaBeforeNumber(st: string, n: string)
    requires n != "" && IsDigit(n[0]) && ',' !in n
    ensures CityComma(st + " " + n).None?
  {
    var text := st + " " + n;
    var comma := LastComma(text, |text|);
    forall j | |st| <= j < |text| ensures text[j] != ',' {
      assert j == |st| || text[j] == n[j - |st| - 1];
    }
    if comma.Some? {
      var tail := text[comma.value + 1..];
      assert tail[|st| - comma.value] == text[|st| + 1] == n[0];
      assert n[0] in tail;
    }
  }

  lemma NoCityCommaAlone()
    ensures CityComma("").None? && CityComma(" ").None?
  {
  }

  lemma NoCityComma(p: Parts)
    requires FieldsOk(p) && CutWhereFieldsMeet(p) && p.postalCode.None? && p.city.None?
    ensures var street := Join(p.street.GetOr(""), p.streetNumber.GetOr(""), " ");
      CityComma(street + Pad(street, "", p.province)).None?
  {
    hide NumberShape, StreetShape, CityComma, IsSigla, NameShape;
    var street := Join(p.street.GetOr(""), p.streetNumber.GetOr(""), " ");
    NoCityCommaAlone();
    if p.province.Some? {
      assert "" + " " == " ";
      NoCityCommaBeforeProvince(street);
    } else {
      assert street + "" == street;
      if p.streetNumber.Some? {
        NumberFacts(p.streetNumber.value);
        assert p.street.value != "" by { assert StreetShape(p.street.value); SolidStreet(p.street.value); }
        NoCityCommaBeforeNumber(p.street.value, p.streetNumber.value);
      }
    }
  }

  lemma SolidStreet(s: string)
    requires StreetShape(s)
    ensures s != ""
  {
    hide FindCap;
  }

  // ----- The parts of the line -----

  lemma StreetLineHoldsNoCap(p: Parts)
    requires FieldsOk(p)
    ensures FindCap(Join(p.street.GetOr(""), p.streetNumber.GetOr(""), " ")).None?
  {
    NoCapWithoutDigits("");
    NoCapWithoutDigits(" ");
    if p.street.Some? && p.streetNumber.Some? {
      CapConcat(p.street.value, " ");
      CapConcat(p.street.value + " ", p.streetNumber.value);
    }
  }

  lemma CutReadsBack(p: Parts)
    requires FieldsOk(p) && CutWhereFieldsMeet(p)
    ensures Cuts(Front(p) + Pad(StreetLine(p), CityBase(p), p.province),
                 StreetLine(p), p.postalCode.GetOr(""), p.city.GetOr(""))
  {
    hide Cuts, SolidFields, StreetLine, CityBase, Line, NumberShape, FindCap, CityComma;
    FieldsAreSolid(p);
    PrintedFields(p);
    LinesAreSolid(p);
    StreetLineHoldsNoCap(p);
    var pad := Pad(StreetLine(p), CityBase(p), p.province);
    if p.postalCode.Some? {
      CutWithCap(StreetLine(p), p.postalCode.value, p.city.GetOr(""), pad);
    } else if p.city.Some? {
      CutWithComma(StreetLine(p), p.city.value, pad);
    } else {
      NoCityComma(p);
      CutWithoutCity(StreetLine(p), pad);
    }
  }

  lemma ProvinceReadsBack(p: Parts)
    requires SolidFields(p) && (p.province.Some? ==> IsSigla(p.province.value))
    requires p.province.None? ==> !EndsInSigla(Line(p))
    ensures TakeProvince(Line(p)) ==
      (p.province.GetOr(""), Front(p) + Pad(StreetLine(p), CityBase(p), p.province))
  {
    hide IsSigla, Line, Front, BeforeProvince, Pad, StreetLine, CityBase, FindParen, FindTrailing;
    LinesAreSolid(p);
    LineShape(p);
    if p.province.Some? {
      assert '(' !in Front(p) + BeforeProvince(p) by { BeforeProvinceIsPlain(p); }
      TakePrintedProvince(Front(p) + BeforeProvince(p), p.province.value);
      PadIs(p);
    } else {
      NoParen(Line(p));
      assert Front(p) + "" == Front(p);
      assert Pad(StreetLine(p), CityBase(p), p.province) == "" by { PadIs(p); }
    }
  }

  lemma BeforeProvinceIsPlain(p: Parts)
    ensures '(' !in BeforeProvince(p)
  {
  }

  lemma PadIs(p: Parts)
    ensures var pad := Pad(StreetLine(p), CityBase(p), p.province);
      if p.province.None? then pad == "" else Front(p) + BeforeProvince(p) + " " == Front(p) + pad
  {
    hide StreetLine, CityBase, Front;
  }

  lemma NumberReadsBack(p: Parts)
    requires FieldsOk(p) && Placed(p)
    ensures TakeNumber(Join(p.street.GetOr(""), p.streetNumber.GetOr(""), " ")) ==
      (p.street.GetOr(""), p.streetNumber.GetOr(""))
  {
    if p.streetNumber.Some? {
      NumberAfter(p.street.value, p.streetNumber.value);
      TrimSolid(p.street.value, "");
      assert p.street.value + "" == p.street.value;
    } else if p.street.None? {
      assert FindNumber("").None?;
    }
  }

  lemma RestFromCut(text: string, street: string, z: string, c: string, st: string, n: string, pr: string)
    requires Cuts(text, street, z, c) && TakeNumber(street) == (st, n)
    ensures ParseRest(text, pr) ==
      Parts(OrNull(NormalizeCase(st)), OrNull(UpperAll(n)), OrNull(NormalizeCase(c)), OrNull(z), OrNull(pr))
  {
  }

  /** Neither name is printed in capitals throughout, unless capitalised words look like that. */
  predicate CaseKept(p: Parts) {
    (p.street.Some? ==> KeepsCase(p.street.value)) && (p.city.Some? ==> KeepsCase(p.city.value))
  }

  /** The fields with their names as the parser spells them. */
  function Respelled(p: Parts): Parts {
    p.(street := OrNull(NormalizeCase(p.street.GetOr(""))), city := OrNull(NormalizeCase(p.city.GetOr(""))))
  }

  lemma RespelledIs(p: Parts)
    requires FieldsOk(p)
    ensures Respelled(p) == p <==> CaseKept(p)
    ensures SameCut(p, Respelled(p))
  {
    hide KeepsCase, NumberShape, FindCap, IsPostalCode, IsSigla, SameLetters, NormalizeCase;
    if p.street.Some? {
      KeepsCaseIff(p.street.value);
      NormalizeCaseIs(p.street.value);
    }
    if p.city.Some? {
      KeepsCaseIff(p.city.value);
      NormalizeCaseIs(p.city.value);
    }
    NothingToSpell();
  }

  lemma NothingToSpell()
    ensures NormalizeCase("") == ""
  {
  }

  lemma FieldValuesAreFixed(p: Parts)
    requires FieldsOk(p)
    ensures OrNull(UpperAll(p.streetNumber.GetOr(""))) == p.streetNumber
    ensures OrNull(p.postalCode.GetOr("")) == p.postalCode
    ensures OrNull(p.province.GetOr("")) == p.province
  {
    assert UpperAll("") == "";
  }

  lemma ReadsBack(p: Parts)
    requires FieldsOk(p) && Placed(p)
    ensures ParseAddressLine(ComposeAddressLine(p)) == Respelled(p)
  {
    NothingToSpell();
    hide NormalizeCase, SolidFields, TakeProvince, ParseRest, Line, Cuts, TakeNumber, Front, Pad, StreetLine, CityBase, Clean;
    hide StreetShape, NumberShape, NameShape, IsPostalCode, IsSigla, EndsInSigla, CityComma, FindNumber;
    FieldsAreSolid(p);
    LineIsClean(p);
    LineIsEmpty(p);
    PrintedFields(p);
    FieldValuesAreFixed(p);
    if Line(p) != "" {
      ProvinceReadsBack(p);
      CutReadsBack(p);
      NumberReadsBack(p);
      RestFromCut(Front(p) + Pad(StreetLine(p), CityBase(p), p.province), StreetLine(p),
        p.postalCode.GetOr(""), p.city.GetOr(""), p.street.GetOr(""), p.streetNumber.GetOr(""), p.province.GetOr(""));
    }
  }

  // ----- The converse: a misplaced field is read back elsewhere -----

  lemma TrimSeparatorsKeepsHead(s: string)
    requires s != "" && !Separator.Has(s[0])
    ensures TrimSeparators(s) != "" && TrimSeparators(s)[0] == s[0]
  {
    var t := Collapse(s);
    assert t[0] == s[0];
    assert TrimLeft(t, Separator) == t;
    var u := TrimRight(t, Separator);
    assert u[0] == t[0];
    assert TrimLeft(u, Space) == u;
    var v := TrimRight(u, Space);
  }

  lemma StreetKeepsHead(street: string)
    requires street != "" && !Separator.Has(street[0])
    ensures TakeNumber(street).0 != ""
  {
    hide TrimSeparators, CivicToken, Span;
    var hit := FindNumber(street);
    if hit.Some? {
      assert !NumberAt(street, 0);
      var before := street[..hit.value];
      assert before != "" && before[0] == street[0];
      TrimSeparatorsKeepsHead(before);
    }
  }

  /** Text that starts with a solid character, and not with the CAP, has a street. */
  lemma LeadingTextIsStreet(text: string, pr: string)
    requires text != "" && !Separator.Has(text[0]) && !CapAt(text, 0)
    ensures ParseRest(text, pr).street.Some?
  {
    hide TrimSeparators, CapAt, TakeNumber, NormalizeCase, UpperAll, BlankParens, LastComma;
    var part := SplitStreetFromCity(text).streetPart;
    assert part != "" && part[0] == text[0];
    TrimSeparatorsKeepsHead(part);
    StreetKeepsHead(TrimSeparators(part));
  }

  /** A city found behind a comma holds neither digits nor commas. */
  lemma CityBehindCommaIsPlain(text: string, pr: string, x: char)
    requires FindCap(text).None?
    requires x == ',' || IsDigit(x)
    ensures var city := ParseRest(text, pr).city; city.Some? ==> x !in city.value
  {
    hide TakeNumber, FindCap, LastComma;
    var part := SplitStreetFromCity(text).cityPart;
    assert x !in part;
    assert x !in BlankParens(part);
    TrimSeparatorsKeeps(BlankParens(part), x);
    NormalizeCaseKeeps(TrimSeparators(BlankParens(part)), x);
  }

  lemma TrimsKeepOut(s: string, k: Class, x: char)
    requires x !in s
    ensures x !in TrimLeft(s, k) && x !in TrimRight(s, k)
  {
    hide Class.Has;
  }

  lemma TrimSeparatorsKeeps(s: string, x: char)
    requires x !in s && x != ' '
    ensures x !in TrimSeparators(s)
  {
    var c := Collapse(s);
    if x in c { CollapseKeeps(s, x); }
    var l := TrimLeft(c, Separator);
    var r := TrimRight(l, Separator);
    var t := TrimLeft(r, Space);
    assert TrimSeparators(s) == TrimRight(t, Space);
    hide *;
    TrimsKeepOut(c, Separator, x);
    TrimsKeepOut(l, Separator, x);
    TrimsKeepOut(r, Space, x);
    TrimsKeepOut(t, Space, x);
  }

  lemma NormalizeCaseKeeps(s: string, x: char)
    requires x !in s && !IsLetter(x)
    ensures x !in NormalizeCase(s)
  {
  }

  lemma SiglaIsTaken(p: Parts)
    requires FieldsOk(p) && p.province.None? && EndsInSigla(Line(p))
    ensures ParseAddressLine(ComposeAddressLine(p)).province.Some?
  {
    hide FieldsOk, Line, Clean, IsSigla, SplitStreetFromCity, TakeNumber, TrimSeparators, NormalizeCase, SolidFields,
      FindParen;
    FieldsAreSolid(p);
    LineIsClean(p);
    LineShape(p);
    LinesAreSolid(p);
    NoParen(Line(p));
  }

  /** The line without its printed province, as the parser goes on with it. */
  function Rest(p: Parts): string {
    Front(p) + Pad(StreetLine(p), CityBase(p), p.province)
  }

  lemma ParseIsRest(p: Parts)
    requires FieldsOk(p) && p != EMPTY_PARTS
    requires p.province.None? ==> !EndsInSigla(Line(p))
    ensures ParseAddressLine(ComposeAddressLine(p)) == ParseRest(Rest(p), p.province.GetOr(""))
  {
    hide SolidFields, TakeProvince, ParseRest, Line, Clean, Front, Pad, StreetLine, CityBase;
    hide StreetShape, NumberShape, NameShape, IsPostalCode, IsSigla, EndsInSigla;
    FieldsAreSolid(p);
    LineIsClean(p);
    LineIsEmpty(p);
    ProvinceReadsBack(p);
  }

  lemma NumberLeads(n: string, base: string, province: Option<string>)
    requires n != ""
    ensures var rest := if base == "" then Pad(n, base, province) else ", " + base + Pad(n, base, province);
      && Join(n, base, ", ") + Pad(n, base, province) == n + rest
      && (rest == "" || rest[0] == ',')
  {
  }

  lemma NumberWithoutStreet(p: Parts)
    requires FieldsOk(p) && p.streetNumber.Some? && p.street.None?
    ensures ParseRest(Rest(p), p.province.GetOr("")).street.Some?
  {
    var n := p.streetNumber.value;
    NumberFacts(n);
    assert FindCap(n).None?;
    FieldsAreSolid(p);
    PrintedFields(p);
    assert StreetLine(p) == n;
    hide FieldsOk, SolidFields, ParseRest, Clean, NumberShape, CapAt, Line, Pad, CityBase, StreetLine, FindCap, Tidy;
    NumberLeads(n, CityBase(p), p.province);
    var rest := if CityBase(p) == "" then Pad(n, CityBase(p), p.province)
                else ", " + CityBase(p) + Pad(n, CityBase(p), p.province);
    assert Rest(p) == n + rest;
    CapNotBefore(n, rest, 0);
    LeadingTextIsStreet(Rest(p), p.province.GetOr(""));
  }

  lemma CityWithoutStreet(p: Parts)
    requires FieldsOk(p) && p.city.Some? && p.postalCode.None?
    requires p.street.None? && p.streetNumber.None?
    requires FindCap(Rest(p)).None?
    ensures ParseRest(Rest(p), p.province.GetOr("")).street.Some?
  {
    hide SolidFields, ParseRest, Clean, StreetShape, IsSigla, Line, NormalizeCase;
    FieldsAreSolid(p);
    PrintedFields(p);
    var c := p.city.value;
    assert Rest(p)[0] == c[0];
    LeadingTextIsStreet(Rest(p), p.province.GetOr(""));
  }

  lemma NumberInStreet(p: Parts)
    requires FieldsOk(p) && CutWhereFieldsMeet(p)
    requires p.street.Some? && p.streetNumber.None? && FindNumber(p.street.value).Some?
    ensures ParseRest(Rest(p), p.province.GetOr("")).streetNumber.Some?
  {
    hide SolidFields, Clean, StreetShape, NameShape, IsSigla, IsPostalCode, Line, FindCap, TrimSeparators,
      NormalizeCase, CityComma, HasDigit, Cuts, Front, Pad, ParseRest;
    FieldsAreSolid(p);
    PrintedFields(p);
    CutReadsBack(p);
    var st := p.street.value;
    TakenNumberIsNotEmpty(st);
    var (street, n) := TakeNumber(st);
    RestFromCut(Rest(p), StreetLine(p), p.postalCode.GetOr(""), p.city.GetOr(""), street, n, p.province.GetOr(""));
  }

  lemma TakenNumberIsNotEmpty(st: string)
    requires FindNumber(st).Some?
    ensures TakeNumber(st).1 != ""
  {
    hide TrimSeparators, CivicSuffix, TrimRight, SuffixStart;
    var t := st[Span(st, FindNumber(st).value, CommaSpace)..];
    assert CivicToken(t);
    assert IsDigit(t[0]);
    assert RemoveSpaces(t) == [t[0]] + RemoveSpaces(t[1..]);
  }

  lemma CommaInStreet(p: Parts)
    requires FieldsOk(p) && p.street.Some? && CityComma(p.street.value).Some?
    requires p == EMPTY_PARTS.(street := p.street)
    ensures ParseRest(Rest(p), "").city.Some?
  {
    hide SolidFields, Clean, IsSigla, IsPostalCode, Line, TrimSeparators, NormalizeCase, FindNumber, ParseRest, Trim,
      HasDigit;
    FieldsAreSolid(p);
    PrintedFields(p);
    var st := p.street.value;
    assert Rest(p) == st;
    CommaMakesCity(st);
  }

  lemma CommaMakesCity(st: string)
    requires StreetShape(st) && CityComma(st).Some?
    ensures ParseRest(st, "").city.Some?
  {
    hide NormalizeCase, TakeNumber, TrimSeparators, FindCap, Trim, HasDigit;
    var tail := st[CityComma(st).value + 1..];
    assert SplitStreetFromCity(st).cityPart == tail;
    assert tail != "" by { assert Trim(tail) != ""; TrimOfNothing(); }
    var part := BlankParens(tail);
    assert tail[|tail| - 1] == st[|st| - 1];
    assert part[|part| - 1] == tail[|tail| - 1];
    TrimSeparatorsKeepsTail(part);
  }

  lemma TrimOfNothing()
    ensures Trim("") == ""
  {
  }

  lemma CollapseKeepsTail(s: string)
    requires s != "" && !IsSpace(s[|s| - 1])
    ensures var c := Collapse(s); c != "" && c[|c| - 1] == s[|s| - 1]
  {
    hide IsSpace;
    var last := s[|s| - 1];
    var front := s[..|s| - 1];
    assert s == front + [last];
    CollapseConcat(front, [last]);
    assert Collapse([last]) == [last];
  }

  lemma TrimSeparatorsKeepsTail(s: string)
    requires s != "" && !Separator.Has(s[|s| - 1])
    ensures TrimSeparators(s) != ""
  {
    CollapseKeepsTail(s);
    hide Collapse;
    var c := Collapse(s);
    var t := TrimLeft(c, Separator);
    var u := TrimRight(t, Separator);
    var v := TrimLeft(u, Space);
    TrimLeftKeepsTail(c, Separator);
    TrimRightKeepsTail(t, Separator);
    TrimLeftKeepsTail(u, Space);
    TrimRightKeepsTail(v, Space);
    assert TrimSeparators(s) == TrimRight(v, Space);
    hide *;
  }

  lemma TrimLeftKeepsTail(s: string, k: Class)
    requires s != "" && !k.Has(s[|s| - 1])
    ensures TrimLeft(s, k) != "" && !k.Has(TrimLeft(s, k)[|TrimLeft(s, k)| - 1])
    ensures TrimLeft(s, k)[|TrimLeft(s, k)| - 1] == s[|s| - 1]
  {
    hide Class.Has;
  }

  lemma TrimRightKeepsTail(s: string, k: Class)
    requires s != "" && !k.Has(s[|s| - 1])
    ensures TrimRight(s, k) == s
  {
    hide Class.Has;
  }

  /**
   * When every field has its own shape, the printed line reads back as the same
   * five fields exactly when they are placed where the parser looks for them and
   * neither name is in capitals.
   */
  lemma RoundTrip(p: Parts)
    requires FieldsOk(p)
    ensures ParseAddressLine(ComposeAddressLine(p)) == p <==> Placed(p) && CaseKept(p)
  {
    RespelledIs(p);
    hide ParseRest, ParseAddressLine, ComposeAddressLine, StreetShape, NumberShape, NameShape;
    hide IsPostalCode, IsSigla, EndsInSigla, CityComma, FindNumber, Line, Rest, Respelled, CaseKept;
    if Placed(p) {
      ReadsBack(p);
    } else if p.province.None? && EndsInSigla(Line(p)) {
      SiglaIsTaken(p);
    } else {
      MisplacedIsReadElsewhere(p);
    }
  }

  lemma MisplacedIsReadElsewhere(p: Parts)
    requires FieldsOk(p) && !Placed(p)
    requires p.province.None? ==> !EndsInSigla(Line(p))
    ensures ParseAddressLine(ComposeAddressLine(p)) != p
  {
    hide ParseAddressLine, ComposeAddressLine, StreetShape, NumberShape, NameShape, ParseRest;
    hide IsPostalCode, IsSigla, EndsInSigla, CityComma, FindNumber, Line, Rest, FindCap;
    ParseIsRest(p);
    var text, pr := Rest(p), p.province.GetOr("");
    if p.streetNumber.Some? && p.street.None? {
      NumberWithoutStreet(p);
    } else if p.postalCode.None? && FindCap(text).Some? {
      CapIsTaken(text, pr);
    } else if p.city.Some? && p.postalCode.None? && p.street.None? {
      CityWithoutStreet(p);
    } else if p.city.Some? && p.postalCode.None? && (HasDigit(p.city.value) || ',' in p.city.value) {
      var x :| x in p.city.value && (x == ',' || IsDigit(x));
      CityBehindCommaIsPlain(text, pr, x);
    } else if !CutWhereFieldsMeet(p) {
      CommaInStreet(p);
    } else {
      NumberInStreet(p);
    }
  }

  lemma CapIsTaken(text: string, pr: string)
    requires FindCap(text).Some?
    ensures ParseRest(text, pr).postalCode.Some?
  {
    hide TakeNumber, TrimSeparators, NormalizeCase;
  }

  // ----- Lines printed in capitals -----

  lemma NothingPrinted(p: Parts)
    requires FieldsOk(p)
    ensures ParseAddressLine(Some(Line(p))) == ParseAddressLine(ComposeAddressLine(p))
  {
    hide Line, FieldsOk, ParseRest, TakeProvince;
    assert Clean(Some("")) == "";
  }

  /** Placed fields come back with the letters they were printed with. */
  lemma PlacedReadsBackAnyCase(p: Parts)
    requires FieldsOk(p) && Placed(p)
    ensures SameCut(p, ParseAddressLine(ComposeAddressLine(p)))
    ensures var street := ParseAddressLine(ComposeAddressLine(p)).street;
      p.street.Some? && HasSmall(p.street.value) ==> street == p.street
    ensures var city := ParseAddressLine(ComposeAddressLine(p)).city;
      p.city.Some? && HasSmall(p.city.value) ==> city == p.city
  {
    ReadsBack(p);
    RespelledIs(p);
    if p.street.Some? { NormalizeCaseIs(p.street.value); }
    if p.city.Some? { NormalizeCaseIs(p.city.value); }
    hide ParseAddressLine, ComposeAddressLine, NormalizeCase, SameCut, HasSmall, SameLetters, CapitalisedWords,
      NumberShape, FindCap, IsPostalCode, IsSigla, Placed;
  }

  /**
   * The line of placed fields, printed in capitals, reads back as those fields exactly
   * when their names are in capitalised words.
   */
  lemma CapitalsReadBackIff(p: Parts)
    requires FieldsOk(p) && Placed(p)
    ensures ParseAddressLine(Some(UpperAll(Line(p)))) == p <==> InCapitalisedWords(p)
  {
    PlacedReadsBackAnyCase(p);
    NothingPrinted(p);
    ParserIgnoresCase(Line(p));
    hide ParseAddressLine, ComposeAddressLine, FieldsOk, Placed, Line, UpperAll;
    SameCutChains(p, ParseAddressLine(Some(Line(p))), ParseAddressLine(Some(UpperAll(Line(p)))));
    CapitalisedPartsOnce(p, ParseAddressLine(Some(UpperAll(Line(p)))));
  }

  lemma SameCutChains(p: Parts, q: Parts, r: Parts)
    requires SameCut(p, q) && SameCut(q, r)
    ensures SameCut(p, r)
  {
    hide SameLetters;
    if p.street.Some? { SameLettersChains(p.street.value, q.street.value, r.street.value); }
    if p.city.Some? { SameLettersChains(p.city.value, q.city.value, r.city.value); }
  }

  lemma CapitalisedPartsOnce(p: Parts, q: Parts)
    requires SameCut(p, q) && InCapitalisedWords(q)
    ensures p == q <==> InCapitalisedWords(p)
  {
    hide SameLetters, CapitalisedWords;
    if InCapitalisedWords(p) {
      if p.street.Some? { CapitalisedOnce(p.street.value, q.street.value); }
      if p.city.Some? { CapitalisedOnce(p.city.value, q.city.value); }
    }
  }
}
