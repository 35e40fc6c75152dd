/**
 * src/common/utils/address.utils.ts, reconcileAddress: a printed line and its
 * five parts are made to agree.
 */
module Reconcile {
  import opened Wrappers
  import opened Text
  import opened Address
  import opened PrintedLines
  import opened AddressRoundTrip

  datatype Key = StreetKey | StreetNumberKey | CityKey | PostalCodeKey | ProvinceKey

  /** Street first, province last: the order of the merge. */
  const ADDRESS_PART_KEYS: seq<Key> := [StreetKey, StreetNumberKey, CityKey, PostalCodeKey, ProvinceKey]

  function Get(p: Parts, key: Key): Option<string> {
    match key
    case StreetKey => p.street
    case StreetNumberKey => p.streetNumber
    case CityKey => p.city
    case PostalCodeKey => p.postalCode
    case ProvinceKey => p.province
  }

  function Put(p: Parts, key: Key, value: Option<string>): Parts {
    match key
    case StreetKey => p.(street := value)
    case StreetNumberKey => p.(streetNumber := value)
    case CityKey => p.(city := value)
    case PostalCodeKey => p.(postalCode := value)
    case ProvinceKey => p.(province := value)
  }

  datatype Reconciled = Reconciled(line: Option<string>, parts: Parts, recovered: seq<Key>)

  /** The parts the caller still holds once they have been cleaned. */
  function Held(parts: Parts): Parts {
    Parts(
      OrNull(Clean(parts.street)),
      OrNull(Clean(parts.streetNumber)),
      OrNull(Clean(parts.city)),
      NormalizePostalCode(parts.postalCode),
      NormalizeProvince(parts.province))
  }

  /** What the printed line has to offer, part by part. */
  function Offered(line: Option<string>): Parts {
    if Clean(line) == "" then EMPTY_PARTS else ParseAddressLine(Some(Clean(line)))
  }

  predicate Gap(held: Parts, offered: Parts, key: Key) {
    Get(held, key).None? && Get(offered, key).Some?
  }

  /** The gaps of `held` that `offered` fills, in reading order. */
  function Gaps(held: Parts, offered: Parts, keys: seq<Key>): (g: seq<Key>)
    ensures forall key :: key in g <==> key in keys && Gap(held, offered, key)
  {
    if keys == [] then []
    else
      var rest := Gaps(held, offered, keys[..|keys| - 1]);
      var last := keys[|keys| - 1];
      if Gap(held, offered, last) then rest + [last] else rest
  }

  /** `merged` is `held`, with the gaps among `keys` taken from `offered`. */
  predicate Filled(merged: Parts, held: Parts, offered: Parts, keys: seq<Key>) {
    forall key :: Get(merged, key) == FilledPart(held, offered, keys, key)
  }

  function FilledPart(held: Parts, offered: Parts, keys: seq<Key>, key: Key): Option<string> {
    if key in keys && Get(held, key).None? then Get(offered, key) else Get(held, key)
  }

  lemma PutPart(p: Parts, key: Key, value: Option<string>, other: Key)
    ensures Get(Put(p, key, value), other) == if other == key then value else Get(p, other)
  {
  }

  lemma FillOne(merged: Parts, held: Parts, offered: Parts, keys: seq<Key>, key: Key, next: Parts)
    requires Filled(merged, held, offered, keys) && key !in keys
    requires next == if Gap(held, offered, key) then Put(merged, key, Get(offered, key)) else merged
    ensures Filled(next, held, offered, keys + [key])
  {
    hide Get, Put;
    forall other ensures Get(next, other) == FilledPart(held, offered, keys + [key], other) {
      PutPart(merged, key, Get(offered, key), other);
      assert Get(merged, other) == FilledPart(held, offered, keys, other);
    }
  }

  method ReconcileAddress(line: Option<string>, parts: Parts) returns (r: Reconciled)
    // A part still held after cleaning is never overwritten, a gap takes what the line offers.
    ensures Filled(r.parts, Held(parts), Offered(line), ADDRESS_PART_KEYS)
    // `recovered` names exactly the gaps that were filled, in reading order.
    ensures r.recovered == Gaps(Held(parts), Offered(line), ADDRESS_PART_KEYS)
    // The line is the rendering of the parts whenever there is any part.
    ensures r.parts != EMPTY_PARTS ==> r.line.Some? && r.line == ComposeAddressLine(r.parts)
    ensures r.parts == EMPTY_PARTS ==> r.line == OrNull(Clean(line))
  {
    hide Clean, Held, ParseAddressLine, ComposeAddressLine, Get, Put, Gap, Filled;
    var merged := Held(parts);
    var recovered: seq<Key> := [];
    var printed := OrNull(Clean(line));
    StartFilling(Held(parts), Offered(line));
    if printed.Some? {
      var parsed := ParseAddressLine(printed);
      for i := 0 to |ADDRESS_PART_KEYS|
        invariant recovered == Gaps(Held(parts), parsed, ADDRESS_PART_KEYS[..i])
        invariant Filled(merged, Held(parts), parsed, ADDRESS_PART_KEYS[..i])
      {
        var key := ADDRESS_PART_KEYS[i];
        var done := ADDRESS_PART_KEYS[..i];
        assert ADDRESS_PART_KEYS[..i + 1] == done + [key] && key !in done;
        assert Get(merged, key) == Get(Held(parts), key) by { PartNotYetFilled(merged, Held(parts), parsed, done, key); }
        ghost var before := merged;
        if Get(merged, key).None? && Get(parsed, key).Some? {
          merged := Put(merged, key, Get(parsed, key));
          recovered := recovered + [key];
        }
        GapIs(Held(parts), parsed, key);
        FillOne(before, Held(parts), parsed, done, key, merged);
        assert (done + [key])[..|done + [key]| - 1] == done;
      }
      assert ADDRESS_PART_KEYS[..|ADDRESS_PART_KEYS|] == ADDRESS_PART_KEYS;
    } else {
      NoGaps(Held(parts), ADDRESS_PART_KEYS);
      NothingToFill(merged, ADDRESS_PART_KEYS);
    }
    MergedIsPrintable(line, parts, merged);
    var composed := ComposeAddressLine(merged);
    r := Reconciled(if composed.Some? then composed else printed, merged, recovered);
  }

  lemma StartFilling(held: Parts, offered: Parts)
    ensures Filled(held, held, offered, [])
  {
  }

  lemma NothingToFill(held: Parts, keys: seq<Key>)
    ensures Filled(held, held, EMPTY_PARTS, keys)
  {
  }

  lemma PartNotYetFilled(merged: Parts, held: Parts, offered: Parts, keys: seq<Key>, key: Key)
    requires Filled(merged, held, offered, keys) && key !in keys
    ensures Get(merged, key) == Get(held, key)
  {
    hide Get;
  }

  lemma GapIs(held: Parts, offered: Parts, key: Key)
    ensures Gap(held, offered, key) <==> Get(held, key).None? && Get(offered, key).Some?
  {
  }

  lemma {:induction false} NoGaps(held: Parts, keys: seq<Key>)
    ensures Gaps(held, EMPTY_PARTS, keys) == []
  {
    if keys != [] { NoGaps(held, keys[..|keys| - 1]); }
  }

  // ----- Any part makes a line -----

  /** A value that cleaning cannot blank. */
  predicate Printable(field: Option<string>) {
    field.Some? ==> field.value != "" && !IsSpace(field.value[0])
  }

  predicate AllPrintable(p: Parts) {
    && Printable(p.street) && Printable(p.streetNumber) && Printable(p.city)
    && Printable(p.postalCode) && Printable(p.province)
  }

  lemma CleanKeepsHead(s: string)
    requires s != "" && !IsSpace(s[0])
    ensures Clean(Some(s)) != ""
  {
    var c := Collapse(s);
    assert c[0] == s[0];
    assert TrimLeft(c, Space) == c;
    assert TrimRight(c, Space) != "";
  }

  lemma PrintableIsNotBlank(field: Option<string>)
    requires Printable(field)
    ensures Clean(field) == "" <==> field.None?
  {
    if field.Some? { CleanKeepsHead(field.value); }
  }

  lemma PrintablePartsMakeALine(p: Parts)
    requires AllPrintable(p)
    ensures ComposeAddressLine(p).Some? <==> p != EMPTY_PARTS
  {
    hide Clean, Printable;
    PrintableIsNotBlank(p.street);
    PrintableIsNotBlank(p.streetNumber);
    PrintableIsNotBlank(p.city);
    PrintableIsNotBlank(p.postalCode);
    PrintableIsNotBlank(p.province);
  }

  lemma TrimmedIsPrintable(s: string)
    ensures Printable(OrNull(Trim(s)))
  {
    var l := TrimLeft(s, Space);
    var t := TrimRight(l, Space);
    if t != "" { assert t[0] == l[0]; }
  }

  lemma CleanedIsPrintable(field: Option<string>)
    ensures Printable(OrNull(Clean(field)))
    ensures Printable(NormalizePostalCode(field))
    ensures Printable(NormalizeProvince(field))
  {
    if field.Some? {
      TrimmedIsPrintable(field.value);
      TrimmedIsPrintable(Collapse(field.value));
    }
    hide Trim;
  }

  lemma HeldIsPrintable(parts: Parts)
    ensures AllPrintable(Held(parts))
  {
    hide Clean, NormalizePostalCode, NormalizeProvince, Printable;
    CleanedIsPrintable(parts.street);
    CleanedIsPrintable(parts.streetNumber);
    CleanedIsPrintable(parts.city);
    CleanedIsPrintable(parts.postalCode);
    CleanedIsPrintable(parts.province);
  }

  lemma NormalizedIsPrintable(s: string)
    ensures Printable(OrNull(NormalizeCase(TrimSeparators(s))))
  {
    var x := TrimRight(TrimLeft(Collapse(s), Separator), Separator);
    var t := TrimSeparators(s);
    TrimmedIsPrintable(x);
    assert t == Trim(x);
    hide TrimSeparators, NormalizeCase, IsSpace, Trim;
    HeadOfNormalized(t);
  }

  lemma HeadOfNormalized(t: string)
    ensures t != "" ==> NormalizeCase(t)[0] == t[0] || NormalizeCase(t)[0] == Upper(t[0])
    ensures t != "" && !IsSpace(t[0]) ==> !IsSpace(NormalizeCase(t)[0])
  {
    if t != "" && !IsSpace(t[0]) { LettersAreNotBlank(t[0]); }
  }

  lemma LettersAreNotBlank(c: char)
    requires !IsSpace(c)
    ensures !IsSpace(Upper(c))
  {
  }

  lemma ParsedIsPrintable(raw: Option<string>)
    ensures AllPrintable(ParseAddressLine(raw))
  {
    hide Clean, TrimSeparators, NormalizeCase, FindCap, FindNumber, FindParen, FindTrailing, BlankParens, IsSigla;
    var text := Clean(raw);
    if text != "" {
      var (province, rest) := TakeProvince(text);
      ProvinceIsPrintable(text);
      RestIsPrintable(rest, province);
    }
  }

  lemma ProvinceIsPrintable(text: string)
    ensures Printable(OrNull(TakeProvince(text).0))
  {
    var pr := TakeProvince(text).0;
    assert pr != "" ==> IsSigla(pr);
    hide TakeProvince, UpperAll;
    if pr != "" { SiglaFacts(pr); }
  }

  lemma RestIsPrintable(text: string, province: string)
    requires Printable(OrNull(province))
    ensures AllPrintable(ParseRest(text, province))
  {
    var split := SplitStreetFromCity(text);
    StreetIsPrintable(split.streetPart);
    NumberIsPrintable(TrimSeparators(split.streetPart));
    NormalizedIsPrintable(BlankParens(split.cityPart));
    CapIsPrintable(text);
    hide SplitStreetFromCity, TakeNumber, TrimSeparators, NormalizeCase, BlankParens, UpperAll, Printable;
  }

  lemma CapIsPrintable(text: string)
    ensures Printable(OrNull(SplitStreetFromCity(text).postalCode))
  {
    hide CityComma;
  }

  lemma StreetIsPrintable(part: string)
    ensures Printable(OrNull(NormalizeCase(TakeNumber(TrimSeparators(part)).0)))
  {
    hide TrimSeparators, NormalizeCase, RemoveSpaces, NumberAt;
    var street := TrimSeparators(part);
    NormalizedIsPrintable(part);
    var hit := FindNumber(street);
    if hit.Some? { NormalizedIsPrintable(street[..hit.value]); }
  }

  lemma NumberIsPrintable(street: string)
    ensures Printable(OrNull(UpperAll(TakeNumber(street).1)))
  {
    hide TrimSeparators, CivicToken, IsSpace;
    var n := TakeNumber(street).1;
    if n != "" {
      assert n[0] in n;
      LettersAreNotBlank(n[0]);
    }
  }

  lemma MergedIsPrintable(line: Option<string>, parts: Parts, merged: Parts)
    requires Filled(merged, Held(parts), Offered(line), ADDRESS_PART_KEYS)
    ensures ComposeAddressLine(merged).Some? <==> merged != EMPTY_PARTS
  {
    hide ParseAddressLine, Clean, Held, Printable;
    HeldIsPrintable(parts);
    ParsedIsPrintable(Some(Clean(line)));
    assert AllPrintable(Offered(line)) by { NothingIsPrintable(); }
    FilledIsPrintable(merged, Held(parts), Offered(line));
    PrintablePartsMakeALine(merged);
  }

  lemma NothingIsPrintable()
    ensures AllPrintable(EMPTY_PARTS)
  {
  }

  lemma FilledIsPrintable(merged: Parts, held: Parts, offered: Parts)
    requires Filled(merged, held, offered, ADDRESS_PART_KEYS)
    requires AllPrintable(held) && AllPrintable(offered)
    ensures AllPrintable(merged)
  {
    hide Printable;
    assert merged.street == Get(merged, StreetKey);
    assert merged.streetNumber == Get(merged, StreetNumberKey);
    assert merged.city == Get(merged, CityKey);
    assert merged.postalCode == Get(merged, PostalCodeKey);
    assert merged.province == Get(merged, ProvinceKey);
  }

  // ----- Reconciling what already agrees -----

  /** Fields of their own shape are held as they are. */
  lemma FieldsAreHeld(p: Parts)
    requires SolidFields(p) && (p.postalCode.Some? ==> IsPostalCode(p.postalCode.value))
    ensures Held(p) == p
  {
    hide IsPostalCode, Solid;
    CleanSolid(p.street);
    CleanSolid(p.streetNumber);
    CleanSolid(p.city);
    hide Clean;
    if p.postalCode.Some? { SolidIsTrimmed(p.postalCode.value); }
    if p.province.Some? { SolidIsTrimmed(p.province.value); }
    hide Trim;
  }

  lemma SolidIsTrimmed(s: string)
    requires Solid(s)
    ensures Trim(s) == s
  {
    TrimBare(s);
  }

  /** Off that domain the round trip fails: a city printed alone is read back as a street. */
  lemma LoneCityIsReadAsStreet(c: string, province: Option<string>)
    requires NameShape(c) && FindCap(c).None?
    requires province.Some? ==> IsSigla(province.value)
    ensures var p := EMPTY_PARTS.(city := Some(c), province := province);
      province.Some? ==> ParseAddressLine(ComposeAddressLine(p)).street.Some?
    ensures var p := EMPTY_PARTS.(city := Some(c), province := province);
      ParseAddressLine(ComposeAddressLine(p)) != p
  {
    hide NameShape, IsSigla, ParseAddressLine, ComposeAddressLine, Line, EndsInSigla, ParseRest;
    var p := EMPTY_PARTS.(city := Some(c), province := province);
    RoundTrip(p);
    if province.Some? {
      ParseIsRest(p);
      RestOfLoneCity(p);
      CityWithoutStreet(p);
    }
  }

  lemma RestOfLoneCity(p: Parts)
    requires FieldsOk(p) && p == EMPTY_PARTS.(city := p.city, province := p.province)
    requires p.city.Some? && FindCap(p.city.value).None?
    ensures FindCap(Rest(p)).None?
  {
    hide NameShape, IsSigla, Clean, SolidFields;
    FieldsAreSolid(p);
    PrintedFields(p);
    var pad := Pad(StreetLine(p), CityBase(p), p.province);
    NoCapWithoutDigits(pad);
    CapConcat(p.city.value, pad);
    hide FindCap, Pad;
    assert Rest(p) == p.city.value + pad;
  }

  // ----- Reconciling an address with its own line -----

  /** The street as the parser cuts it off the printed line; only a city without a CAP can move the cut. */
  function CutStreet(p: Parts): string {
    if p.city.Some? && p.postalCode.None? then TrimSeparators(SplitStreetFromCity(Rest(p)).streetPart)
    else p.street.GetOr("")
  }

  /** No field that is missing is read out of the printed line. */
  predicate FillsNoGap(p: Parts) {
    && (p.province.None? ==> !EndsInSigla(Line(p)))
    && (p.street.None? ==> p.streetNumber.None? && (p.city.Some? ==> p.postalCode.Some?))
    && (p.city.Some? && p.postalCode.None? ==> FindCap(p.city.value).None?)
    && (p == EMPTY_PARTS.(street := p.street) && p.street.Some? ==> CityComma(p.street.value).None?)
    && (p.street.Some? && p.streetNumber.None? ==> FindNumber(CutStreet(p)).None?)
  }

  predicate NoGapIn(held: Parts, offered: Parts) {
    forall key :: !Gap(held, offered, key)
  }

  lemma NoGapsAtAll(held: Parts, offered: Parts)
    ensures Gaps(held, offered, ADDRESS_PART_KEYS) == [] <==> NoGapIn(held, offered)
    ensures forall r :: Filled(r, held, offered, ADDRESS_PART_KEYS) ==> (r == held <==> NoGapIn(held, offered))
  {
    var gaps := Gaps(held, offered, ADDRESS_PART_KEYS);
    assert forall key :: key in ADDRESS_PART_KEYS by { EveryKeyIsListed(); }
    hide Gaps, Get, ADDRESS_PART_KEYS;
    if !NoGapIn(held, offered) {
      var key :| Gap(held, offered, key);
      assert key in gaps;
    }
    assert gaps != [] ==> gaps[0] in gaps;
    forall r | Filled(r, held, offered, ADDRESS_PART_KEYS) ensures r == held <==> NoGapIn(held, offered) {
      if NoGapIn(held, offered) {
        forall key ensures Get(r, key) == Get(held, key) {
          assert !Gap(held, offered, key) && Get(r, key) == FilledPart(held, offered, ADDRESS_PART_KEYS, key);
        }
        SameParts(r, held);
      } else {
        var key :| Gap(held, offered, key);
        assert Get(r, key) == FilledPart(held, offered, ADDRESS_PART_KEYS, key);
      }
    }
  }

  lemma EveryKeyIsListed()
    ensures forall key :: key in ADDRESS_PART_KEYS
  {
    forall key: Key ensures key in ADDRESS_PART_KEYS {
      var i := match key case StreetKey => 0 case StreetNumberKey => 1 case CityKey => 2 case PostalCodeKey => 3
        case ProvinceKey => 4;
      assert ADDRESS_PART_KEYS[i] == key;
    }
  }

  lemma SameParts(a: Parts, b: Parts)
    requires forall key :: Get(a, key) == Get(b, key)
    ensures a == b
  {
    assert Get(a, StreetKey) == Get(b, StreetKey) && Get(a, StreetNumberKey) == Get(b, StreetNumberKey);
    assert Get(a, CityKey) == Get(b, CityKey) && Get(a, PostalCodeKey) == Get(b, PostalCodeKey);
    assert Get(a, ProvinceKey) == Get(b, ProvinceKey);
  }

  lemma NoGapIs(p: Parts, q: Parts)
    ensures NoGapIn(p, q) <==>
      && (p.street.None? ==> q.street.None?) && (p.streetNumber.None? ==> q.streetNumber.None?)
      && (p.city.None? ==> q.city.None?) && (p.postalCode.None? ==> q.postalCode.None?)
      && (p.province.None? ==> q.province.None?)
  {
    assert Gap(p, q, StreetKey) <==> p.street.None? && q.street.Some?;
    assert Gap(p, q, StreetNumberKey) <==> p.streetNumber.None? && q.streetNumber.Some?;
    assert Gap(p, q, CityKey) <==> p.city.None? && q.city.Some?;
    assert Gap(p, q, PostalCodeKey) <==> p.postalCode.None? && q.postalCode.Some?;
    assert Gap(p, q, ProvinceKey) <==> p.province.None? && q.province.Some?;
  }

  /** The number read is that of the cut, and there is one exactly when the cut ends in one. */
  lemma NumberOfCut(text: string, pr: string)
    ensures ParseRest(text, pr).streetNumber.Some? <==>
      FindNumber(TrimSeparators(SplitStreetFromCity(text).streetPart)).Some?
    ensures ParseRest(text, pr).province == OrNull(pr)
    ensures ParseRest(text, pr).postalCode.Some? <==> FindCap(text).Some?
  {
    CapOfCut(text);
    NumberIsTaken(TrimSeparators(SplitStreetFromCity(text).streetPart));
    hide TrimSeparators, NormalizeCase, FindCap, FindNumber, TakeNumber, SplitStreetFromCity;
  }

  lemma CapOfCut(text: string)
    ensures SplitStreetFromCity(text).postalCode != "" <==> FindCap(text).Some?
  {
    hide CityComma;
  }

  lemma NumberIsTaken(street: string)
    ensures TakeNumber(street).1 != "" <==> FindNumber(street).Some?
  {
    if FindNumber(street).Some? { TakenNumberIsNotEmpty(street); }
  }

  /** A five-digit group of the city is one of the line. */
  lemma CapInside(a: string, c: string, b: string)
    requires a == "" || !IsDigit(a[|a| - 1])
    requires b == "" || !IsDigit(b[0])
    requires FindCap(c).Some?
    ensures FindCap(a + c + b).Some?
  {
    var s := a + c + b;
    var i :| 0 <= i <= |c| && CapAt(c, i);
    assert forall k :: 0 <= k < |c| ==> s[|a| + k] == c[k];
    assert |a| > 0 ==> s[|a| - 1] == a[|a| - 1];
    assert b != "" ==> s[|a| + |c|] == b[0];
    assert CapAt(s, |a| + i);
  }

  lemma CapAmongSeparators(lead: string, c: string, pad: string)
    requires FindCap(lead).None? && (lead == "" || !IsDigit(lead[|lead| - 1])) && Separator.Covers(pad)
    ensures FindCap(lead + c + pad).Some? <==> FindCap(c).Some?
  {
    assert pad != "" ==> pad[0] in pad;
    NoCapWithoutDigits(pad);
    hide FindCap;
    if FindCap(c).Some? {
      CapInside(lead, c, pad);
    } else {
      CapConcat(lead, c);
      CapConcat(lead + c, pad);
    }
  }

  lemma LeadHoldsNoCap(street: string)
    requires FindCap(street).None?
    ensures FindCap(street + ", ").None?
  {
    NoCapWithoutDigits(", ");
    CapConcat(street, ", ");
  }

  lemma CityCap(p: Parts)
    requires FieldsOk(p) && p.city.Some? && p.postalCode.None?
    ensures FindCap(Rest(p)).Some? <==> FindCap(p.city.value).Some?
  {
    assert p.city.value != "";
    FieldsAreSolid(p);
    PrintedFields(p);
    StreetLineHoldsNoCap(p);
    hide SolidFields, Clean, FieldsOk, FindCap, Line, StreetLine, CityBase, Pad;
    var street := StreetLine(p);
    var lead := if street == "" then "" else street + ", ";
    var c, pad := p.city.value, Pad(street, CityBase(p), p.province);
    assert CityBase(p) == c && Front(p) == lead + c;
    LeadHoldsNoCap(street);
    CapAmongSeparators(lead, c, pad);
  }

  /** Where the cut falls where the fields meet, only a number at the end of the street can fill a gap. */
  lemma MeetingCutGaps(p: Parts)
    requires FieldsOk(p) && p != EMPTY_PARTS && CutWhereFieldsMeet(p)
    requires p.province.None? ==> !EndsInSigla(Line(p))
    ensures NoGapIn(p, ParseRest(Rest(p), p.province.GetOr(""))) <==>
      (p.street.Some? && p.streetNumber.None? ==> FindNumber(CutStreet(p)).None?)
  {
    hide SolidFields, Clean, StreetShape, NameShape, NumberShape, IsSigla, IsPostalCode, Line, FindCap, TrimSeparators,
      NormalizeCase, CityComma, HasDigit, Front, Pad, ParseRest, FindNumber, TakeNumber;
    FieldsAreSolid(p);
    PrintedFields(p);
    CutReadsBack(p);
    FieldValuesAreFixed(p);
    var text, pr := Rest(p), p.province.GetOr("");
    var (street, n) := TakeNumber(StreetLine(p));
    RestFromCut(text, StreetLine(p), p.postalCode.GetOr(""), p.city.GetOr(""), street, n, pr);
    NumberOfCut(text, pr);
    NoGapIs(p, ParseRest(text, pr));
    if p.street.None? {
      assert StreetLine(p) == "";
      NothingInNothing();
    }
  }

  lemma NothingInNothing()
    ensures FindNumber("").None? && TakeNumber("") == ("", "")
    ensures NormalizeCase("") == ""
  {
  }

  /** Where it does not, what the parser reads instead. */
  lemma StrayCutGaps(p: Parts)
    requires FieldsOk(p) && p != EMPTY_PARTS && !CutWhereFieldsMeet(p)
    requires p.province.None? ==> !EndsInSigla(Line(p))
    ensures NoGapIn(p, ParseRest(Rest(p), p.province.GetOr(""))) <==> FillsNoGap(p)
  {
    hide Clean, StreetShape, NameShape, NumberShape, IsSigla, IsPostalCode, Line, FindCap, TrimSeparators, EndsInSigla,
      NormalizeCase, CityComma, HasDigit, Rest, ParseRest, FindNumber, TakeNumber, SplitStreetFromCity;
    var text, pr := Rest(p), p.province.GetOr("");
    NumberOfCut(text, pr);
    NoGapIs(p, ParseRest(text, pr));
    if p.streetNumber.Some? && p.street.None? {
      NumberWithoutStreet(p);
    } else if p.city.Some? && p.postalCode.None? {
      CityCap(p);
      if p.street.None? && FindCap(text).None? { CityWithoutStreet(p); }
    } else {
      CommaInStreet(p);
    }
  }

  /**
   * Merging well-formed fields with the line printed from them is a no-op exactly when
   * the line fills no gap; fields that are placed are a special case.
   */
  lemma OwnLineIsFixpointIff(p: Parts)
    requires FieldsOk(p)
    ensures var offered := Offered(ComposeAddressLine(p));
      && (Gaps(Held(p), offered, ADDRESS_PART_KEYS) == [] <==> FillsNoGap(p))
      && (forall r :: Filled(r, Held(p), offered, ADDRESS_PART_KEYS) ==> (r == p <==> FillsNoGap(p)))
  {
    var offered := Offered(ComposeAddressLine(p));
    hide StreetShape, NumberShape, NameShape, ParseAddressLine, Line, Held, IsPostalCode, IsSigla, SolidFields;
    FieldsAreSolid(p);
    FieldsAreHeld(p);
    LineIsClean(p);
    LineIsEmpty(p);
    assert offered == if p == EMPTY_PARTS then EMPTY_PARTS else ParseAddressLine(ComposeAddressLine(p)) by {
      hide Clean;
    }
    NoGapsAtAll(p, offered);
    hide Offered, ComposeAddressLine, FillsNoGap;
    OwnLineGaps(p);
  }

  lemma OwnLineGaps(p: Parts)
    requires FieldsOk(p)
    ensures p != EMPTY_PARTS ==> (NoGapIn(p, ParseAddressLine(ComposeAddressLine(p))) <==> FillsNoGap(p))
    ensures p == EMPTY_PARTS ==> FillsNoGap(p) && NoGapIn(p, EMPTY_PARTS)
  {
    if p == EMPTY_PARTS {
      EmptyFillsNoGap();
    } else if p.province.None? && EndsInSigla(Line(p)) {
      SiglaIsTaken(p);
      hide ParseAddressLine, ComposeAddressLine, FieldsOk, EndsInSigla, Line;
      NoGapIs(p, ParseAddressLine(ComposeAddressLine(p)));
    } else {
      ParseIsRest(p);
      hide ParseAddressLine, ComposeAddressLine, FieldsOk, EndsInSigla, Line, NoGapIn;
      if CutWhereFieldsMeet(p) {
        MeetingCutGaps(p);
        MeetingCutFillsNoGap(p);
      } else {
        StrayCutGaps(p);
      }
    }
  }

  lemma EmptyFillsNoGap()
    ensures FillsNoGap(EMPTY_PARTS) && NoGapIn(EMPTY_PARTS, EMPTY_PARTS)
  {
    assert Line(EMPTY_PARTS) == "";
  }

  lemma MeetingCutFillsNoGap(p: Parts)
    requires CutWhereFieldsMeet(p) && (p.province.None? ==> !EndsInSigla(Line(p)))
    ensures FillsNoGap(p) <==> (p.street.Some? && p.streetNumber.None? ==> FindNumber(CutStreet(p)).None?)
  {
    hide EndsInSigla, Line, CutStreet, FindNumber, CityComma, HasDigit, FindCap;
    if p.city.Some? && p.postalCode.None? { NoCapWithoutDigits(p.city.value); }
  }

  /** Placed fields are a special case, whatever case their names are printed in. */
  lemma OwnLineIsFixpoint(p: Parts)
    requires FieldsOk(p) && Placed(p)
    ensures Offered(ComposeAddressLine(p)) == p <==> CaseKept(p)
    ensures Gaps(Held(p), Offered(ComposeAddressLine(p)), ADDRESS_PART_KEYS) == []
    ensures forall r :: Filled(r, Held(p), Offered(ComposeAddressLine(p)), ADDRESS_PART_KEYS) ==> r == p
  {
    OwnLineIsFixpointIff(p);
    PlacedFillsNoGap(p);
    RoundTrip(p);
    FieldsAreSolid(p);
    hide FieldsOk, Placed, CaseKept, FillsNoGap, Held, Filled, Gaps, ParseAddressLine, SolidFields;
    if p == EMPTY_PARTS {
      NothingOffered(p);
    } else {
      OwnLineOffers(p);
    }
  }

  lemma NothingOffered(p: Parts)
    requires p == EMPTY_PARTS
    ensures Offered(ComposeAddressLine(p)) == EMPTY_PARTS == ParseAddressLine(ComposeAddressLine(p))
  {
    assert Line(p) == "";
  }

  lemma PlacedFillsNoGap(p: Parts)
    requires FieldsOk(p) && Placed(p)
    ensures FillsNoGap(p)
  {
    MeetingCutFillsNoGap(p);
    FieldsAreSolid(p);
    PrintedFields(p);
    CutReadsBack(p);
    hide SolidFields, FieldsOk, CutWhereFieldsMeet, FillsNoGap, EndsInSigla, Line, FindNumber, TrimSeparators,
      SplitStreetFromCity, Clean, StreetLine;
  }

  lemma PlainName(c: string)
    requires c == "Milano"
    ensures NameShape(c) && !HasDigit(c)
  {
    assert |c| == 6 && c[0] == 'M' && c[1] == 'i' && c[2] == 'l' && c[3] == 'a' && c[4] == 'n' && c[5] == 'o';
    assert UpperAll(c)[1] == 'I';
  }

  lemma NoTrailingSigla(c: string)
    requires c == "Milano"
    ensures !EndsInSigla(c)
  {
    var u := TrimRight(c, Space);
    assert |c| == 6 && c[5] == 'o' && c[3] == 'a';
    assert u == c;
  }

  lemma LineOfLoneCity(p: Parts)
    requires SolidFields(p) && p == EMPTY_PARTS.(city := p.city) && p.city.Some?
    ensures Line(p) == p.city.value
  {
    hide SolidFields, Clean;
    PrintedFields(p);
    LineShape(p);
  }

  lemma OwnLineOffers(p: Parts)
    requires SolidFields(p) && p != EMPTY_PARTS
    ensures Offered(ComposeAddressLine(p)) == ParseAddressLine(ComposeAddressLine(p))
  {
    LineIsClean(p);
    LineIsEmpty(p);
    hide SolidFields, Line, ParseAddressLine, Clean;
  }

  /** A bill that holds a city and nothing else is given a street by its own line. */
  lemma LoneCityGainsAStreet(c: string)
    requires NameShape(c) && FindCap(c).None? && !EndsInSigla(c)
    ensures var p := EMPTY_PARTS.(city := Some(c));
      StreetKey in Gaps(Held(p), Offered(ComposeAddressLine(p)), ADDRESS_PART_KEYS)
  {
    var p := EMPTY_PARTS.(city := Some(c));
    assert FieldsOk(p) && p != EMPTY_PARTS && p == EMPTY_PARTS.(city := p.city);
    assert p.street.None? && p.streetNumber.None? && p.postalCode.None? && p.city == Some(c);
    assert p.province.None?;
    hide *;
    FieldsAreSolid(p);
    FieldsAreHeld(p);
    LineOfLoneCity(p);
    OwnLineOffers(p);
    ParseIsRest(p);
    CityCap(p);
    CityWithoutStreet(p);
    StreetGap(p, Offered(ComposeAddressLine(p)));
  }

  lemma StreetGap(held: Parts, offered: Parts)
    requires held.street.None? && offered.street.Some?
    ensures StreetKey in Gaps(held, offered, ADDRESS_PART_KEYS)
  {
    EveryKeyIsListed();
    assert Gap(held, offered, StreetKey);
  }

  lemma MilanoGainsAStreet()
    ensures var p := EMPTY_PARTS.(city := Some("Milano"));
      && FieldsOk(p) && !FillsNoGap(p)
      && StreetKey in Gaps(Held(p), Offered(ComposeAddressLine(p)), ADDRESS_PART_KEYS)
  {
    PlainName("Milano");
    NoTrailingSigla("Milano");
    NoCapWithoutDigits("Milano");
    hide NameShape, EndsInSigla, HasDigit, FindCap, Held, Offered, Gaps, ComposeAddressLine;
    LoneCityGainsAStreet("Milano");
  }
}
