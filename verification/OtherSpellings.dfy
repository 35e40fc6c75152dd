/**
 * Lines the printer of src/common/utils/address.utils.ts would not write and
 * its parser reads all the same: a province without brackets, wider blanks.
 */
module OtherSpellings {
  import opened Wrappers
  import opened Text
  import opened Address
  import opened PrintedLines
  import opened AddressRoundTrip
  import opened AddressPatterns

  // ----- Which pairs are provinces -----

  /** The second letters of the official sigle that begin with `a`. */
  function SecondLetters(a: char): string {
    match a
    case 'A' => "GLNORPTVQ"
    case 'B' => "ATLNGIOZSR"
    case 'C' => "ALBETZHOSRN"
    case 'E' => "N"
    case 'F' => "MEIGCR"
    case 'G' => "EOR"
    case 'I' => "MS"
    case 'K' => "R"
    case 'L' => "TECIOU"
    case 'M' => "CNSTEIOB"
    case 'N' => "AOU"
    case 'O' => "R"
    case 'P' => "DARVGUECITNZO"
    case 'R' => "GACEINMO"
    case 'S' => "PASVIROU"
    case 'T' => "AEROPNVS"
    case 'U' => "D"
    case 'V' => "AEBCRVIT"
    case _ => ""
  }

  lemma SiglaIff(s: string)
    ensures IsSigla(s) <==> |s| == 2 && s[1] in SecondLetters(s[0])
  {
  }

  // ----- A province without brackets -----

  lemma TakeBareProvince(front: string, lead: char, pr: string)
    requires '(' !in front && TokenLead.Has(lead) && IsSigla(pr)
    ensures TakeProvince(front + [lead] + pr) == (pr, front)
  {
    SiglaFacts(pr);
    var s := front + [lead] + pr;
    assert lead != '(' && pr[0] != '(' && pr[1] != '(';
    NoParen(s);
    TrailingIsFound(front, lead, pr, "");
    assert s + "" == s;
    hide FindTrailing, FindParen, IsSigla;
    assert s[|front| + 1..|front| + 3] == pr && s[..|front|] == front;
  }

  /** A bare sigla behind the rest of the line. */
  function BareLine(p: Parts): string {
    Front(p) + " " + p.province.GetOr("")
  }

  lemma BareLineIsClean(p: Parts)
    requires SolidFields(p) && Front(p) != "" && p.province.Some?
    ensures Clean(Some(BareLine(p))) == BareLine(p) && '(' !in Front(p) && BareLine(p) != ""
  {
    hide *;
    LinesAreSolid(p);
    ProvinceIsSolid(p);
    BareLineIs(p);
    SolidAround(Front(p), p.province.value);
  }

  lemma BareLineIs(p: Parts)
    requires p.province.Some?
    ensures BareLine(p) == Front(p) + " " + p.province.value
  {
    hide Front;
  }

  lemma SolidAround(f: string, pr: string)
    requires Solid(f) && Solid(pr) && f != "" && pr != ""
    ensures Clean(Some(f + " " + pr)) == f + " " + pr && '(' !in f && f + " " + pr != ""
  {
    hide Clean;
    TidyConcat(f, " ");
    TidyConcat(f + " ", pr);
    var s := f + " " + pr;
    assert s[0] == f[0] && s[|s| - 1] == pr[|pr| - 1];
    CleanIs(s);
  }

  lemma ProvinceIsSolid(p: Parts)
    requires SolidFields(p) && p.province.Some?
    ensures Solid(p.province.value) && p.province.value != ""
  {
  }

  /**
   * A line that ends in the sigla alone reads back like the printed one: a
   * street by itself must not be one a comma would cut, and nothing else is asked.
   */
  lemma BareSiglaReadsBack(p: Parts)
    requires FieldsOk(p) && Placed(p) && p.province.Some? && Front(p) != ""
    requires CutWhereFieldsMeet(p.(province := None))
    ensures ParseAddressLine(Some(BareLine(p))) == ParseAddressLine(ComposeAddressLine(p))
  {
    var q := p.(province := None);
    hide NormalizeCase, SolidFields, TakeProvince, ParseRest, Line, Cuts, TakeNumber, Front, StreetLine, CityBase, Clean,
      StreetShape, NumberShape, NameShape, IsPostalCode, IsSigla, EndsInSigla, CityComma, FindNumber, Respelled, Join;
    ReadsBack(p);
    FieldsAreSolid(p);
    PrintedFields(p);
    BareLineIsClean(p);
    TakeBareProvince(Front(p), ' ', p.province.value);
    FrontWithoutProvince(p);
    CutReadsBack(q);
    NumberReadsBack(p);
    FieldValuesAreFixed(p);
    assert Front(p) + "" == Front(p);
    RestFromCut(Front(p), StreetLine(p),
      p.postalCode.GetOr(""), p.city.GetOr(""), p.street.GetOr(""), p.streetNumber.GetOr(""), p.province.value);
    RespelledFields(p);
  }

  lemma RespelledFields(p: Parts)
    ensures Respelled(p) ==
      Parts(OrNull(NormalizeCase(p.street.GetOr(""))), p.streetNumber, OrNull(NormalizeCase(p.city.GetOr(""))),
            p.postalCode, p.province)
  {
    hide NormalizeCase;
  }

  lemma FrontWithoutProvince(p: Parts)
    ensures var q := p.(province := None);
      Front(q) == Front(p) && StreetLine(q) == StreetLine(p) && CityBase(q) == CityBase(p)
  {
    hide Clean;
  }
}
