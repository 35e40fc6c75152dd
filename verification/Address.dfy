/**
 * src/common/utils/address.utils.ts: the printer of a five-field address, the
 * parser of a printed line, and the merge that uses both.
 */
module Address {
  import opened Wrappers
  import opened Text

  datatype Parts = Parts(
    street: Option<string>,
    streetNumber: Option<string>,
    city: Option<string>,
    postalCode: Option<string>,
    province: Option<string>)

  const EMPTY_PARTS := Parts(None, None, None, None, None)

  // ----- The printer -----

  /** `value || null` */
  function OrNull(s: string): Option<string> {
    if s == "" then None else Some(s)
  }

  function Clean(value: Option<string>): string {
    match value
    case None => ""
    case Some(s) => Trim(Collapse(s))
  }

  /** `[a, b].filter(Boolean).join(sep)` */
  function Join(a: string, b: string, sep: string): string {
    if a == "" then b else if b == "" then a else a + sep + b
  }

  function StreetLine(p: Parts): string {
    Join(Clean(p.street), Clean(p.streetNumber), " ")
  }

  function CityBase(p: Parts): string {
    Join(Clean(p.postalCode), Clean(p.city), " ")
  }

  function Line(p: Parts): string {
    var province := Clean(p.province);
    var cityLine :=
      if province == "" then CityBase(p)
      else if CityBase(p) == "" then "(" + province + ")"
      else CityBase(p) + " (" + province + ")";
    Join(StreetLine(p), cityLine, ", ")
  }

  function ComposeAddressLine(p: Parts): Option<string> {
    OrNull(Line(p))
  }

  // ----- The normalizers -----

  predicate IsPostalCode(s: string) {
    |s| == 5 && Digit.Covers(s)
  }

  function NormalizePostalCode(value: Option<string>): Option<string> {
    match value
    case None => None
    case Some(s) => if IsPostalCode(Trim(s)) then Some(Trim(s)) else None
  }

  function NormalizeProvince(value: Option<string>): Option<string> {
    match value
    case None => None
    case Some(s) => OrNull(Trim(s))
  }

  function TrimSeparators(s: string): string {
    Trim(TrimRight(TrimLeft(Collapse(s), Separator), Separator))
  }

  /** Every blank-separated word with a capital and then small letters. */
  function TitleCase(s: string): (t: string)
    ensures |t| == |s|
    ensures forall i :: 0 <= i < |s| ==>
      t[i] == if i == 0 || s[i - 1] == ' ' then Upper(s[i]) else Lower(s[i])
  {
    seq(|s|, i requires 0 <= i < |s| =>
      if i == 0 || s[i - 1] == ' ' then Upper(s[i]) else Lower(s[i]))
  }

  /** Text printed all in capitals is title-cased, anything else is left alone. */
  function NormalizeCase(s: string): (t: string)
    ensures |t| == |s|
  {
    if s != UpperAll(s) then s else TitleCase(s)
  }

  /** The official two-letter sigle, by their first letter. */
  predicate IsSiglaPair(a: char, b: char) {
    match a
    case 'A' => b == 'G' || b == 'L' || b == 'N' || b == 'O' || b == 'P' || b == 'Q' || b == 'R' || b == 'T' || b == 'V'
    case 'B' =>
      || b == 'A' || b == 'G' || b == 'I' || b == 'L' || b == 'N' || b == 'O'
      || b == 'R' || b == 'S' || b == 'T' || b == 'Z'
    case 'C' =>
      || b == 'A' || b == 'B' || b == 'E' || b == 'H' || b == 'L' || b == 'N' || b == 'O'
      || b == 'R' || b == 'S' || b == 'T' || b == 'Z'
    case 'E' => b == 'N'
    case 'F' => b == 'C' || b == 'E' || b == 'G' || b == 'I' || b == 'M' || b == 'R'
    case 'G' => b == 'E' || b == 'O' || b == 'R'
    case 'I' => b == 'M' || b == 'S'
    case 'K' => b == 'R'
    case 'L' => b == 'C' || b == 'E' || b == 'I' || b == 'O' || b == 'T' || b == 'U'
    case 'M' => b == 'B' || b == 'C' || b == 'E' || b == 'I' || b == 'N' || b == 'O' || b == 'S' || b == 'T'
    case 'N' => b == 'A' || b == 'O' || b == 'U'
    case 'O' => b == 'R'
    case 'P' =>
      || b == 'A' || b == 'C' || b == 'D' || b == 'E' || b == 'G' || b == 'I' || b == 'N' || b == 'O'
      || b == 'R' || b == 'T' || b == 'U' || b == 'V' || b == 'Z'
    case 'R' => b == 'A' || b == 'C' || b == 'E' || b == 'G' || b == 'I' || b == 'M' || b == 'N' || b == 'O'
    case 'S' => b == 'A' || b == 'I' || b == 'O' || b == 'P' || b == 'R' || b == 'S' || b == 'U' || b == 'V'
    case 'T' => b == 'A' || b == 'E' || b == 'N' || b == 'O' || b == 'P' || b == 'R' || b == 'S' || b == 'V'
    case 'U' => b == 'D'
    case 'V' => b == 'A' || b == 'B' || b == 'C' || b == 'E' || b == 'I' || b == 'R' || b == 'T' || b == 'V'
    case _ => false
  }

  predicate IsSigla(s: string) {
    |s| == 2 && IsSiglaPair(s[0], s[1])
  }

  // ----- Province: a parenthesised pair anywhere, else a trailing pair -----

  /** A match of `\(\s*([A-Za-z]{2})\s*\)`: where it starts, its two letters, where it ends. */
  datatype ParenHit = ParenHit(start: nat, letters: nat, end: nat)

  function ParenAt(s: string, i: nat): (r: Option<ParenHit>)
    ensures r.Some? ==>
      r.value.start == i < r.value.letters && r.value.letters + 2 < r.value.end <= |s|
  {
    if i >= |s| || s[i] != '(' then None
    else
      var k := Span(s, i + 1, Space);
      if !(k + 2 <= |s| && IsLetter(s[k]) && IsLetter(s[k + 1])) then None
      else
        var m := Span(s, k + 2, Space);
        if m < |s| && s[m] == ')' then Some(ParenHit(i, k, m + 1)) else None
  }

  predicate IsParenAt(s: string, i: nat) { ParenAt(s, i).Some? }

  function FindParen(s: string): (r: Option<ParenHit>) {
    match First(IsParenAt, s, 0)
    case None => None
    case Some(i) => ParenAt(s, i)
  }

  /** Where `[\s,\-]([A-Za-z]{2})\s*$` matches. */
  function FindTrailing(s: string): (r: Option<nat>)
    ensures r.Some? ==> r.value + 3 <= |s|
  {
    var e := |TrimRight(s, Space)|;
    if 3 <= e && TokenLead.Has(s[e - 3]) && IsLetter(s[e - 2]) && IsLetter(s[e - 1])
    then Some(e - 3) else None
  }

  /** The province and the text without it. */
  function TakeProvince(text: string): (string, string) {
    var paren := FindParen(text);
    if paren.Some? && IsSigla(UpperAll(text[paren.value.letters..paren.value.letters + 2])) then
      (UpperAll(text[paren.value.letters..paren.value.letters + 2]),
       text[..paren.value.start] + " " + text[paren.value.end..])
    else
      var trailing := FindTrailing(text);
      if trailing.Some? && IsSigla(UpperAll(text[trailing.value + 1..trailing.value + 3])) then
        (UpperAll(text[trailing.value + 1..trailing.value + 3]), text[..trailing.value])
      else
        ("", text)
  }

  // ----- CAP: where the street line ends and the city line begins -----

  /** `(?<!\d)(\d{5})(?!\d)` matches at `i`. */
  predicate CapAt(s: string, i: nat) {
    && i + 5 <= |s|
    && (forall j :: i <= j < i + 5 ==> IsDigit(s[j]))
    && (i > 0 ==> !IsDigit(s[i - 1]))
    && (i + 5 < |s| ==> !IsDigit(s[i + 5]))
  }

  function FindCap(s: string): Option<nat> {
    First(CapAt, s, 0)
  }

  /** `s.lastIndexOf(',')`, looking only at the first `n` characters. */
  function LastComma(s: string, n: nat): (r: Option<nat>)
    requires n <= |s|
    ensures r.Some? ==> r.value < n && s[r.value] == ','
    ensures r.Some? ==> forall j :: r.value < j < n ==> s[j] != ','
    ensures r.None? ==> forall j :: 0 <= j < n ==> s[j] != ','
  {
    if n == 0 then None
    else if s[n - 1] == ',' then Some(n - 1)
    else LastComma(s, n - 1)
  }

  predicate HasDigit(s: string) {
    exists c :: c in s && IsDigit(c)
  }

  /** The comma at which a line without a CAP is split, if its tail can be a city. */
  function CityComma(s: string): (r: Option<nat>)
    ensures r.Some? ==> r.value < |s|
  {
    var comma := LastComma(s, |s|);
    if comma.Some? && comma.value > 0
      && Trim(s[comma.value + 1..]) != "" && !HasDigit(s[comma.value + 1..])
    then comma else None
  }

  datatype Split = Split(postalCode: string, streetPart: string, cityPart: string)

  function SplitStreetFromCity(text: string): Split {
    var cap := FindCap(text);
    if cap.Some? then
      Split(text[cap.value..cap.value + 5], text[..cap.value], text[cap.value + 5..])
    else
      var comma := CityComma(text);
      if comma.Some? then Split("", text[..comma.value], text[comma.value + 1..])
      else Split("", text, "")
  }

  // ----- Civic number: a trailing number token of the street part -----

  predicate IsBisOrTer(s: string) {
    |s| == 3 &&
    var (a, b, c) := (Upper(s[0]), Upper(s[1]), Upper(s[2]));
    (a == 'B' && b == 'I' && c == 'S') || (a == 'T' && b == 'E' && c == 'R')
  }

  /** `[A-Za-z]?(?:\s?(?:bis|ter))?` matches the whole of `s`, which starts with no blank. */
  predicate CivicSuffix(s: string) {
    || s == ""
    || IsBisOrTer(s)
    || (IsLetter(s[0]) &&
        (|s| == 1 || IsBisOrTer(s[1..]) || (IsSpace(s[1]) && IsBisOrTer(s[2..]))))
  }

  /** Where `\d+\s*[/-]?\s*` ends: the suffix of a civic token starts here. */
  function SuffixStart(s: string): (b: nat)
    ensures Span(s, 0, Digit) <= b <= |s|
    ensures forall i :: Span(s, 0, Digit) <= i < b ==> IsSpace(s[i]) || SlashDash.Has(s[i])
  {
    var a := Span(s, Span(s, 0, Digit), Space);
    if a < |s| && SlashDash.Has(s[a]) then Span(s, a + 1, Space) else a
  }

  /** `\d+\s*[/-]?\s*[A-Za-z]?(?:\s?(?:bis|ter))?\s*` matches the whole of `s`. */
  predicate CivicToken(s: string) {
    Span(s, 0, Digit) > 0 && CivicSuffix(TrimRight(s[SuffixStart(s)..], Space))
  }

  /** `[,\s]+` and then a civic token up to the end of `s` match at `i`. */
  predicate NumberAt(s: string, i: nat) {
    i < |s| && CommaSpace.Has(s[i]) && CivicToken(s[Span(s, i, CommaSpace)..])
  }

  function FindNumber(s: string): Option<nat> {
    First(NumberAt, s, 0)
  }

  function RemoveSpaces(s: string): (t: string)
    ensures |t| <= |s|
    ensures forall c :: c in t ==> c in s && !IsSpace(c)
  {
    if s == "" then ""
    else if IsSpace(s[0]) then RemoveSpaces(s[1..])
    else [s[0]] + RemoveSpaces(s[1..])
  }

  /** The street without its civic number, and the number. */
  function TakeNumber(street: string): (string, string) {
    var hit := FindNumber(street);
    if hit.Some? then
      (TrimSeparators(street[..hit.value]),
       RemoveSpaces(street[Span(street, hit.value, CommaSpace)..]))
    else (street, "")
  }

  // ----- The parser -----

  /** `cityPart.replace(/[()]/g, ' ')` */
  function BlankParens(s: string): (t: string)
    ensures |t| == |s|
    ensures forall i :: 0 <= i < |s| ==> t[i] == if s[i] == '(' || s[i] == ')' then ' ' else s[i]
  {
    seq(|s|, i requires 0 <= i < |s| => if s[i] == '(' || s[i] == ')' then ' ' else s[i])
  }

  /** What the parser reads once the province has been taken out of the line. */
  function ParseRest(text: string, province: string): Parts {
    var split := SplitStreetFromCity(text);
    var (street, number) := TakeNumber(TrimSeparators(split.streetPart));
    var city := TrimSeparators(BlankParens(split.cityPart));
    Parts(
      OrNull(NormalizeCase(street)),
      OrNull(UpperAll(number)),
      OrNull(NormalizeCase(city)),
      OrNull(split.postalCode),
      OrNull(province))
  }

  function ParseAddressLine(raw: Option<string>): Parts {
    var text := Clean(raw);
    if text == "" then EMPTY_PARTS
    else
      var (province, rest) := TakeProvince(text);
      ParseRest(rest, province)
  }
}
