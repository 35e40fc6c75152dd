/**
 * What a value a request sends is stored as: the fields of an address and the
 * contract details of a case (applyAddressFields and applyContractDetailFields
 * of src/modules/cases/cases.service.ts), and the address columns of a bill
 * (adminUpdateBill of src/modules/bills/bills.service.ts).
 */
module StoredValues {
  import opened Wrappers
  import opened Text
  import opened Address
  import ChangeLog
  import BillAddress
  import opened CaseFields
  import Reconcile

  // ----- Blanks around a value and inside it -----

  /** Blanks around a word are dropped, and nothing else is. */
  lemma TrimKeepsTheWord(l: string, t: string, r: string)
    requires Space.Covers(l) && Space.Covers(r) && Bare(t, Space)
    ensures Trim(l + t + r) == t
  {
    hide IsSpace;
    assert l + t + r == l + (t + r);
    TrimLeftPad(l, t + r, Space);
    if t == "" {
      assert t + r == r + "";
      TrimLeftPad(r, "", Space);
    } else {
      TrimLeftBare(t, r, Space);
      TrimRightPad(t, r, Space);
      TrimBare(t);
    }
  }

  /** `s` is one of the two identifiers of the holder: written without blanks, in capitals. */
  predicate IsIdentifier(column: CaseColumn) {
    column == Iban || column == IbanHolderTaxCode
  }

  /** A column whose words are stored as they are sent, but for the blanks around them. */
  predicate IsProse(column: CaseColumn) {
    match column
    case At(_, field) => field != PostalCode
    case PaymentMethod => true
    case InvoiceDelivery => true
    case InvoiceEmail => true
    case IbanSameAsContract => true
    case IbanHolderFirstName => true
    case IbanHolderLastName => true
    case _ => false
  }

  lemma WordsAreStoredTrimmed(column: CaseColumn, l: string, t: string, r: string)
    requires IsProse(column) && Space.Covers(l) && Space.Covers(r) && Bare(t, Space)
    ensures Normalized(column, Words(l + t + r)) == if t == "" then Null else Words(t)
  {
    hide *;
    TrimKeepsTheWord(l, t, r);
    ProseStep(column, l + t + r);
  }

  lemma ProseStep(column: CaseColumn, s: string)
    requires IsProse(column)
    ensures Normalized(column, Words(s)) == if Trim(s) == "" then Null else Words(Trim(s))
  {
    hide Trim;
  }

  lemma CapStep(s: string)
    ensures NormalizePostalCode(Some(s)) ==
      if |Trim(s)| == 5 && forall i :: 0 <= i < 5 ==> '0' <= Trim(s)[i] <= '9' then Some(Trim(s)) else None
  {
    hide Trim;
    FiveDigits(Trim(s));
  }

  lemma FiveDigits(t: string)
    ensures IsPostalCode(t) <==> |t| == 5 && forall i :: 0 <= i < 5 ==> '0' <= t[i] <= '9'
  {
    assert IsPostalCode(t) <==> |t| == 5 && forall i :: 0 <= i < |t| ==> Digit.Has(t[i]);
  }

  lemma CapColumnStep(block: Block, s: string)
    ensures Normalized(At(block, PostalCode), Words(s)) == FromOption(NormalizePostalCode(Some(s)))
  {
    hide NormalizePostalCode;
  }

  /** A CAP is stored if it is five digits, blanks around it aside; anything else clears the column. */
  lemma CapsAreStoredWhole(block: Block, l: string, t: string, r: string)
    requires Space.Covers(l) && Space.Covers(r) && Bare(t, Space)
    ensures Normalized(At(block, PostalCode), Words(l + t + r)) ==
      if |t| == 5 && forall i :: 0 <= i < 5 ==> '0' <= t[i] <= '9' then Words(t) else Null
  {
    hide Trim, Bare, NormalizePostalCode, Normalized, Class.Covers;
    TrimKeepsTheWord(l, t, r);
    CapColumnStep(block, l + t + r);
    CapStep(l + t + r);
  }

  /** A flag is stored as it is sent, and a null clears any other column. */
  lemma FlagsAndNulls(column: CaseColumn, on: bool)
    ensures column.SameAsSupply? || column == IbanSameAsContract ==> Normalized(column, Flag(on)) == Flag(on)
    ensures !column.SameAsSupply? ==> Normalized(column, Null) == Null
  {
  }

  lemma {:induction false} RemoveSpacesConcat(a: string, b: string)
    ensures RemoveSpaces(a + b) == RemoveSpaces(a) + RemoveSpaces(b)
  {
    hide IsSpace;
    if a == "" {
      assert a + b == b;
    } else {
      assert (a + b)[1..] == a[1..] + b;
      RemoveSpacesConcat(a[1..], b);
    }
  }

  lemma {:induction false} SolidHasNoSpaces(s: string)
    requires forall i :: 0 <= i < |s| ==> !IsSpace(s[i])
    ensures RemoveSpaces(s) == s
  {
    hide IsSpace;
    if s != "" { SolidHasNoSpaces(s[1..]); }
  }

  /** An identifier without blanks is stored in capitals, letter for letter; an empty one clears the column. */
  lemma IdentifiersAreStoredInCapitals(column: CaseColumn, t: string)
    requires IsIdentifier(column) && forall i :: 0 <= i < |t| ==> !IsSpace(t[i])
    ensures t == "" ==> Normalized(column, Words(t)) == Null
    ensures t != "" ==>
      var stored := Normalized(column, Words(t));
      && stored.Words? && |stored.text| == |t|
      && forall i :: 0 <= i < |t| ==>
           stored.text[i] ==
             if 'a' <= t[i] <= 'z' then (t[i] as int - 'a' as int + 'A' as int) as char else t[i]
  {
    SolidHasNoSpaces(t);
    IdentifierStep(column, t);
    hide RemoveSpaces, IsSpace, Normalized, UpperAll;
    assert forall i :: 0 <= i < |t| ==> UpperAll(t)[i] == Upper(t[i]);
  }

  lemma IdentifierStep(column: CaseColumn, s: string)
    requires IsIdentifier(column)
    ensures Normalized(column, Words(s)) ==
      if UpperAll(RemoveSpaces(s)) == "" then Null else Words(UpperAll(RemoveSpaces(s)))
  {
    hide RemoveSpaces, UpperAll;
  }

  /** Where the blanks stand in an identifier does not matter. */
  lemma BlanksInIdentifiers(column: CaseColumn, a: string, c: char, b: string)
    requires IsIdentifier(column) && IsSpace(c)
    ensures Normalized(column, Words(a + [c] + b)) == Normalized(column, Words(a + b))
  {
    RemoveSpacesConcat(a + [c], b);
    RemoveSpacesConcat(a, [c]);
    RemoveSpacesConcat(a, b);
    assert RemoveSpaces([c]) == "";
    assert RemoveSpaces(a) + "" == RemoveSpaces(a);
    assert RemoveSpaces(a + [c] + b) == RemoveSpaces(a + b);
    hide RemoveSpaces, IsSpace;
  }

  // ----- What a request leaves in a case -----

  /** What a request does not send stays, but for the copies of the supply address. */
  lemma UnsentIsKept(before: Columns, dto: Columns, after: Columns, k: CaseColumn)
    requires IsSaved(before, dto, after) && k !in dto
    requires k.At? ==> !IsOn(after, k.block)
    ensures Read(after, k) == Read(before, k)
  {
    hide Normalized;
    assert Read(after, k) == Saved(before, dto, k);
    if k.At? && k.block != Supply {
      assert Read(after, SameAsSupply(k.block)) == Saved(before, dto, SameAsSupply(k.block));
    }
  }

  /** What it sends is stored, normalised, but for the fields of a block that copies the supply address. */
  lemma SentIsStored(before: Columns, dto: Columns, after: Columns, k: CaseColumn)
    requires IsSaved(before, dto, after) && k in dto && k != SameAsSupply(Supply)
    requires k.At? ==> !IsOn(after, k.block)
    ensures Read(after, k) == Normalized(k, dto[k])
  {
    hide Normalized;
    assert Read(after, k) == Saved(before, dto, k);
    if k.At? && k.block != Supply {
      assert Read(after, SameAsSupply(k.block)) == Saved(before, dto, SameAsSupply(k.block));
    }
  }

  /** The log names a column for a value that differs, or that differed for a moment. */
  lemma LogNamesTheMoved(before: Columns, dto: Columns, after: Columns, k: CaseColumn)
    requires IsSaved(before, dto, after) && (k.At? || k == SameAsSupply(Residential) || k == SameAsSupply(Shipping))
    ensures Read(after, k) != Read(before, k) ==> IsLogged(before, dto, k)
    ensures IsLogged(before, dto, k) ==>
      var entry := Entry(before, dto, k);
      && entry.next == Read(after, k)
      && (entry.previous == Read(before, k) || (k in dto && entry.previous == Normalized(k, dto[k])))
    ensures IsLogged(before, dto, k) && Read(after, k) == Read(before, k) ==>
      k.At? && IsOn(after, k.block) && k in dto && Normalized(k, dto[k]) != Read(after, k)
  {
    hide Normalized;
    assert Read(after, k) == Saved(before, dto, k);
    if k.At? {
      assert Read(after, SameAsSupply(k.block)) == Saved(before, dto, SameAsSupply(k.block));
      assert Read(after, At(Supply, k.field)) == Saved(before, dto, At(Supply, k.field));
    }
  }

  // ----- What a request leaves in a bill -----

  /** Street, number, city and the line are stored as sent. */
  lemma BillWordsAreStored(c: BillAddress.BillColumn, value: Option<string>)
    requires c == BillAddress.LineColumn || c.key in {Reconcile.StreetKey, Reconcile.StreetNumberKey, Reconcile.CityKey}
    ensures BillAddress.Normalized(c, value) == value
  {
  }

  /** A province is stored without the blanks around it, a CAP if it is five digits; nothing and blanks clear both. */
  lemma BillCodesAreStored(l: string, t: string, r: string)
    requires Space.Covers(l) && Space.Covers(r) && Bare(t, Space)
    ensures BillAddress.Normalized(BillAddress.PartColumn(Reconcile.ProvinceKey), Some(l + t + r)) ==
      if t == "" then None else Some(t)
    ensures BillAddress.Normalized(BillAddress.PartColumn(Reconcile.PostalCodeKey), Some(l + t + r)) ==
      if |t| == 5 && forall i :: 0 <= i < 5 ==> '0' <= t[i] <= '9' then Some(t) else None
    ensures BillAddress.Normalized(BillAddress.PartColumn(Reconcile.ProvinceKey), None) == None
    ensures BillAddress.Normalized(BillAddress.PartColumn(Reconcile.PostalCodeKey), None) == None
  {
    assert NormalizePostalCode(None) == None;
    hide Trim, Bare, NormalizePostalCode, Class.Covers;
    TrimKeepsTheWord(l, t, r);
    CapStep(l + t + r);
  }

  /** The log of an edit: a column is named for a value that moved, or for a line that was written twice. */
  lemma BillLogNamesTheMoved(a: BillAddress.Views, dto: BillAddress.Dto, c: BillAddress.BillColumn)
    ensures
      var after := BillAddress.Synced(a, dto);
      var entry := BillAddress.Entry(a, dto, c);
      && (BillAddress.ValueOf(after, c) != BillAddress.ValueOf(a, c) ==> BillAddress.IsLogged(a, dto, c))
      && (BillAddress.IsLogged(a, dto, c) ==> entry.next == BillAddress.ValueOf(after, c))
      && (BillAddress.IsLogged(a, dto, c) && entry.previous != BillAddress.ValueOf(a, c) ==>
            c == BillAddress.LineColumn && c in dto && entry.previous == dto[c] && after.parts != a.parts)
      && (BillAddress.IsLogged(a, dto, c) && BillAddress.ValueOf(after, c) == BillAddress.ValueOf(a, c) ==>
            c == BillAddress.LineColumn && c in dto && dto[c] != a.line && after.parts != a.parts)
  {
    BillAddress.AllSentReads(a, dto, c);
    hide ComposeAddressLine, ParseAddressLine, Reconcile.Get;
  }
}
