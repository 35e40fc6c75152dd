/**
 * The field writers of src/modules/cases/cases.service.ts: applyAddressFields
 * and applyContractDetailFields, which normalise what a request supplies, keep
 * the address blocks coherent, and report what changed.
 */
module CaseFields {
  import opened Wrappers
  import opened Text
  import opened Address
  import opened ChangeLog

  datatype Block = Supply | Residential | Shipping
  datatype Field = Street | StreetNumber | City | PostalCode | Province

  /** A column of the case: one of the fifteen address columns, a flag, or a contract detail. */
  datatype CaseColumn =
    | At(block: Block, field: Field)
    | SameAsSupply(block: Block)
    | PaymentMethod | InvoiceDelivery | InvoiceEmail | Iban | IbanSameAsContract
    | IbanHolderFirstName | IbanHolderLastName | IbanHolderTaxCode

  datatype Value = Null | Words(text: string) | Flag(on: bool)

  type Columns = map<CaseColumn, Value>
  type Changes = map<CaseColumn, Change<Value>>

  /** `switchCase[field] ?? null` */
  function Read(columns: Columns, column: CaseColumn): Value {
    if column in columns then columns[column] else Null
  }

  predicate IsOn(columns: Columns, block: Block) {
    block != Supply && Read(columns, SameAsSupply(block)) == Flag(true)
  }

  // ----- Normalisation -----

  function FromOption(s: Option<string>): Value {
    if s.None? || s.value == "" then Null else Words(s.value)
  }

  function AsOption(v: Value): Option<string> {
    if v.Words? then Some(v.text) else None
  }

  /** `value?.trim() || null`, with a CAP of five digits or nothing. */
  function NormalizedAddress(field: Field, v: Value): Value {
    match field
    case PostalCode => FromOption(NormalizePostalCode(AsOption(v)))
    case Province => FromOption(NormalizeProvince(AsOption(v)))
    case _ => if v.Words? then FromOption(OrNull(Trim(v.text))) else Null
  }

  function Normalized(column: CaseColumn, v: Value): Value {
    match column
    case At(_, field) => NormalizedAddress(field, v)
    case SameAsSupply(_) => v
    case Iban => if v.Words? then FromOption(OrNull(UpperAll(RemoveSpaces(v.text)))) else v
    case IbanHolderTaxCode => if v.Words? then FromOption(OrNull(UpperAll(RemoveSpaces(v.text)))) else v
    case _ => if v.Words? then FromOption(OrNull(Trim(v.text))) else v
  }

  predicate CapOk(v: Value) {
    v.Words? ==> IsPostalCode(v.text)
  }

  // ----- The columns in the order the loops visit them -----

  function FieldAt(i: nat): Field {
    if i == 0 then Street else if i == 1 then StreetNumber else if i == 2 then City
    else if i == 3 then PostalCode else Province
  }

  function FieldRank(field: Field): (i: nat)
    ensures i < 5 && FieldAt(i) == field
  {
    match field
    case Street => 0
    case StreetNumber => 1
    case City => 2
    case PostalCode => 3
    case Province => 4
  }

  /**
   * The nested loops over blocks and fields: each block's flag, unless it is the supply
   * block, and then its five fields.
   */
  function AddressColumn(i: nat): CaseColumn {
    if i < 5 then At(Supply, FieldAt(i))
    else if i == 5 then SameAsSupply(Residential)
    else if i < 11 then At(Residential, FieldAt(i - 6))
    else if i == 11 then SameAsSupply(Shipping)
    else At(Shipping, FieldAt(i - 12))
  }

  const ADDRESS_COLUMNS: seq<CaseColumn> := seq(17, i requires 0 <= i < 17 => AddressColumn(i))

  /** The loops that copy: the fields of the two other blocks. */
  function CopiedColumn(i: nat): CaseColumn {
    if i < 5 then At(Residential, FieldAt(i)) else At(Shipping, FieldAt(i - 5))
  }

  const COPIED_COLUMNS: seq<CaseColumn> := seq(10, i requires 0 <= i < 10 => CopiedColumn(i))

  function ContractColumn(i: nat): CaseColumn {
    if i == 0 then PaymentMethod else if i == 1 then InvoiceDelivery else if i == 2 then InvoiceEmail
    else if i == 3 then Iban else if i == 4 then IbanSameAsContract else if i == 5 then IbanHolderFirstName
    else if i == 6 then IbanHolderLastName else IbanHolderTaxCode
  }

  const CASE_CONTRACT_DETAIL_FIELDS: seq<CaseColumn> := seq(8, i requires 0 <= i < 8 => ContractColumn(i))

  predicate NoRepeats(columns: seq<CaseColumn>) {
    forall i, j :: 0 <= i < j < |columns| ==> columns[i] != columns[j]
  }

  predicate IsAddress(k: CaseColumn) {
    k.At? || (k.SameAsSupply? && k.block != Supply)
  }

  lemma AddressColumnsFacts()
    ensures NoRepeats(ADDRESS_COLUMNS)
    ensures forall k: CaseColumn :: k in ADDRESS_COLUMNS <==> IsAddress(k)
  {
    forall k: CaseColumn | IsAddress(k) ensures k in ADDRESS_COLUMNS {
      var i :=
        if k == SameAsSupply(Residential) then 5 else if k == SameAsSupply(Shipping) then 11
        else FieldRank(k.field) + (if k.block == Supply then 0 else if k.block == Residential then 6 else 12);
      assert ADDRESS_COLUMNS[i] == k;
    }
  }

  lemma CopiedColumnsFacts()
    ensures NoRepeats(COPIED_COLUMNS)
    ensures forall k: CaseColumn :: k in COPIED_COLUMNS <==> k.At? && k.block != Supply
  {
    forall k: CaseColumn | k.At? && k.block != Supply ensures k in COPIED_COLUMNS {
      assert COPIED_COLUMNS[FieldRank(k.field) + if k.block == Residential then 0 else 5] == k;
    }
  }

  predicate IsContractDetail(k: CaseColumn) {
    !k.At? && !k.SameAsSupply?
  }

  lemma ContractColumnsFacts()
    ensures NoRepeats(CASE_CONTRACT_DETAIL_FIELDS)
    ensures forall k: CaseColumn :: k in CASE_CONTRACT_DETAIL_FIELDS <==> IsContractDetail(k)
  {
    assert forall k: CaseColumn | IsContractDetail(k) :: exists i :: 0 <= i < 8 && ContractColumn(i) == k by {
      assert ContractColumn(0) == PaymentMethod && ContractColumn(1) == InvoiceDelivery && ContractColumn(2) == InvoiceEmail;
      assert ContractColumn(3) == Iban && ContractColumn(4) == IbanSameAsContract && ContractColumn(5) == IbanHolderFirstName;
      assert ContractColumn(6) == IbanHolderLastName && ContractColumn(7) == IbanHolderTaxCode;
    }
    forall k: CaseColumn | IsContractDetail(k) ensures k in CASE_CONTRACT_DETAIL_FIELDS {
      var i :| 0 <= i < 8 && ContractColumn(i) == k;
      assert CASE_CONTRACT_DETAIL_FIELDS[i] == k;
    }
  }

  // ----- What the writers leave behind -----

  /** The value of a column once the request's own values are written. */
  function Supplied(before: Columns, dto: Columns, column: CaseColumn): Value {
    if column in dto then Normalized(column, dto[column]) else Read(before, column)
  }

  /** The value of an address column in the end: a flagged block is the supply address. */
  function Final(before: Columns, dto: Columns, column: CaseColumn): Value {
    match column
    case At(block, field) =>
      if block != Supply && Supplied(before, dto, SameAsSupply(block)) == Flag(true)
      then Supplied(before, dto, At(Supply, field))
      else Supplied(before, dto, column)
    case _ => Supplied(before, dto, column)
  }

  /** What copying the supply address makes of a column. */
  function Copied(before: Columns, k: CaseColumn): Value {
    if k.At? && IsOn(before, k.block) then Read(before, At(Supply, k.field)) else Read(before, k)
  }

  /** What the change log says of a column once the copies are written. */
  function Recopied(before: Columns, changes: Changes, k: CaseColumn): Change<Value>
    requires k in changes || Copied(before, k) != Read(before, k)
  {
    if Copied(before, k) == Read(before, k) then changes[k] else Change(Read(before, k), Copied(before, k))
  }

  /** A block flagged same-as-supply holds the supply address, field by field. */
  ghost predicate Coherent(columns: Columns) {
    forall k: CaseColumn :: k.At? && IsOn(columns, k.block) ==> Read(columns, k) == Read(columns, At(Supply, k.field))
  }

  /** Every CAP is five digits or null. */
  ghost predicate CapsOk(columns: Columns) {
    forall k: CaseColumn :: k.At? && k.field == PostalCode ==> CapOk(Read(columns, k))
  }

  /**
   * The request names a field of a block that ends up flagged, with a value that
   * neither the row nor the supply address holds: the field is written twice.
   */
  predicate WrittenTwice(before: Columns, dto: Columns, k: CaseColumn) {
    && k.At?
    && k.block != Supply
    && k in dto
    && Supplied(before, dto, SameAsSupply(k.block)) == Flag(true)
    && Normalized(k, dto[k]) != Read(before, k)
    && Normalized(k, dto[k]) != Supplied(before, dto, At(Supply, k.field))
  }

  /** The columns the log names: what changed, and what was written twice. */
  predicate IsLogged(before: Columns, dto: Columns, k: CaseColumn) {
    IsAddress(k) && (Final(before, dto, k) != Read(before, k) || WrittenTwice(before, dto, k))
  }

  /** Its entry: the old value is the stored one, or the one the request put there for a moment. */
  function Entry(before: Columns, dto: Columns, k: CaseColumn): Change<Value>
    requires IsLogged(before, dto, k)
  {
    Change(
      if WrittenTwice(before, dto, k) then Normalized(k, dto[k]) else Read(before, k),
      Final(before, dto, k))
  }

  /**
   * The residence is flagged as the supply address, Via Roma, and a request sends Via Po
   * for its street: nothing changes, and the log reports a move away from Via Po.
   */
  lemma FlaggedStreetIsWrittenTwice()
    ensures
      var street, supply := At(Residential, Street), At(Supply, Street);
      var stored := map[
        SameAsSupply(Residential) := Flag(true), supply := Words("Via Roma"), street := Words("Via Roma")];
      var dto := map[street := Words("Via Po")];
      && Final(stored, dto, street) == Read(stored, street)
      && IsLogged(stored, dto, street)
      && Entry(stored, dto, street) == Change(Words("Via Po"), Words("Via Roma"))
  {
    ViaPoStaysItself();
    hide NormalizedAddress;
    assert |"Via Po"| != |"Via Roma"|;
  }

  lemma ViaPoStaysItself()
    ensures NormalizedAddress(Street, Words("Via Po")) == Words("Via Po")
  {
    var sent := "Via Po";
    assert |sent| == 6 && sent[0] == 'V' && sent[5] == 'o';
    TrimBare(sent);
    hide Trim;
  }

  /** The row after both writers have run on one request. */
  function Saved(before: Columns, dto: Columns, k: CaseColumn): Value {
    if IsAddress(k) then Final(before, dto, k)
    else if IsContractDetail(k) then Supplied(before, dto, k)
    else Read(before, k)
  }

  ghost predicate IsSaved(before: Columns, dto: Columns, after: Columns) {
    forall k: CaseColumn :: Read(after, k) == Saved(before, dto, k)
  }

  lemma NormalizedCapIsOk(block: Block, v: Value)
    ensures CapOk(Normalized(At(block, PostalCode), v))
  {
  }

  /** One request leaves every flagged block equal to the supply address, whatever the row held before. */
  lemma SavingSquaresTheBlocks(before: Columns, dto: Columns, after: Columns)
    requires IsSaved(before, dto, after)
    ensures Coherent(after)
    ensures CapsOk(before) ==> CapsOk(after)
  {
    hide Normalized, CapOk;
    forall k: CaseColumn | k.At? && IsOn(after, k.block)
      ensures Read(after, k) == Read(after, At(Supply, k.field))
    {
      assert Read(after, SameAsSupply(k.block)) == Supplied(before, dto, SameAsSupply(k.block));
      assert Read(after, At(Supply, k.field)) == Supplied(before, dto, At(Supply, k.field));
    }
    forall k: CaseColumn | k.At? && k.field == PostalCode && CapsOk(before)
      ensures CapOk(Read(after, k))
    {
      if k in dto { NormalizedCapIsOk(k.block, dto[k]); }
      var supply := At(Supply, PostalCode);
      if supply in dto { NormalizedCapIsOk(Supply, dto[supply]); }
      assert CapOk(Read(before, k)) && CapOk(Read(before, supply));
    }
  }

  /** A case from its filing through every later correction: row i+1 is row i after request i. */
  ghost predicate IsHistory(rows: seq<Columns>, requests: seq<Columns>) {
    && |rows| == |requests| + 1
    && CapsOk(rows[0])
    && forall i :: 0 <= i < |requests| ==> IsSaved(rows[i], requests[i], rows[i + 1])
  }

  /** In every reachable case a flagged block is the supply address and every CAP is five digits or null. */
  lemma {:induction false} HistoryStaysCoherent(rows: seq<Columns>, requests: seq<Columns>, i: nat)
    requires IsHistory(rows, requests)
    requires i < |rows|
    ensures CapsOk(rows[i])
    ensures i > 0 ==> Coherent(rows[i])
  {
    if i > 0 {
      HistoryStaysCoherent(rows, requests, i - 1);
      assert IsSaved(rows[i - 1], requests[i - 1], rows[i - 1 + 1]);
      SavingSquaresTheBlocks(rows[i - 1], requests[i - 1], rows[i]);
    }
  }

  /** Correcting the supply address alone moves every block flagged as a copy of it. */
  lemma SupplyCorrectionMovesTheCopies(before: Columns, dto: Columns, after: Columns, block: Block, field: Field)
    requires IsSaved(before, dto, after)
    requires IsOn(before, block) && SameAsSupply(block) !in dto
    requires At(Supply, field) in dto
    ensures Read(after, At(block, field)) == Normalized(At(Supply, field), dto[At(Supply, field)])
  {
    hide Normalized;
    assert Read(after, At(block, field)) == Saved(before, dto, At(block, field));
  }

  /** The copy of a supplied row is the final row, and the two change maps compose. */
  lemma CopyOfSupplied(before: Columns, dto: Columns, supplied: Columns, k: CaseColumn)
    requires forall k :: Read(supplied, k) == if IsAddress(k) then Supplied(before, dto, k) else Read(before, k)
    ensures Copied(supplied, k) == if IsAddress(k) then Final(before, dto, k) else Read(before, k)
    ensures Read(supplied, k) != Read(before, k) && Copied(supplied, k) != Read(supplied, k)
        <==> WrittenTwice(before, dto, k)
    ensures WrittenTwice(before, dto, k) ==> IsAddress(k) && k in dto && Read(supplied, k) == Normalized(k, dto[k])
  {
    hide Normalized;
    if k.At? {
      var flag := SameAsSupply(k.block);
      assert Read(supplied, flag) == if k.block != Supply then Supplied(before, dto, flag) else Read(before, flag);
      assert Read(supplied, At(Supply, k.field)) == Supplied(before, dto, At(Supply, k.field));
    }
  }

  /** The address writer leaves a contract detail as the contract writer will find it. */
  lemma ContractAfterAddresses(before: Columns, dto: Columns, middle: Columns, k: CaseColumn)
    requires Read(middle, k) == if IsAddress(k) then Final(before, dto, k) else Read(before, k)
    ensures IsContractDetail(k) ==> Supplied(middle, dto, k) == Supplied(before, dto, k)
  {
    hide Normalized;
  }

  /** A row of `switch_cases`, addressed by column name as the writers address it. */
  class SwitchCase {
    var columns: Columns

    constructor ()
      ensures columns == map[]
    {
      columns := map[];
    }

    /** `set`: writes only what differs, and remembers what it replaced. */
    method Write(column: CaseColumn, value: Value, changes: Changes) returns (r: Changes)
      modifies this
      ensures forall k :: Read(columns, k) == if k == column then value else Read(old(columns), k)
      ensures r == Logged(changes, column, Read(old(columns), column), value)
    {
      var previous := Read(columns, column);
      if previous == value { return changes; }
      columns := columns[column := value];
      return changes[column := Change(previous, value)];
    }

    /** The first loops: every column of `order` the request supplies. */
    method WriteSupplied(order: seq<CaseColumn>, dto: Columns) returns (changes: Changes)
      requires NoRepeats(order)
      modifies this
      ensures forall k :: Read(columns, k) == if k in order then Supplied(old(columns), dto, k) else Read(old(columns), k)
      ensures forall k :: k in changes <==> Read(columns, k) != Read(old(columns), k)
      ensures forall k :: k in changes ==> changes[k] == Change(Read(old(columns), k), Read(columns, k))
    {
      hide Normalized;
      changes := map[];
      ghost var before := columns;
      for i := 0 to |order|
        invariant forall k :: Read(columns, k) == if k in order[..i] then Supplied(before, dto, k) else Read(before, k)
        invariant forall k :: k in changes <==> Read(columns, k) != Read(before, k)
        invariant forall k :: k in changes ==> changes[k] == Change(Read(before, k), Read(columns, k))
      {
        var column := order[i];
        assert order[..i + 1] == order[..i] + [column];
        assert column !in order[..i];
        if column in dto {
          changes := Write(column, Normalized(column, dto[column]), changes);
        }
      }
      assert order[..|order|] == order;
    }

    /** The second loops: every block flagged same-as-supply becomes a copy. */
    method CopySupplyAddress(changes: Changes) returns (r: Changes)
      modifies this
      ensures forall k :: Read(columns, k) == Copied(old(columns), k)
      ensures forall k :: k in r <==> k in changes || Read(columns, k) != Read(old(columns), k)
      ensures forall k :: k in r ==> r[k] == Recopied(old(columns), changes, k)
    {
      hide COPIED_COLUMNS;
      r := changes;
      ghost var before := columns;
      CopiedColumnsFacts();
      for i := 0 to |COPIED_COLUMNS|
        invariant forall k :: Read(columns, k) == if k in COPIED_COLUMNS[..i] then Copied(before, k) else Read(before, k)
        invariant forall k :: k in r <==> k in changes || Read(columns, k) != Read(before, k)
        invariant forall k :: k in r ==>
            r[k] == if Read(columns, k) == Read(before, k) then changes[k] else Recopied(before, changes, k)
      {
        var column := COPIED_COLUMNS[i];
        assert COPIED_COLUMNS[..i + 1] == COPIED_COLUMNS[..i] + [column];
        assert column in COPIED_COLUMNS && column !in COPIED_COLUMNS[..i];
        if IsOn(columns, column.block) {
          r := Write(column, Read(columns, At(Supply, column.field)), r);
        }
      }
      assert COPIED_COLUMNS[..|COPIED_COLUMNS|] == COPIED_COLUMNS;
    }

    /**
     * The change map gives the final value of everything it lists, everything it
     * does not list is unchanged, and what it calls the old value is the stored
     * one exactly when the field was not written twice.
     */
    method ApplyAddressFields(dto: Columns) returns (changes: Changes)
      modifies this
      ensures forall k :: Read(columns, k) == if IsAddress(k) then Final(old(columns), dto, k) else Read(old(columns), k)
      ensures forall k :: k in changes ==> changes[k].next == Read(columns, k)
      ensures forall k :: k !in changes ==> Read(columns, k) == Read(old(columns), k)
      ensures forall k :: k in changes ==>
          (changes[k].previous == Read(old(columns), k) <==> !WrittenTwice(old(columns), dto, k))
      ensures forall k :: k in changes <==> IsLogged(old(columns), dto, k)
      ensures forall k :: k in changes ==> changes[k] == Entry(old(columns), dto, k)
    {
      hide Normalized, ADDRESS_COLUMNS, Supplied, Final, Copied, WrittenTwice, IsAddress;
      AddressColumnsFacts();
      ghost var before := columns;
      changes := WriteSupplied(ADDRESS_COLUMNS, dto);
      ghost var supplied := columns;
      changes := CopySupplyAddress(changes);
      forall k: CaseColumn
        ensures Copied(supplied, k) == if IsAddress(k) then Final(before, dto, k) else Read(before, k)
        ensures Read(supplied, k) != Read(before, k) && Copied(supplied, k) != Read(supplied, k)
            <==> WrittenTwice(before, dto, k)
        ensures WrittenTwice(before, dto, k) ==> IsAddress(k) && k in dto && Read(supplied, k) == Normalized(k, dto[k])
      {
        CopyOfSupplied(before, dto, supplied, k);
      }
    }

    /** Nothing is written twice here, so the change map is exactly what differs. */
    method ApplyContractDetailFields(dto: Columns) returns (changes: Changes)
      modifies this
      ensures forall k ::
          Read(columns, k) == if IsContractDetail(k) then Supplied(old(columns), dto, k) else Read(old(columns), k)
      ensures forall k :: k in changes <==> Read(columns, k) != Read(old(columns), k)
      ensures forall k :: k in changes ==> changes[k] == Change(Read(old(columns), k), Read(columns, k))
    {
      ContractColumnsFacts();
      changes := WriteSupplied(CASE_CONTRACT_DETAIL_FIELDS, dto);
    }

    /** Both writers, as `updateCase` and `createCase` run them. */
    method Correct(dto: Columns) returns (addresses: Changes, details: Changes)
      modifies this
      ensures IsSaved(old(columns), dto, columns)
    {
      hide Normalized, Final, Supplied;
      ghost var before := columns;
      addresses := ApplyAddressFields(dto);
      ghost var middle := columns;
      details := ApplyContractDetailFields(dto);
      forall k: CaseColumn ensures Read(columns, k) == Saved(before, dto, k) {
        ContractAfterAddresses(before, dto, middle, k);
      }
    }
  }
}
