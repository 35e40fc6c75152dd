/**
 * The address of a bill under `adminUpdateBill` of src/modules/bills/bills.service.ts:
 * its five fields, its printed line, and how an edit of either carries over to
 * the other.
 */
module BillAddress {
  import opened Wrappers
  import opened Address
  import opened ChangeLog
  import opened PrintedLines
  import opened AddressRoundTrip
  import opened Reconcile

  datatype BillColumn = LineColumn | PartColumn(key: Key)

  datatype Views = Views(line: Option<string>, parts: Parts)

  type BillChanges = map<BillColumn, Change<Option<string>>>

  /** The columns a request names; `None` is a null sent to clear one. */
  type Dto = map<BillColumn, Option<string>>

  function ValueOf(a: Views, c: BillColumn): Option<string> {
    match c
    case LineColumn => a.line
    case PartColumn(key) => Get(a.parts, key)
  }

  function Written(a: Views, c: BillColumn, value: Option<string>): Views {
    match c
    case LineColumn => a.(line := value)
    case PartColumn(key) => a.(parts := Put(a.parts, key, value))
  }

  /** A malformed CAP counts as none. */
  function Normalized(c: BillColumn, value: Option<string>): Option<string> {
    match c
    case PartColumn(PostalCodeKey) => NormalizePostalCode(value)
    case PartColumn(ProvinceKey) => NormalizeProvince(value)
    case _ => value
  }

  function Sent(a: Views, dto: Dto, c: BillColumn): Option<string> {
    if c in dto then Normalized(c, dto[c]) else ValueOf(a, c)
  }

  /** The columns as the request alone leaves them. */
  function AllSent(a: Views, dto: Dto): Views {
    Views(
      Sent(a, dto, LineColumn),
      Parts(
        Sent(a, dto, PartColumn(StreetKey)), Sent(a, dto, PartColumn(StreetNumberKey)), Sent(a, dto, PartColumn(CityKey)),
        Sent(a, dto, PartColumn(PostalCodeKey)), Sent(a, dto, PartColumn(ProvinceKey))))
  }

  lemma AllSentReads(a: Views, dto: Dto, c: BillColumn)
    ensures ValueOf(AllSent(a, dto), c) == Sent(a, dto, c)
  {
    hide Sent;
    if c.PartColumn? {
      match c.key
      case StreetKey =>
      case StreetNumberKey =>
      case CityKey =>
      case PostalCodeKey =>
      case ProvinceKey =>
    }
  }

  /** Changed fields render the line; a changed line alone is split into the fields. */
  function Synced(a: Views, dto: Dto): Views {
    var sent := AllSent(a, dto);
    if sent.parts != a.parts then sent.(line := ComposeAddressLine(sent.parts))
    else if sent.line != a.line then sent.(parts := ParseAddressLine(sent.line))
    else sent
  }

  lemma ReadsDecide(a: Views, b: Views)
    requires forall c :: ValueOf(a, c) == ValueOf(b, c)
    ensures a == b
  {
    assert ValueOf(a, LineColumn) == ValueOf(b, LineColumn);
    assert ValueOf(a, PartColumn(StreetKey)) == ValueOf(b, PartColumn(StreetKey));
    assert ValueOf(a, PartColumn(StreetNumberKey)) == ValueOf(b, PartColumn(StreetNumberKey));
    assert ValueOf(a, PartColumn(CityKey)) == ValueOf(b, PartColumn(CityKey));
    assert ValueOf(a, PartColumn(PostalCodeKey)) == ValueOf(b, PartColumn(PostalCodeKey));
    assert ValueOf(a, PartColumn(ProvinceKey)) == ValueOf(b, PartColumn(ProvinceKey));
  }

  lemma WrittenReads(a: Views, c: BillColumn, value: Option<string>, other: BillColumn)
    ensures ValueOf(Written(a, c, value), other) == if other == c then value else ValueOf(a, other)
  {
  }

  lemma PartsDiffer(a: Views, b: Views)
    ensures a.parts != b.parts <==> exists key :: Get(a.parts, key) != Get(b.parts, key)
  {
    if forall key :: Get(a.parts, key) == Get(b.parts, key) {
      ReadsDecide(a.(line := None), b.(line := None));
    }
  }

  /** The request changes a field and the line, and not to the line those fields render. */
  predicate LineWrittenTwice(a: Views, dto: Dto) {
    var sent := AllSent(a, dto);
    sent.parts != a.parts && sent.line != a.line && sent.line != ComposeAddressLine(sent.parts)
  }

  /** The columns the log names: what changed, and a line that was written twice. */
  predicate IsLogged(a: Views, dto: Dto, c: BillColumn) {
    ValueOf(Synced(a, dto), c) != ValueOf(a, c) || (c == LineColumn && LineWrittenTwice(a, dto))
  }

  /** Its entry: the old value is the stored one, or the line the request put there for a moment. */
  function Entry(a: Views, dto: Dto, c: BillColumn): Change<Option<string>> {
    Change(
      ValueOf(if c == LineColumn && LineWrittenTwice(a, dto) then AllSent(a, dto) else a, c),
      ValueOf(Synced(a, dto), c))
  }

  class Bill {
    var address: Views

    constructor (address: Views)
      ensures this.address == address
    {
      this.address := address;
    }

    method Write(c: BillColumn, value: Option<string>, changes: BillChanges) returns (r: BillChanges)
      modifies this
      ensures address == Written(old(address), c, value)
      ensures r == Logged(changes, c, ValueOf(old(address), c), value)
    {
      var previous := ValueOf(address, c);
      if previous == value {
        ghost var before := address;
        forall other ensures ValueOf(Written(before, c, value), other) == ValueOf(before, other) {
          WrittenReads(before, c, value, other);
        }
        ReadsDecide(Written(before, c, value), before);
        return changes;
      }
      address := Written(address, c, value);
      return changes[c := Change(previous, value)];
    }

    /** Columns written one after another, each once. */
    method WriteAll(values: map<BillColumn, Option<string>>, keys: seq<BillColumn>, changes: BillChanges)
      returns (r: BillChanges)
      requires forall i, j :: 0 <= i < j < |keys| ==> keys[i] != keys[j]
      requires forall c :: c in keys ==> c in values && c !in changes
      modifies this
      ensures forall c :: ValueOf(address, c) == if c in keys then values[c] else ValueOf(old(address), c)
      ensures forall c :: c in r <==> c in changes || ValueOf(address, c) != ValueOf(old(address), c)
      ensures forall c :: c in r ==>
          r[c] == if c in changes then changes[c] else Change(ValueOf(old(address), c), ValueOf(address, c))
    {
      hide ValueOf, Written;
      r := changes;
      ghost var before := address;
      for i := 0 to |keys|
        invariant forall c :: ValueOf(address, c) == if c in keys[..i] then values[c] else ValueOf(before, c)
        invariant forall c :: c in r <==> c in changes || ValueOf(address, c) != ValueOf(before, c)
        invariant forall c :: c in r ==>
            r[c] == if c in changes then changes[c] else Change(ValueOf(before, c), ValueOf(address, c))
      {
        var c := keys[i];
        assert keys[..i + 1] == keys[..i] + [c];
        assert c in keys && c !in keys[..i];
        ghost var was := address;
        r := Write(c, values[c], r);
        forall other ensures ValueOf(address, other) == if other == c then values[c] else ValueOf(was, other) {
          WrittenReads(was, c, values[c], other);
        }
      }
      assert keys[..|keys|] == keys;
    }

    /** The loop over `Object.keys(dto)`, whatever order they come in. */
    method WriteSent(dto: Dto, keys: seq<BillColumn>) returns (changes: BillChanges)
      requires forall i, j :: 0 <= i < j < |keys| ==> keys[i] != keys[j]
      requires forall c :: c in keys <==> c in dto
      modifies this
      ensures address == AllSent(old(address), dto)
      ensures forall c :: c in changes <==> ValueOf(address, c) != ValueOf(old(address), c)
      ensures forall c :: c in changes ==> changes[c] == Change(ValueOf(old(address), c), ValueOf(address, c))
    {
      hide ValueOf, Normalized, AllSent;
      ghost var before := address;
      changes := WriteAll(map c | c in dto :: Normalized(c, dto[c]), keys, map[]);
      forall c ensures ValueOf(address, c) == ValueOf(AllSent(before, dto), c) {
        AllSentReads(before, dto, c);
      }
      ReadsDecide(address, AllSent(before, dto));
    }

    /** The split: the five fields are set to what the line says, street first. */
    method SplitLine(changes: BillChanges) returns (r: BillChanges)
      requires forall key :: PartColumn(key) !in changes
      modifies this
      ensures address == old(address).(parts := ParseAddressLine(old(address).line))
      ensures forall c :: c in r <==> c in changes || ValueOf(address, c) != ValueOf(old(address), c)
      ensures forall c :: c in r ==>
          r[c] == if c in changes then changes[c] else Change(ValueOf(old(address), c), ValueOf(address, c))
    {
      hide ParseAddressLine;
      ghost var split := address.(parts := ParseAddressLine(address.line));
      var parsed := ParseAddressLine(address.line);
      var values := map[
        PartColumn(StreetKey) := parsed.street, PartColumn(StreetNumberKey) := parsed.streetNumber,
        PartColumn(CityKey) := parsed.city, PartColumn(PostalCodeKey) := parsed.postalCode,
        PartColumn(ProvinceKey) := parsed.province];
      var keys := [
        PartColumn(StreetKey), PartColumn(StreetNumberKey), PartColumn(CityKey),
        PartColumn(PostalCodeKey), PartColumn(ProvinceKey)];
      forall key: Key ensures PartColumn(key) in keys {
        match key
        case StreetKey => assert keys[0] == PartColumn(key);
        case StreetNumberKey => assert keys[1] == PartColumn(key);
        case CityKey => assert keys[2] == PartColumn(key);
        case PostalCodeKey => assert keys[3] == PartColumn(key);
        case ProvinceKey => assert keys[4] == PartColumn(key);
      }
      assert forall key :: values[PartColumn(key)] == Get(parsed, key);
      assert LineColumn !in keys;
      r := WriteAll(values, keys, changes);
      forall c ensures ValueOf(address, c) == ValueOf(split, c) {
      }
      ReadsDecide(address, split);
    }

    /**
     * The change map gives the final value of everything it lists, what it does not
     * list is unchanged, and what it calls the old value is the stored one unless
     * the line was written twice.
     */
    method AdminUpdateAddress(dto: Dto, keys: seq<BillColumn>) returns (changes: BillChanges)
      requires forall i, j :: 0 <= i < j < |keys| ==> keys[i] != keys[j]
      requires forall c :: c in keys <==> c in dto
      modifies this
      ensures address == Synced(old(address), dto)
      ensures forall c :: c in changes ==> changes[c].next == ValueOf(address, c)
      ensures forall c :: c !in changes ==> ValueOf(address, c) == ValueOf(old(address), c)
      ensures forall c :: c in changes ==>
                (changes[c].previous == ValueOf(old(address), c) <==>
                   !(c == LineColumn && LineWrittenTwice(old(address), dto)))
      ensures forall c :: c in changes <==> IsLogged(old(address), dto, c)
      ensures forall c :: c in changes ==> changes[c] == Entry(old(address), dto, c)
    {
      hide ParseAddressLine, ComposeAddressLine, AllSent, Get, Put;
      ghost var before := address;
      changes := WriteSent(dto, keys);
      ghost var sent := address;
      PartsDiffer(before, sent);
      assert forall key :: PartColumn(key) in changes <==> Get(sent.parts, key) != Get(before.parts, key);
      assert LineColumn in changes <==> sent.line != before.line;
      if exists key :: PartColumn(key) in changes {
        changes := Write(LineColumn, ComposeAddressLine(address.parts), changes);
      } else if LineColumn in changes {
        changes := SplitLine(changes);
      }
    }
  }

  // ----- What the two views keep -----

  /** Either view gives the other. */
  predicate InStep(a: Views) {
    a.line == ComposeAddressLine(a.parts) || a.parts == ParseAddressLine(a.line)
  }

  /** Any edit leaves the views in step, and one that changes the address puts them in step. */
  lemma EditsKeepTheViewsInStep(a: Views, dto: Dto)
    ensures InStep(a) || Synced(a, dto) != a ==> InStep(Synced(a, dto))
  {
    hide ComposeAddressLine, ParseAddressLine, AllSent;
  }

  /**
   * A request that clears the street and sends a line at once: the fields win, the line
   * is cleared, and the log calls the line of the request the old one.
   */
  lemma ClearedStreetLogsTheSentLine()
    ensures
      var stored := Views(Some("Via Roma"), EMPTY_PARTS.(street := Some("Via Roma")));
      var dto := map[PartColumn(StreetKey) := None, LineColumn := Some("Via Po")];
      && Synced(stored, dto) == Views(None, EMPTY_PARTS)
      && IsLogged(stored, dto, LineColumn)
      && Entry(stored, dto, LineColumn) == Change(Some("Via Po"), None)
  {
    var stored := Views(Some("Via Roma"), EMPTY_PARTS.(street := Some("Via Roma")));
    var dto := map[PartColumn(StreetKey) := None, LineColumn := Some("Via Po")];
    assert Some("Via Po") != stored.line by { assert |"Via Po"| != |"Via Roma"|; }
    assert ComposeAddressLine(EMPTY_PARTS) == None;
    assert AllSent(stored, dto) == Views(Some("Via Po"), EMPTY_PARTS);
    hide ComposeAddressLine, AllSent;
  }

  /**
   * After an edit of well-formed fields both views hold the same address exactly
   * when the fields stand where a printed line puts them, with no name in capitals.
   */
  lemma EditedFieldsAreTheLineIff(a: Views, dto: Dto)
    requires AllSent(a, dto).parts != a.parts && FieldsOk(AllSent(a, dto).parts)
    ensures ParseAddressLine(Synced(a, dto).line) == Synced(a, dto).parts <==>
      Placed(AllSent(a, dto).parts) && CaseKept(AllSent(a, dto).parts)
  {
    RoundTrip(AllSent(a, dto).parts);
    hide ComposeAddressLine, ParseAddressLine, AllSent, FieldsOk, Placed, CaseKept;
  }
}
