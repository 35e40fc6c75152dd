/**
 * src/database/pre-sync/index.ts: the statements run before the schema is
 * synchronised. The database is its tables, any of which may be missing, each
 * with its rows and with the columns whose existence the steps look up.
 */
module PreSync {
  import opened Wrappers
  import opened Text
  import SentOffers

  // ----- The tables -----

  datatype BillRow = BillRow(id: nat, status: string)

  datatype CaseRow = CaseRow(
    id: nat, status: string, activationDate: Option<int>, expiryDate: Option<int>, contractSentAt: Option<int>)

  datatype CaseTable = CaseTable(hasActivation: bool, hasExpiry: bool, hasSentAt: bool, rows: seq<CaseRow>)

  datatype EventRow = EventRow(oldStatus: string, newStatus: string)

  datatype ContractRow = ContractRow(caseId: nat, activationDate: Option<int>, expiryDate: Option<int>, createdAt: int)

  datatype ReconciliationTable = ReconciliationTable(matchedContractId: Option<seq<nat>>, matchedCaseId: Option<seq<nat>>)

  datatype OtpTable = OtpTable(hasCode: bool, hasCodeHash: bool, rows: seq<string>)

  datatype UserRow = UserRow(id: nat, email: string, role: string, authProvider: string)

  datatype UserTable = UserTable(hasAuthProvider: bool, rows: seq<UserRow>)

  datatype SentTable = SentTable(hasDisplayOrder: bool, byBill: map<nat, seq<SentOffers.SentRow>>)

  datatype PageRow = PageRow(slug: string, isActive: bool, requiresAcceptance: bool)

  datatype AddressType = Residential | SupplyPoint | Legal | Billing

  datatype AddressRow = AddressRow(userId: nat, kind: AddressType)

  datatype AddressTable = AddressTable(hasKind: bool, rows: seq<AddressRow>)

  datatype OfferRow = OfferRow(validFrom: int, validUntil: Option<int>, days: int, months: Option<int>)

  datatype OfferTable = OfferTable(hasMonths: bool, rows: seq<OfferRow>)

  datatype LegacySupplierStatus = Active | Warning | Inactive | PendingDeletion

  /** `isActive` is what the column held; it is gone once the column is dropped. */
  datatype SupplierRow = SupplierRow(status: LegacySupplierStatus, isActive: bool)

  datatype SupplierTable = SupplierTable(hasIban: bool, hasIsActive: bool, rows: seq<SupplierRow>)

  datatype Db = Db(
    suppliers: Option<SupplierTable>, bills: Option<seq<BillRow>>, cases: Option<CaseTable>,
    events: Option<seq<EventRow>>, contracts: Option<seq<ContractRow>>, reconciliation: Option<ReconciliationTable>,
    otps: Option<OtpTable>, users: Option<UserTable>, hasPecEmail: Option<bool>, sent: Option<SentTable>,
    pages: Option<seq<PageRow>>, addresses: Option<AddressTable>, offers: Option<OfferTable>)

  /** An UPDATE: every row becomes what `f` makes of it. */
  function Each<T(!new)>(rows: seq<T>, f: T -> T): (r: seq<T>)
    ensures |r| == |rows| && forall i :: 0 <= i < |rows| ==> r[i] == f(rows[i])
  {
    seq(|rows|, i requires 0 <= i < |rows| => f(rows[i]))
  }

  lemma EachAgain<T(!new)>(rows: seq<T>, f: T -> T)
    requires forall x :: x in rows ==> f(f(x)) == f(x)
    ensures Each(Each(rows, f), f) == Each(rows, f)
  {
  }

  // ----- The steps -----

  const CONTRACT_SENT := "contract_sent"

  predicate IsRetiredBillStatus(status: string) {
    || status == "contract_signed" || status == "contract_review"
    || status == "contract_verification_required" || status == "contract_verified"
  }

  function RetireBillStatus(bill: BillRow): BillRow {
    if IsRetiredBillStatus(bill.status) then bill.(status := CONTRACT_SENT) else bill
  }

  function RetireCaseStatus(status: string): string {
    if status == "contract_signed" then CONTRACT_SENT else status
  }

  function RetireOnCase(row: CaseRow): CaseRow {
    row.(status := RetireCaseStatus(row.status))
  }

  /** What the two updates of an event come to: one of the old status, one of the new. */
  function RetireInEvent(e: EventRow): EventRow {
    EventRow(RetireCaseStatus(e.oldStatus), RetireCaseStatus(e.newStatus))
  }

  function RetireOldStatus(e: EventRow): EventRow {
    e.(oldStatus := RetireCaseStatus(e.oldStatus))
  }

  function RetireNewStatus(e: EventRow): EventRow {
    e.(newStatus := RetireCaseStatus(e.newStatus))
  }

  /** The contract joined to a case. */
  function ContractOf(contracts: seq<ContractRow>, caseId: nat): Option<ContractRow> {
    if contracts == [] then None
    else if contracts[0].caseId == caseId then Some(contracts[0])
    else ContractOf(contracts[1..], caseId)
  }

  function Coalesce(a: Option<int>, b: Option<int>): Option<int> {
    if a.Some? then a else b
  }

  function WithContractDates(contracts: seq<ContractRow>): CaseRow -> CaseRow {
    (row: CaseRow) =>
      var c := ContractOf(contracts, row.id);
      if c.Some? && (row.activationDate.None? || row.expiryDate.None? || row.contractSentAt.None?) then
        row.(activationDate := Coalesce(row.activationDate, c.value.activationDate),
             expiryDate := Coalesce(row.expiryDate, c.value.expiryDate),
             contractSentAt := Coalesce(row.contractSentAt, Some(c.value.createdAt)))
      else row
  }

  /** ADD COLUMN IF NOT EXISTS: a column that was missing starts out NULL. */
  function WithDateColumns(t: CaseTable): CaseTable {
    CaseTable(true, true, true, Each(t.rows, Blanked(t)))
  }

  function Blanked(t: CaseTable): CaseRow -> CaseRow {
    (row: CaseRow) =>
      row.(activationDate := if t.hasActivation then row.activationDate else None,
           expiryDate := if t.hasExpiry then row.expiryDate else None,
           contractSentAt := if t.hasSentAt then row.contractSentAt else None)
  }

  function LowerAll(s: string): (l: string)
    ensures |l| == |s| && forall i :: 0 <= i < |s| ==> l[i] == Lower(s[i])
  {
    seq(|s|, i requires 0 <= i < |s| => Lower(s[i]))
  }

  /** The addresses that exist under more than one casing: GROUP BY lower(email) HAVING count(*) > 1. */
  predicate IsBlocked(rows: seq<UserRow>, folded: string) {
    exists i, j :: 0 <= i < j < |rows| && LowerAll(rows[i].email) == folded && LowerAll(rows[j].email) == folded
  }

  function WithLowerEmail(rows: seq<UserRow>): UserRow -> UserRow {
    (u: UserRow) => if IsBlocked(rows, LowerAll(u.email)) then u else u.(email := LowerAll(u.email))
  }

  function RetirePage(page: PageRow): PageRow {
    if page.slug == "business-terms-conditions" then page.(isActive := false, requiresAcceptance := false) else page
  }

  function RoleOf(users: seq<UserRow>, id: nat): Option<string> {
    if users == [] then None else if users[0].id == id then Some(users[0].role) else RoleOf(users[1..], id)
  }

  /** What the two updates over `users u WHERE u.id = a.user_id` come to: neither undoes the other. */
  function Realigned(users: seq<UserRow>): AddressRow -> AddressRow {
    (a: AddressRow) =>
      var role := RoleOf(users, a.userId);
      if role == Some("business") && a.kind == Residential then a.(kind := Legal)
      else if role.Some? && role != Some("business") && a.kind == Legal then a.(kind := Residential)
      else a
  }

  function ToLegal(users: seq<UserRow>): AddressRow -> AddressRow {
    (a: AddressRow) =>
      if RoleOf(users, a.userId) == Some("business") && a.kind == Residential then a.(kind := Legal) else a
  }

  function ToResidential(users: seq<UserRow>): AddressRow -> AddressRow {
    (a: AddressRow) =>
      var role := RoleOf(users, a.userId);
      if role.Some? && role != Some("business") && a.kind == Legal then a.(kind := Residential) else a
  }

  /** ROUND(days * 12 / 365.0), for a positive number of days */
  function RoundToMonths(days: int): int {
    (24 * days + 365) / 730
  }

  /** ROUND(months * 365 / 12.0), for a positive number of months */
  function RoundToDays(months: int): int {
    (730 * months + 12) / 24
  }

  function Clamp(months: int): int {
    var least := if months < 1 then 1 else months;
    if least > 60 then 60 else least
  }

  function MonthsOf(o: OfferRow): Option<int> {
    if o.validUntil.Some? && o.days == o.validUntil.value - o.validFrom then None
    else if o.days >= 28 then Some(Clamp(RoundToMonths(o.days)))
    else None
  }

  function WithDuration(o: OfferRow): OfferRow {
    var months := MonthsOf(o);
    o.(months := months, days := if months.None? then 0 else RoundToDays(months.value))
  }

  function SwitchedOff(s: SupplierRow): SupplierRow {
    if !s.isActive && s.status != Inactive && s.status != PendingDeletion then s.(status := Inactive) else s
  }

  function WarningRetired(s: SupplierRow): SupplierRow {
    if s.status == Warning then s.(status := Active) else s
  }

  /** First the switch, then the retired value, and only then is the column dropped. */
  function FoldedSuppliers(t: SupplierTable): SupplierTable {
    var switched := if t.hasIsActive then Each(t.rows, SwitchedOff) else t.rows;
    SupplierTable(t.hasIban, false, Each(switched, WarningRetired))
  }

  function RetireFacebook(u: UserRow): UserRow {
    if u.authProvider == "facebook" then u.(authProvider := "local") else u
  }

  // ----- What the statements make of each table -----

  function BillsAfter(bills: Option<seq<BillRow>>): Option<seq<BillRow>> {
    if bills.None? then None else Some(Each(bills.value, RetireBillStatus))
  }

  function CasesRetired(t: Option<CaseTable>): Option<CaseTable> {
    if t.None? then None else Some(t.value.(rows := Each(t.value.rows, RetireOnCase)))
  }

  function CasesDated(t: Option<CaseTable>, contracts: Option<seq<ContractRow>>): Option<CaseTable> {
    if t.None? then None
    else
      var dated := WithDateColumns(t.value);
      Some(if contracts.None? then dated else dated.(rows := Each(dated.rows, WithContractDates(contracts.value))))
  }

  function CasesAfter(t: Option<CaseTable>, contracts: Option<seq<ContractRow>>): Option<CaseTable> {
    CasesDated(CasesRetired(t), contracts)
  }

  function EventsAfter(events: Option<seq<EventRow>>): Option<seq<EventRow>> {
    if events.None? then None else Some(Each(events.value, RetireInEvent))
  }

  function ReconciliationAfter(t: Option<ReconciliationTable>): Option<ReconciliationTable> {
    if t.None? || t.value.matchedContractId.None? || t.value.matchedCaseId.Some? then t
    else Some(ReconciliationTable(None, t.value.matchedContractId))
  }

  function OtpsAfter(t: Option<OtpTable>): Option<OtpTable> {
    if t.None? || t.value.hasCodeHash then t else Some(OtpTable(false, true, []))
  }

  function UsersLowered(t: Option<UserTable>): Option<UserTable> {
    if t.None? then None else Some(t.value.(rows := Each(t.value.rows, WithLowerEmail(t.value.rows))))
  }

  function WithoutFacebook(t: Option<UserTable>): Option<UserTable> {
    if t.None? || !t.value.hasAuthProvider then t else Some(t.value.(rows := Each(t.value.rows, RetireFacebook)))
  }

  function UsersAfter(t: Option<UserTable>): Option<UserTable> {
    WithoutFacebook(UsersLowered(t))
  }

  function WithoutIban(t: Option<SupplierTable>): Option<SupplierTable> {
    if t.None? then None else Some(t.value.(hasIban := false))
  }

  function SuppliersFolded(t: Option<SupplierTable>): Option<SupplierTable> {
    if t.None? then None else Some(FoldedSuppliers(t.value))
  }

  function SuppliersAfter(t: Option<SupplierTable>): Option<SupplierTable> {
    SuppliersFolded(WithoutIban(t))
  }

  function PecAfter(has: Option<bool>): Option<bool> {
    if has.None? then None else Some(true)
  }

  /** The boot that adds the column numbers the rows; any other leaves them as the admin put them. */
  function SentAfter(t: Option<SentTable>): Option<SentTable> {
    if t.None? || t.value.hasDisplayOrder then t
    else Some(SentTable(true, map b | b in t.value.byBill :: SentOffers.Backfilled(t.value.byBill[b])))
  }

  function PagesAfter(pages: Option<seq<PageRow>>): Option<seq<PageRow>> {
    if pages.None? then None else Some(Each(pages.value, RetirePage))
  }

  function RowsIn(users: Option<UserTable>): seq<UserRow> {
    if users.Some? then users.value.rows else []
  }

  function AddressesAfter(t: Option<AddressTable>, users: seq<UserRow>): Option<AddressTable> {
    if t.None? || !t.value.hasKind then t else Some(t.value.(rows := Each(t.value.rows, Realigned(users))))
  }

  function OffersAfter(t: Option<OfferTable>): Option<OfferTable> {
    if t.None? || t.value.hasMonths then t else Some(OfferTable(true, Each(t.value.rows, WithDuration)))
  }

  // ----- The steps, each of one or a few tables -----

  function DropSupplierIban(db: Db): Db {
    db.(suppliers := WithoutIban(db.suppliers))
  }

  function RetireContractStatuses(db: Db): Db {
    db.(bills := BillsAfter(db.bills), cases := CasesRetired(db.cases), events := EventsAfter(db.events))
  }

  function MoveContractDatesOntoCases(db: Db): Db {
    db.(cases := CasesDated(db.cases, db.contracts))
  }

  function RenameReconciliationMatchColumn(db: Db): Db {
    db.(reconciliation := ReconciliationAfter(db.reconciliation))
  }

  function HashOtpCodes(db: Db): Db {
    db.(otps := OtpsAfter(db.otps))
  }

  function LowercaseUserEmails(db: Db): Db {
    db.(users := UsersLowered(db.users))
  }

  function AddBusinessInvoicingColumns(db: Db): Db {
    db.(hasPecEmail := PecAfter(db.hasPecEmail))
  }

  function SeedSentOfferDisplayOrder(db: Db): Db {
    db.(sent := SentAfter(db.sent))
  }

  function RetireBusinessTerms(db: Db): Db {
    db.(pages := PagesAfter(db.pages))
  }

  function RealignAccountAddressTypes(db: Db): Db {
    db.(addresses := AddressesAfter(db.addresses, RowsIn(db.users)))
  }

  function AddOfferContractDurationMonths(db: Db): Db {
    db.(offers := OffersAfter(db.offers))
  }

  function FoldSupplierActiveFlagIntoStatus(db: Db): Db {
    db.(suppliers := SuppliersFolded(db.suppliers))
  }

  function RetireFacebookAuthProvider(db: Db): Db {
    db.(users := WithoutFacebook(db.users))
  }

  /** The pipeline, in the order of runPreSyncMigrations. */
  function Migrated(db: Db): Db {
    RetireFacebookAuthProvider(
      FoldSupplierActiveFlagIntoStatus(
        AddOfferContractDurationMonths(
          RealignAccountAddressTypes(
            RetireBusinessTerms(
              SeedSentOfferDisplayOrder(
                AddBusinessInvoicingColumns(
                  LowercaseUserEmails(
                    HashOtpCodes(
                      RenameReconciliationMatchColumn(
                        MoveContractDatesOntoCases(
                          RetireContractStatuses(
                            DropSupplierIban(db)))))))))))))
  }

  lemma MigratedTables(db: Db)
    ensures Migrated(db) == Db(
              SuppliersAfter(db.suppliers), BillsAfter(db.bills), CasesAfter(db.cases, db.contracts), EventsAfter(db.events),
              db.contracts, ReconciliationAfter(db.reconciliation), OtpsAfter(db.otps), UsersAfter(db.users),
              PecAfter(db.hasPecEmail), SentAfter(db.sent), PagesAfter(db.pages),
              AddressesAfter(db.addresses, RowsIn(UsersLowered(db.users))), OffersAfter(db.offers))
  {
    hide WithoutIban, SuppliersFolded, BillsAfter, CasesRetired, CasesDated, EventsAfter, ReconciliationAfter,
      OtpsAfter,
      UsersLowered, WithoutFacebook, PecAfter, SentAfter, PagesAfter, AddressesAfter, OffersAfter, RowsIn;
  }

  // ----- Running it again -----

  predicate OneContractPerCase(contracts: seq<ContractRow>) {
    forall i, j :: 0 <= i < j < |contracts| ==> contracts[i].caseId != contracts[j].caseId
  }

  lemma {:induction false} ContractOfHas(contracts: seq<ContractRow>, caseId: nat)
    ensures ContractOf(contracts, caseId).None? <==> forall c :: c in contracts ==> c.caseId != caseId
    ensures ContractOf(contracts, caseId).Some? ==>
              ContractOf(contracts, caseId).value in contracts && ContractOf(contracts, caseId).value.caseId == caseId
  {
    if contracts != [] && contracts[0].caseId != caseId {
      ContractOfHas(contracts[1..], caseId);
      assert contracts == [contracts[0]] + contracts[1..];
    }
  }

  /** One of the two dates a contract brings, and the same date as the case holds it under its column. */
  function Brought(c: ContractRow, expiry: bool): Option<int> {
    if expiry then c.expiryDate else c.activationDate
  }

  function Held(t: CaseTable, row: CaseRow, expiry: bool): Option<int> {
    if expiry then if t.hasExpiry then row.expiryDate else None
    else if t.hasActivation then row.activationDate else None
  }

  /** The date is there, or the joined contract brings it, or no contract of the case could. */
  predicate Settled(t: CaseTable, contracts: seq<ContractRow>, row: CaseRow, expiry: bool) {
    var joined := ContractOf(contracts, row.id);
    || Held(t, row, expiry).Some?
    || (joined.Some? && Brought(joined.value, expiry).Some?)
    || (forall c :: c in contracts && c.caseId == row.id ==> Brought(c, expiry).None?)
  }

  predicate CasesSettled(t: CaseTable, contracts: seq<ContractRow>) {
    forall row :: row in t.rows ==> Settled(t, contracts, row, false) && Settled(t, contracts, row, true)
  }

  /** Read off the tables before the first boot. */
  predicate AllSettled(db: Db) {
    db.cases.Some? && db.contracts.Some? ==> CasesSettled(db.cases.value, db.contracts.value)
  }

  /** Nothing is left for a second join with this contract to fill in. */
  predicate Full(row: CaseRow, c: Option<ContractRow>) {
    c.Some? ==>
      && row.contractSentAt.Some?
      && (row.activationDate.Some? || c.value.activationDate.None?)
      && (row.expiryDate.Some? || c.value.expiryDate.None?)
  }

  lemma JoinedAgain(t: CaseTable, contracts: seq<ContractRow>, again: seq<ContractRow>, i: nat)
    requires i < |t.rows|
    ensures
      var first := CasesAfter(Some(t), Some(contracts)).value;
      var joined := ContractOf(contracts, t.rows[i].id);
      && |first.rows| == |t.rows| == |CasesAfter(Some(first), Some(again)).value.rows|
      && first.rows[i].activationDate ==
           Coalesce(Held(t, t.rows[i], false), if joined.Some? then Brought(joined.value, false) else None)
      && first.rows[i].expiryDate ==
           Coalesce(Held(t, t.rows[i], true), if joined.Some? then Brought(joined.value, true) else None)
      && (joined.Some? ==> first.rows[i].contractSentAt.Some?)
      && (CasesAfter(Some(first), Some(again)).value.rows[i] == first.rows[i] <==>
            Full(first.rows[i], ContractOf(again, t.rows[i].id)))
  {
    hide ContractOf;
  }

  lemma SameMembers(contracts: seq<ContractRow>, again: seq<ContractRow>)
    requires multiset(contracts) == multiset(again)
    ensures forall c :: c in contracts <==> c in again
  {
    assert forall c :: c in contracts <==> c in multiset(contracts);
    assert forall c :: c in again <==> c in multiset(again);
  }

  lemma SettledCasesAgain(t: CaseTable, contracts: seq<ContractRow>, again: seq<ContractRow>)
    requires multiset(contracts) == multiset(again) && CasesSettled(t, contracts)
    ensures CasesAfter(CasesAfter(Some(t), Some(contracts)), Some(again)) == CasesAfter(Some(t), Some(contracts))
  {
    var first := CasesAfter(Some(t), Some(contracts)).value;
    var second := CasesAfter(Some(first), Some(again)).value;
    assert first.hasActivation && first.hasExpiry && first.hasSentAt;
    assert second.hasActivation && second.hasExpiry && second.hasSentAt;
    SameMembers(contracts, again);
    hide CasesAfter, ContractOf;
    forall i | 0 <= i < |t.rows| ensures |second.rows| == |first.rows| == |t.rows| && second.rows[i] == first.rows[i] {
      ContractOfHas(contracts, t.rows[i].id);
      ContractOfHas(again, t.rows[i].id);
      JoinedAgain(t, contracts, again, i);
      assert Settled(t, contracts, t.rows[i], false) && Settled(t, contracts, t.rows[i], true);
    }
    assert t.rows == [] ==> second.rows == first.rows by { EmptyStaysEmpty(t, contracts, again); }
    assert second.rows == first.rows;
  }

  lemma EmptyStaysEmpty(t: CaseTable, contracts: seq<ContractRow>, again: seq<ContractRow>)
    ensures |CasesAfter(Some(t), Some(contracts)).value.rows| == |t.rows|
    ensures |CasesAfter(CasesAfter(Some(t), Some(contracts)), Some(again)).value.rows| == |t.rows|
  {
    hide ContractOf;
  }

  /** The contracts with the `j`-th one met first. */
  function MovedToFront(contracts: seq<ContractRow>, j: nat): (again: seq<ContractRow>)
    requires j < |contracts|
    ensures multiset(again) == multiset(contracts)
    ensures ContractOf(again, contracts[j].caseId) == Some(contracts[j])
  {
    assert contracts == contracts[..j] + [contracts[j]] + contracts[j + 1..];
    [contracts[j]] + (contracts[..j] + contracts[j + 1..])
  }

  /** An unsettled date waits for a boot that meets the right contract first. */
  lemma UnsettledWaits(t: CaseTable, contracts: seq<ContractRow>, i: nat, expiry: bool) returns (again: seq<ContractRow>)
    requires i < |t.rows| && !Settled(t, contracts, t.rows[i], expiry)
    ensures multiset(again) == multiset(contracts)
    ensures CasesAfter(CasesAfter(Some(t), Some(contracts)), Some(again)) != CasesAfter(Some(t), Some(contracts))
  {
    var c :| c in contracts && c.caseId == t.rows[i].id && Brought(c, expiry).Some?;
    var j :| 0 <= j < |contracts| && contracts[j] == c;
    again := MovedToFront(contracts, j);
    hide ContractOf, CasesAfter;
    JoinedAgain(t, contracts, again, i);
  }

  lemma LowerTwice(s: string)
    ensures LowerAll(LowerAll(s)) == LowerAll(s)
  {
    assert forall c: char :: Lower(Lower(c)) == Lower(c);
  }

  /** Folding the addresses does not change which of them collide. */
  lemma SameCollisions(rows: seq<UserRow>, after: seq<UserRow>, folded: string)
    requires |rows| == |after|
    requires forall i :: 0 <= i < |rows| ==> LowerAll(after[i].email) == LowerAll(rows[i].email)
    ensures IsBlocked(after, folded) <==> IsBlocked(rows, folded)
  {
    hide LowerAll;
  }

  lemma UsersAgain(t: UserTable)
    ensures UsersAfter(UsersAfter(Some(t))) == UsersAfter(Some(t))
    ensures UsersLowered(UsersAfter(Some(t))) == UsersAfter(Some(t))
  {
    hide LowerAll, IsBlocked;
    var m := UsersAfter(Some(t)).value;
    forall i | 0 <= i < |t.rows| ensures LowerAll(m.rows[i].email) == LowerAll(t.rows[i].email) {
      LowerTwice(t.rows[i].email);
    }
    forall folded ensures IsBlocked(m.rows, folded) <==> IsBlocked(t.rows, folded) {
      SameCollisions(t.rows, m.rows, folded);
    }
    var again := Each(m.rows, WithLowerEmail(m.rows));
    forall i | 0 <= i < |m.rows| ensures again[i] == m.rows[i] {
      LowerTwice(t.rows[i].email);
    }
    assert again == m.rows;
    assert m.hasAuthProvider ==> Each(m.rows, RetireFacebook) == m.rows;
  }

  lemma {:induction false} SameRoles(users: seq<UserRow>, after: seq<UserRow>, id: nat)
    requires |users| == |after|
    requires forall i :: 0 <= i < |users| ==> users[i].id == after[i].id && users[i].role == after[i].role
    ensures RoleOf(users, id) == RoleOf(after, id)
  {
    if users != [] { SameRoles(users[1..], after[1..], id); }
  }

  lemma AddressesAgain(t: Option<AddressTable>, users: seq<UserRow>, after: seq<UserRow>)
    requires forall id :: RoleOf(users, id) == RoleOf(after, id)
    ensures AddressesAfter(AddressesAfter(t, users), after) == AddressesAfter(t, users)
  {
    hide RoleOf;
    if t.Some? && t.value.hasKind {
      var rows := Each(t.value.rows, Realigned(users));
      assert Each(rows, Realigned(after)) == rows;
    }
  }

  /** The second boot joins addresses with users whose roles are those of the first. */
  lemma RolesAgain(users: Option<UserTable>, id: nat)
    ensures RoleOf(RowsIn(UsersLowered(users)), id) == RoleOf(RowsIn(UsersLowered(UsersAfter(users))), id)
  {
    if users.Some? { SameRoles(RowsIn(UsersLowered(users)), RowsIn(UsersLowered(UsersAfter(users))), id); }
  }

  lemma SuppliersAgain(t: SupplierTable)
    ensures FoldedSuppliers(FoldedSuppliers(t)) == FoldedSuppliers(t)
  {
    var switched := if t.hasIsActive then Each(t.rows, SwitchedOff) else t.rows;
    EachAgain(switched, WarningRetired);
    hide Each;
  }

  lemma TablesAgain(db: Db)
    ensures BillsAfter(BillsAfter(db.bills)) == BillsAfter(db.bills)
    ensures EventsAfter(EventsAfter(db.events)) == EventsAfter(db.events)
    ensures PagesAfter(PagesAfter(db.pages)) == PagesAfter(db.pages)
    ensures ReconciliationAfter(ReconciliationAfter(db.reconciliation)) == ReconciliationAfter(db.reconciliation)
    ensures OtpsAfter(OtpsAfter(db.otps)) == OtpsAfter(db.otps)
    ensures PecAfter(PecAfter(db.hasPecEmail)) == PecAfter(db.hasPecEmail)
    ensures SentAfter(SentAfter(db.sent)) == SentAfter(db.sent)
    ensures OffersAfter(OffersAfter(db.offers)) == OffersAfter(db.offers)
    ensures SuppliersAfter(SuppliersAfter(db.suppliers)) == SuppliersAfter(db.suppliers)
    ensures UsersAfter(UsersAfter(db.users)) == UsersAfter(db.users)
  {
    if db.bills.Some? { EachAgain(db.bills.value, RetireBillStatus); }
    if db.events.Some? { EachAgain(db.events.value, RetireInEvent); }
    if db.pages.Some? { EachAgain(db.pages.value, RetirePage); }
    if db.suppliers.Some? {
      SuppliersAgain(db.suppliers.value.(hasIban := false));
      assert FoldedSuppliers(db.suppliers.value.(hasIban := false)).hasIban == false;
    }
    if db.users.Some? { UsersAgain(db.users.value); }
    hide Each, FoldedSuppliers, UsersLowered, WithoutFacebook, SentOffers.Backfilled, RetireBillStatus,
      RetireInEvent, RetirePage;
  }

  predicate SecondBootIsNoOp(db: Db, again: Option<seq<ContractRow>>) {
    Migrated(Migrated(db).(contracts := again)) == Migrated(db).(contracts := again)
  }

  /** The contracts once more, in any order the query may return them in. */
  ghost predicate SameContracts(contracts: Option<seq<ContractRow>>, again: Option<seq<ContractRow>>) {
    match contracts
    case None => again.None?
    case Some(rows) => again.Some? && multiset(rows) == multiset(again.value)
  }

  /** Every table but the cases is left alone by a second boot. */
  lemma OnlyCasesCanMove(db: Db, again: Option<seq<ContractRow>>)
    ensures SecondBootIsNoOp(db, again) <==>
      CasesAfter(CasesAfter(db.cases, db.contracts), again) == CasesAfter(db.cases, db.contracts)
  {
    var m := Migrated(db).(contracts := again);
    MigratedTables(db);
    MigratedTables(m);
    hide Migrated;
    TablesAgain(db);
    forall id ensures RoleOf(RowsIn(UsersLowered(db.users)), id) == RoleOf(RowsIn(UsersLowered(m.users)), id) {
      RolesAgain(db.users, id);
    }
    AddressesAgain(db.addresses, RowsIn(UsersLowered(db.users)), RowsIn(UsersLowered(m.users)));
    hide SuppliersAfter, BillsAfter, CasesAfter, EventsAfter, ReconciliationAfter, OtpsAfter, UsersAfter, PecAfter,
      SentAfter, PagesAfter, AddressesAfter, OffersAfter, RowsIn, UsersLowered;
  }

  lemma WithoutContractsAgain(t: Option<CaseTable>)
    ensures CasesAfter(CasesAfter(t, None), None) == CasesAfter(t, None)
  {
    if t.Some? {
      assert CasesAfter(CasesAfter(t, None), None).value.rows == CasesAfter(t, None).value.rows;
    }
  }

  lemma SettledBootsOnce(db: Db, again: Option<seq<ContractRow>>)
    requires AllSettled(db) && SameContracts(db.contracts, again)
    ensures SecondBootIsNoOp(db, again)
  {
    OnlyCasesCanMove(db, again);
    if db.contracts.None? {
      WithoutContractsAgain(db.cases);
    } else if db.cases.Some? {
      SettledCasesAgain(db.cases.value, db.contracts.value, again.value);
    }
    hide SecondBootIsNoOp;
  }

  /**
   * A second boot changes nothing, in whatever order the contracts come back,
   * exactly when every date of every case is settled by the first.
   */
  lemma SecondBootIsNoOpIff(db: Db)
    ensures (forall again :: SameContracts(db.contracts, again) ==> SecondBootIsNoOp(db, again)) <==> AllSettled(db)
  {
    hide SecondBootIsNoOp;
    if AllSettled(db) {
      forall again | SameContracts(db.contracts, again) ensures SecondBootIsNoOp(db, again) {
        SettledBootsOnce(db, again);
      }
    } else {
      var t, contracts := db.cases.value, db.contracts.value;
      hide Settled;
      var row :| row in t.rows && !(Settled(t, contracts, row, false) && Settled(t, contracts, row, true));
      var i :| 0 <= i < |t.rows| && t.rows[i] == row;
      var again := UnsettledWaits(t, contracts, i, Settled(t, contracts, row, false));
      OnlyCasesCanMove(db, Some(again));
      assert SameContracts(db.contracts, Some(again));
    }
  }

  /** With one contract per case it never matters what comes back first. */
  lemma MigratingTwiceIsMigratingOnce(db: Db, again: Option<seq<ContractRow>>)
    requires SameContracts(db.contracts, again)
    requires db.contracts.Some? ==> OneContractPerCase(db.contracts.value)
    ensures SecondBootIsNoOp(db, again)
  {
    hide SecondBootIsNoOp;
    if db.cases.Some? && db.contracts.Some? {
      forall row | row in db.cases.value.rows
        ensures Settled(db.cases.value, db.contracts.value, row, false)
        ensures Settled(db.cases.value, db.contracts.value, row, true)
      {
        ContractOfHas(db.contracts.value, row.id);
        hide ContractOf;
      }
    }
    SettledBootsOnce(db, again);
  }

  /** Two contracts of case 7: the first boot joins the one without dates, the second one the other. */
  lemma SecondBootFillsIn(db: Db)
    requires db.cases == Some(CaseTable(true, true, true, [CaseRow(7, CONTRACT_SENT, None, None, None)]))
    requires db.contracts == Some([ContractRow(7, None, None, 0), ContractRow(7, Some(3), Some(4), 0)])
    ensures var again := Some([ContractRow(7, Some(3), Some(4), 0), ContractRow(7, None, None, 0)]);
      && SameContracts(db.contracts, again)
      && Migrated(db).cases.value.rows[0].activationDate == None
      && Migrated(Migrated(db).(contracts := again)).cases.value.rows[0].activationDate == Some(3)
  {
    var again := Some([ContractRow(7, Some(3), Some(4), 0), ContractRow(7, None, None, 0)]);
    MigratedTables(db);
    MigratedTables(Migrated(db).(contracts := again));
    hide Migrated;
    JoinedAgain(db.cases.value, db.contracts.value, again.value, 0);
  }

  // ----- What the rows keep -----

  /** The enums can be rebuilt without the retired values: no row holds one. */
  lemma NoRetiredValueIsLeft(db: Db)
    ensures
      var m := Migrated(db);
      && (m.bills.Some? ==> forall i :: 0 <= i < |m.bills.value| ==> !IsRetiredBillStatus(m.bills.value[i].status))
      && (m.cases.Some? ==> forall i :: 0 <= i < |m.cases.value.rows| ==> m.cases.value.rows[i].status != "contract_signed")
      && (m.events.Some? ==> forall i :: 0 <= i < |m.events.value| ==>
            m.events.value[i].oldStatus != "contract_signed" && m.events.value[i].newStatus != "contract_signed")
      && (m.suppliers.Some? ==> forall i :: 0 <= i < |m.suppliers.value.rows| ==> m.suppliers.value.rows[i].status != Warning)
      && (m.users.Some? && m.users.value.hasAuthProvider ==>
            forall i :: 0 <= i < |m.users.value.rows| ==> m.users.value.rows[i].authProvider != "facebook")
  {
    MigratedTables(db);
    hide Migrated, LowerAll, IsBlocked, ContractOf;
    assert "local"[0] != "facebook"[0];
    assert |CONTRACT_SENT| != |"contract_signed"| && |CONTRACT_SENT| != |"contract_review"|;
    assert |CONTRACT_SENT| != |"contract_verification_required"| && |CONTRACT_SENT| != |"contract_verified"|;
  }

  /** A date a case already has is never overwritten; a missing one comes from its contract. */
  lemma DatesAreOnlyFilledIn(t: CaseTable, contracts: Option<seq<ContractRow>>, i: nat)
    requires i < |t.rows| && t.hasActivation && t.hasExpiry && t.hasSentAt
    ensures
      var before := t.rows[i];
      var after := CasesAfter(Some(t), contracts).value.rows[i];
      var c := if contracts.Some? then ContractOf(contracts.value, before.id) else None;
      && after.id == before.id
      && after.activationDate == Coalesce(before.activationDate, if c.Some? then c.value.activationDate else None)
      && after.expiryDate == Coalesce(before.expiryDate, if c.Some? then c.value.expiryDate else None)
      && after.contractSentAt == Coalesce(before.contractSentAt, if c.Some? then Some(c.value.createdAt) else None)
  {
    hide ContractOf, RetireCaseStatus;
  }

  predicate DistinctEmails(rows: seq<UserRow>) {
    forall i, j :: 0 <= i < j < |rows| ==> rows[i].email != rows[j].email
  }

  /** Lower-casing never makes two accounts share an address, and leaves out only those that would. */
  lemma LoweringKeepsEmailsUnique(rows: seq<UserRow>)
    requires DistinctEmails(rows)
    ensures DistinctEmails(Each(rows, WithLowerEmail(rows)))
    ensures forall i :: 0 <= i < |rows| && !IsBlocked(rows, LowerAll(rows[i].email)) ==>
              Each(rows, WithLowerEmail(rows))[i].email == LowerAll(rows[i].email)
  {
    hide LowerAll;
    var after := Each(rows, WithLowerEmail(rows));
    forall i, j | 0 <= i < j < |rows| ensures after[i].email != after[j].email {
      LowerTwice(rows[i].email);
      LowerTwice(rows[j].email);
      assert LowerAll(rows[i].email) == LowerAll(rows[j].email) ==>
          IsBlocked(rows, LowerAll(rows[i].email)) && IsBlocked(rows, LowerAll(rows[j].email));
    }
  }

  /** Nothing that was switched off becomes usable, and nothing that was usable stops being. */
  lemma SwitchedOffStaysOff(t: SupplierTable, i: nat)
    requires t.hasIsActive && i < |t.rows|
    ensures !t.rows[i].isActive ==> FoldedSuppliers(t).rows[i].status in {Inactive, PendingDeletion}
    ensures t.rows[i].isActive ==>
              FoldedSuppliers(t).rows[i].status == if t.rows[i].status == Warning then Active else t.rows[i].status
  {
  }

  /** The two status updates may come in either order. */
  lemma StatusUpdatesCommute(rows: seq<SupplierRow>)
    ensures Each(Each(rows, SwitchedOff), WarningRetired) == Each(Each(rows, WarningRetired), SwitchedOff)
  {
  }

  /** It rests on the column being read before it is dropped: dropped first, a switched-off supplier stays active. */
  lemma DroppingFirstWouldActivate()
    ensures
      var t := SupplierTable(false, true, [SupplierRow(Warning, false)]);
      FoldedSuppliers(t.(hasIsActive := false)).rows[0].status == Active && FoldedSuppliers(t).rows[0].status == Inactive
  {
  }

  /** forbiddenAccountAddressTypeFor */
  function Forbidden(role: string): AddressType {
    if role == "business" then Residential else Legal
  }

  /** Every address of a known holder is of a type its role allows; places are left alone. */
  lemma AddressTypesSuitTheRole(t: AddressTable, users: seq<UserRow>, i: nat)
    requires t.hasKind && i < |t.rows|
    ensures
      var before := t.rows[i];
      var after := AddressesAfter(Some(t), users).value.rows[i];
      var role := RoleOf(users, before.userId);
      && after.userId == before.userId
      && (role.Some? ==> after.kind != Forbidden(role.value))
      && (before.kind == SupplyPoint || before.kind == Billing ==> after == before)
      && (role.Some? && before.kind != Forbidden(role.value) ==> after == before)
  {
    hide RoleOf;
  }

  /** For a term of 1 to 60 months, the days derived from it give it back. */
  lemma MonthsSurviveDays(months: int)
    requires 1 <= months <= 60
    ensures Clamp(RoundToMonths(RoundToDays(months))) == months
    ensures RoundToDays(months) >= 28
  {
    var days := RoundToDays(months);
    assert 24 * days <= 730 * months + 12 < 24 * days + 24;
    var back := RoundToMonths(days);
    assert 730 * back <= 24 * days + 365 < 730 * back + 730;
  }

  /** Every converted offer is indefinite with no days, or has a term of 1 to 60 months that its days give back. */
  lemma ConvertedOffersAgree(o: OfferRow)
    ensures
      var after := WithDuration(o);
      if after.months.None? then after.days == 0
      else 1 <= after.months.value <= 60 && Clamp(RoundToMonths(after.days)) == after.months.value
  {
    var months := MonthsOf(o);
    if months.Some? {
      hide RoundToMonths, RoundToDays;
      MonthsSurviveDays(months.value);
    }
  }

  /** The boot that adds the column puts every bill's offers in places 0, 1, 2, ...; later boots leave them. */
  lemma FirstBootArrangesOffers(t: SentTable, bill: nat)
    requires bill in t.byBill && SentOffers.DistinctOffers(t.byBill[bill])
    ensures
      var after := SentAfter(Some(t)).value;
      bill in after.byBill
      && (if t.hasDisplayOrder then after == t else SentOffers.Arranged(after.byBill[bill]))
  {
    SentOffers.BackfillArranges(t.byBill[bill]);
    hide SentOffers.Backfilled;
  }

  // ----- The pipeline in place -----

  lemma CollisionsGrow(rows: seq<UserRow>, i: nat)
    requires i < |rows|
    ensures forall folded :: IsBlocked(rows[..i + 1], folded) <==>
      IsBlocked(rows[..i], folded) ||
      (LowerAll(rows[i].email) == folded && exists j :: 0 <= j < i && LowerAll(rows[j].email) == folded)
  {
    hide LowerAll;
    var front, longer := rows[..i], rows[..i + 1];
    forall folded: string
      ensures IsBlocked(longer, folded) <==>
        IsBlocked(front, folded) ||
        (LowerAll(rows[i].email) == folded && exists j :: 0 <= j < i && LowerAll(rows[j].email) == folded)
    {
      if IsBlocked(front, folded) {
        var j, k :| 0 <= j < k < |front| && LowerAll(front[j].email) == folded && LowerAll(front[k].email) == folded;
        assert longer[j] == front[j] && longer[k] == front[k];
      }
      if j :| LowerAll(rows[i].email) == folded && 0 <= j < i && LowerAll(rows[j].email) == folded {
        assert longer[j] == rows[j] && longer[i] == rows[i];
      }
      if IsBlocked(longer, folded) {
        var j, k :| 0 <= j < k < |longer| && LowerAll(longer[j].email) == folded && LowerAll(longer[k].email) == folded;
        assert longer[j] == rows[j] && longer[k] == rows[k];
        if k < i { assert front[j] == rows[j] && front[k] == rows[k]; }
      }
    }
  }

  /** The database while the steps run: each looks its tables and columns up, then updates or alters them. */
  class Database {
    var suppliers: Option<SupplierTable>
    var bills: Option<seq<BillRow>>
    var cases: Option<CaseTable>
    var events: Option<seq<EventRow>>
    var contracts: Option<seq<ContractRow>>
    var reconciliation: Option<ReconciliationTable>
    var otps: Option<OtpTable>
    var users: Option<UserTable>
    var hasPecEmail: Option<bool>
    var sent: Option<SentTable>
    var pages: Option<seq<PageRow>>
    var addresses: Option<AddressTable>
    var offers: Option<OfferTable>

    constructor (db: Db)
      ensures Tables() == db
    {
      suppliers, bills, cases, events, contracts := db.suppliers, db.bills, db.cases, db.events, db.contracts;
      reconciliation, otps, users, hasPecEmail := db.reconciliation, db.otps, db.users, db.hasPecEmail;
      sent, pages, addresses, offers := db.sent, db.pages, db.addresses, db.offers;
    }

    ghost function Tables(): Db
      reads this
    {
      Db(suppliers, bills, cases, events, contracts, reconciliation, otps, users, hasPecEmail, sent, pages, addresses, offers)
    }

    method RetireStatuses()
      modifies this
      ensures Tables() == RetireContractStatuses(old(Tables()))
    {
      if bills.Some? { bills := Some(Each(bills.value, RetireBillStatus)); }
      if cases.Some? { cases := Some(cases.value.(rows := Each(cases.value.rows, RetireOnCase))); }
      if events.Some? {
        ghost var before := events.value;
        events := Some(Each(events.value, RetireOldStatus));
        events := Some(Each(events.value, RetireNewStatus));
        assert events.value == Each(before, RetireInEvent);
      }
    }

    method MoveContractDates()
      modifies this
      ensures Tables() == MoveContractDatesOntoCases(old(Tables()))
    {
      if cases.None? { return; }
      cases := Some(WithDateColumns(cases.value));
      if contracts.None? { return; }
      cases := Some(cases.value.(rows := Each(cases.value.rows, WithContractDates(contracts.value))));
    }

    method RenameMatchColumn()
      modifies this
      ensures Tables() == RenameReconciliationMatchColumn(old(Tables()))
    {
      if reconciliation.None? { return; }
      if reconciliation.value.matchedContractId.None? { return; }
      if reconciliation.value.matchedCaseId.Some? { return; }
      reconciliation := Some(ReconciliationTable(None, reconciliation.value.matchedContractId));
    }

    method HashCodes()
      modifies this
      ensures Tables() == HashOtpCodes(old(Tables()))
    {
      if otps.None? || otps.value.hasCodeHash { return; }
      otps := Some(otps.value.(rows := []));
      otps := Some(otps.value.(hasCode := false));
      otps := Some(otps.value.(hasCodeHash := true));
    }

    /** The query: every folded address more than one row has. */
    static method FindCollisions(rows: seq<UserRow>) returns (blocked: set<string>)
      ensures forall folded :: folded in blocked <==> IsBlocked(rows, folded)
    {
      hide LowerAll;
      var seen: set<string> := {};
      blocked := {};
      for i := 0 to |rows|
        invariant forall folded :: folded in seen <==> exists j :: 0 <= j < i && LowerAll(rows[j].email) == folded
        invariant forall folded :: folded in blocked <==> IsBlocked(rows[..i], folded)
      {
        var folded := LowerAll(rows[i].email);
        CollisionsGrow(rows, i);
        if folded in seen { blocked := blocked + {folded}; }
        seen := seen + {folded};
      }
      assert rows[..|rows|] == rows;
    }

    method LowercaseEmails()
      modifies this
      ensures Tables() == LowercaseUserEmails(old(Tables()))
    {
      if users.None? { return; }
      var blocked := FindCollisions(users.value.rows);
      ghost var before := users.value.rows;
      var rows := users.value.rows;
      hide LowerAll, IsBlocked;
      for i := 0 to |rows|
        invariant |rows| == |before|
        invariant forall j :: 0 <= j < i ==> rows[j] == WithLowerEmail(before)(before[j])
        invariant forall j :: i <= j < |rows| ==> rows[j] == before[j]
      {
        var lower := LowerAll(rows[i].email);
        if rows[i].email != lower && lower !in blocked {
          rows := rows[i := rows[i].(email := lower)];
        }
      }
      assert rows == Each(before, WithLowerEmail(before));
      users := Some(users.value.(rows := rows));
    }

    method SeedDisplayOrder()
      modifies this
      ensures Tables() == SeedSentOfferDisplayOrder(old(Tables()))
    {
      hide SentOffers.Backfilled;
      if sent.None? { return; }
      var isNewColumn := !sent.value.hasDisplayOrder;
      sent := Some(sent.value.(hasDisplayOrder := true));
      if !isNewColumn { return; }
      var byBill := sent.value.byBill;
      sent := Some(sent.value.(byBill := map b | b in byBill :: SentOffers.Backfilled(byBill[b])));
    }

    method RealignAddressTypes()
      modifies this
      ensures Tables() == RealignAccountAddressTypes(old(Tables()))
    {
      if addresses.None? || !addresses.value.hasKind { return; }
      var rows := if users.Some? then users.value.rows else [];
      hide RoleOf;
      ghost var before := addresses.value.rows;
      addresses := Some(addresses.value.(rows := Each(addresses.value.rows, ToLegal(rows))));
      addresses := Some(addresses.value.(rows := Each(addresses.value.rows, ToResidential(rows))));
      assert addresses.value.rows == Each(before, Realigned(rows));
    }

    method AddContractDurationMonths()
      modifies this
      ensures Tables() == AddOfferContractDurationMonths(old(Tables()))
    {
      if offers.None? || offers.value.hasMonths { return; }
      offers := Some(offers.value.(hasMonths := true));
      offers := Some(offers.value.(rows := Each(offers.value.rows, WithDuration)));
    }

    method FoldSupplierFlag()
      modifies this
      ensures Tables() == FoldSupplierActiveFlagIntoStatus(old(Tables()))
    {
      if suppliers.None? { return; }
      if suppliers.value.hasIsActive {
        suppliers := Some(suppliers.value.(rows := Each(suppliers.value.rows, SwitchedOff)));
      }
      suppliers := Some(suppliers.value.(rows := Each(suppliers.value.rows, WarningRetired)));
      if suppliers.value.hasIsActive {
        suppliers := Some(suppliers.value.(hasIsActive := false));
      }
    }

    method RunPreSyncMigrations()
      modifies this
      ensures Tables() == Migrated(old(Tables()))
    {
      hide WithoutIban, SuppliersFolded, BillsAfter, CasesRetired, CasesDated, EventsAfter, ReconciliationAfter,
        OtpsAfter,
        UsersLowered, SentAfter, AddressesAfter, OffersAfter, RowsIn;
      DropIbanColumn();
      RetireStatuses();
      MoveContractDates();
      RenameMatchColumn();
      HashCodes();
      LowercaseEmails();
      if hasPecEmail.Some? { hasPecEmail := Some(true); }
      SeedDisplayOrder();
      if pages.Some? { pages := Some(Each(pages.value, RetirePage)); }
      RealignAddressTypes();
      AddContractDurationMonths();
      FoldSupplierFlag();
      if users.Some? && users.value.hasAuthProvider {
        users := Some(users.value.(rows := Each(users.value.rows, RetireFacebook)));
      }
    }

    method DropIbanColumn()
      modifies this
      ensures Tables() == DropSupplierIban(old(Tables()))
    {
      if suppliers.Some? && suppliers.value.hasIban {
        suppliers := Some(suppliers.value.(hasIban := false));
      }
    }
  }
}
