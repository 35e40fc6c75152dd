/**
 * What the statements of src/database/pre-sync/index.ts leave in every row,
 * said from the rows themselves.
 */
module BootEffects {
  import opened Wrappers
  import opened Text
  import opened PreSync

  // ----- Retired values -----

  /** The four retired bill statuses become "contract_sent"; nothing else of any bill changes. */
  lemma BillStatusesRetire(db: Db, i: nat)
    requires db.bills.Some? && i < |db.bills.value|
    ensures
      var m := Migrated(db);
      var before := db.bills.value[i];
      && m.bills.Some? && |m.bills.value| == |db.bills.value|
      && m.bills.value[i].id == before.id
      && m.bills.value[i].status ==
           if before.status in {"contract_signed", "contract_review", "contract_verification_required", "contract_verified"}
           then "contract_sent" else before.status
  {
    MigratedTables(db);
    hide Migrated;
  }

  lemma CaseStatusesRetire(db: Db, i: nat)
    requires db.cases.Some? && i < |db.cases.value.rows|
    ensures
      var m := Migrated(db);
      var before := db.cases.value.rows[i];
      && m.cases.Some? && |m.cases.value.rows| == |db.cases.value.rows|
      && m.cases.value.rows[i].id == before.id
      && m.cases.value.rows[i].status == if before.status == "contract_signed" then "contract_sent" else before.status
  {
    MigratedTables(db);
    hide Migrated, ContractOf;
  }

  /** The history is rewritten in both of its columns, each from its own. */
  lemma EventStatusesRetire(db: Db, i: nat)
    requires db.events.Some? && i < |db.events.value|
    ensures
      var m := Migrated(db);
      var before := db.events.value[i];
      && m.events.Some? && |m.events.value| == |db.events.value|
      && m.events.value[i].oldStatus ==
           (if before.oldStatus == "contract_signed" then "contract_sent" else before.oldStatus)
      && m.events.value[i].newStatus ==
           (if before.newStatus == "contract_signed" then "contract_sent" else before.newStatus)
  {
    MigratedTables(db);
    hide Migrated;
  }

  /** The business terms are withdrawn and ask nobody; every other page stays as it was. */
  lemma BusinessTermsAreRetired(db: Db, i: nat)
    requires db.pages.Some? && i < |db.pages.value|
    ensures
      var m := Migrated(db);
      var before := db.pages.value[i];
      && m.pages.Some? && |m.pages.value| == |db.pages.value|
      && (before.slug != "business-terms-conditions" ==> m.pages.value[i] == before)
      && (before.slug == "business-terms-conditions" ==>
            && m.pages.value[i].slug == before.slug
            && !m.pages.value[i].isActive && !m.pages.value[i].requiresAcceptance)
  {
    MigratedTables(db);
    hide Migrated;
  }

  // ----- Columns that come and go -----

  /** No code readable from the table is left: the boot that adds the hashes empties it, and no other touches it. */
  lemma PlainCodesAreDropped(db: Db)
    ensures
      var m := Migrated(db);
      && (db.otps.None? <==> m.otps.None?)
      && (db.otps.Some? && db.otps.value.hasCodeHash ==> m.otps == db.otps)
      && (db.otps.Some? && !db.otps.value.hasCodeHash ==>
            m.otps.value.hasCodeHash && !m.otps.value.hasCode && m.otps.value.rows == [])
  {
    MigratedTables(db);
    hide Migrated;
  }

  /** The matches move to the new column with their values, unless both columns are there; none is ever lost. */
  lemma MatchesAreKept(db: Db)
    requires db.reconciliation.Some?
    ensures
      var m := Migrated(db);
      var before := db.reconciliation.value;
      && m.reconciliation.Some?
      && (before.matchedCaseId.Some? ==> m.reconciliation == db.reconciliation)
      && (before.matchedCaseId.None? ==>
            && m.reconciliation.value.matchedCaseId == before.matchedContractId
            && m.reconciliation.value.matchedContractId.None?)
  {
    MigratedTables(db);
    hide Migrated;
  }

  lemma TablesAreNeitherMadeNorLost(db: Db)
    ensures
      var m := Migrated(db);
      && (m.suppliers.Some? <==> db.suppliers.Some?) && (m.bills.Some? <==> db.bills.Some?)
      && (m.cases.Some? <==> db.cases.Some?) && (m.events.Some? <==> db.events.Some?)
      && m.contracts == db.contracts && (m.reconciliation.Some? <==> db.reconciliation.Some?)
      && (m.otps.Some? <==> db.otps.Some?) && (m.users.Some? <==> db.users.Some?)
      && (m.hasPecEmail.Some? <==> db.hasPecEmail.Some?) && (m.sent.Some? <==> db.sent.Some?)
      && (m.pages.Some? <==> db.pages.Some?) && (m.addresses.Some? <==> db.addresses.Some?)
      && (m.offers.Some? <==> db.offers.Some?)
      && (m.hasPecEmail.Some? ==> m.hasPecEmail.value)
      && (m.cases.Some? ==> m.cases.value.hasActivation && m.cases.value.hasExpiry && m.cases.value.hasSentAt)
      && (m.sent.Some? ==> m.sent.value.hasDisplayOrder)
      && (m.offers.Some? ==> m.offers.value.hasMonths)
      && (m.suppliers.Some? ==> !m.suppliers.value.hasIban && !m.suppliers.value.hasIsActive)
  {
    MigratedTables(db);
    hide Migrated;
    hide Each, RetireBillStatus, RetireOnCase, WithContractDates, Blanked, RetireInEvent, WithLowerEmail,
      RetireFacebook, SentOffers.Backfilled, RetirePage, Realigned, WithDuration, SwitchedOff, WarningRetired;
  }

  // ----- Suppliers -----

  /**
   * A supplier whose switch was off ends inactive unless its deletion is
   * pending. Any other keeps its status, a warning aside, which becomes active.
   */
  lemma SupplierStatusesFold(db: Db, i: nat)
    requires db.suppliers.Some? && i < |db.suppliers.value.rows|
    ensures
      var m := Migrated(db);
      var before := db.suppliers.value.rows[i];
      var off := db.suppliers.value.hasIsActive && !before.isActive;
      && m.suppliers.Some? && |m.suppliers.value.rows| == |db.suppliers.value.rows|
      && m.suppliers.value.rows[i].status ==
           match before.status
           case PendingDeletion => PendingDeletion
           case Inactive => Inactive
           case Active => if off then Inactive else Active
           case Warning => if off then Inactive else Active
  {
    MigratedTables(db);
    hide Migrated;
  }

  // ----- Accounts -----

  /** Some other account has the same address but for the case of its letters. */
  ghost predicate SharesItsAddress(rows: seq<UserRow>, i: nat)
    requires i < |rows|
  {
    exists j :: 0 <= j < |rows| && j != i && |rows[j].email| == |rows[i].email|
      && forall k :: 0 <= k < |rows[i].email| ==> Lower(rows[j].email[k]) == Lower(rows[i].email[k])
  }

  lemma BlockedIsShared(rows: seq<UserRow>, i: nat)
    requires i < |rows|
    ensures IsBlocked(rows, LowerAll(rows[i].email)) <==> SharesItsAddress(rows, i)
  {
    var folded := LowerAll(rows[i].email);
    if IsBlocked(rows, folded) {
      var a, b :| 0 <= a < b < |rows| && LowerAll(rows[a].email) == folded && LowerAll(rows[b].email) == folded;
      var j := if a == i then b else a;
      assert j != i && LowerAll(rows[j].email) == folded;
      forall k | 0 <= k < |rows[i].email| ensures Lower(rows[j].email[k]) == Lower(rows[i].email[k]) {
        assert LowerAll(rows[j].email)[k] == folded[k];
      }
    }
    if SharesItsAddress(rows, i) {
      var j :| 0 <= j < |rows| && j != i && |rows[j].email| == |rows[i].email|
        && forall k :: 0 <= k < |rows[i].email| ==> Lower(rows[j].email[k]) == Lower(rows[i].email[k]);
      assert LowerAll(rows[j].email) == folded;
      assert if i < j then LowerAll(rows[i].email) == folded else LowerAll(rows[j].email) == folded;
    }
  }

  /**
   * An account keeps its address where another has it in other letters, and has
   * it in small letters otherwise; it stays who it was, and Facebook ends local.
   */
  lemma AccountsFold(db: Db, i: nat)
    requires db.users.Some? && i < |db.users.value.rows|
    ensures
      var m := Migrated(db);
      var rows := db.users.value.rows;
      && m.users.Some? && |m.users.value.rows| == |rows|
      && m.users.value.hasAuthProvider == db.users.value.hasAuthProvider
      && m.users.value.rows[i].id == rows[i].id && m.users.value.rows[i].role == rows[i].role
      && m.users.value.rows[i].authProvider ==
           (if db.users.value.hasAuthProvider && rows[i].authProvider == "facebook" then "local" else rows[i].authProvider)
      && (SharesItsAddress(rows, i) ==> m.users.value.rows[i].email == rows[i].email)
      && (!SharesItsAddress(rows, i) ==>
            && |m.users.value.rows[i].email| == |rows[i].email|
            && forall k :: 0 <= k < |rows[i].email| ==> m.users.value.rows[i].email[k] == Lower(rows[i].email[k]))
  {
    MigratedTables(db);
    BlockedIsShared(db.users.value.rows, i);
    hide Migrated, IsBlocked, SharesItsAddress;
  }

  // ----- Dates -----


  /** A date held under its column stays; a missing one comes from a contract of the case, and from no other. */
  ghost predicate Filled(held: Option<int>, after: Option<int>, offered: set<int>) {
    && (held.Some? ==> after == held)
    && (held.None? && after.Some? ==> after.value in offered)
  }

  lemma CaseDatesFill(db: Db, i: nat)
    requires db.cases.Some? && i < |db.cases.value.rows|
    ensures
      var before := db.cases.value.rows[i];
      var after := Migrated(db).cases.value.rows[i];
      var contracts := if db.contracts.Some? then db.contracts.value else [];
      && Filled(if db.cases.value.hasActivation then before.activationDate else None, after.activationDate,
                set c | c in contracts && c.caseId == before.id && c.activationDate.Some? :: c.activationDate.value)
      && Filled(if db.cases.value.hasExpiry then before.expiryDate else None, after.expiryDate,
                set c | c in contracts && c.caseId == before.id && c.expiryDate.Some? :: c.expiryDate.value)
      && Filled(if db.cases.value.hasSentAt then before.contractSentAt else None, after.contractSentAt,
                set c | c in contracts && c.caseId == before.id :: c.createdAt)
  {
    MigratedTables(db);
    if db.contracts.Some? { ContractOfHas(db.contracts.value, db.cases.value.rows[i].id); }
    hide Migrated, ContractOf, RetireCaseStatus;
  }

  /** What the only contract of a case brings is what the case ends up with, where it held nothing. */
  lemma OnlyContractFillsIn(db: Db, i: nat, c: ContractRow)
    requires db.cases.Some? && i < |db.cases.value.rows|
    requires db.contracts.Some? && c in db.contracts.value && c.caseId == db.cases.value.rows[i].id
    requires forall d :: d in db.contracts.value && d.caseId == c.caseId ==> d == c
    ensures
      var before := db.cases.value.rows[i];
      var after := Migrated(db).cases.value.rows[i];
      && after.activationDate ==
           (if db.cases.value.hasActivation && before.activationDate.Some? then before.activationDate else c.activationDate)
      && after.expiryDate ==
           (if db.cases.value.hasExpiry && before.expiryDate.Some? then before.expiryDate else c.expiryDate)
      && after.contractSentAt ==
           (if db.cases.value.hasSentAt && before.contractSentAt.Some? then before.contractSentAt else Some(c.createdAt))
  {
    MigratedTables(db);
    ContractOfHas(db.contracts.value, c.caseId);
    hide Migrated, ContractOf, RetireCaseStatus;
  }

  // ----- Terms of the offers -----

  /** Nobody chose the term: it is the window of sale, or shorter than a month. */
  predicate TermWasDerived(o: OfferRow) {
    (o.validUntil.Some? && o.validUntil.value - o.validFrom == o.days) || o.days < 28
  }

  /** `n` twelfths of a year of 365 days are no further from `days` than half a month. */
  predicate IsNearestMonth(n: int, days: int) {
    -365 <= 2 * (12 * days - 365 * n) <= 365
  }

  predicate IsNearestDay(n: int, months: int) {
    -12 <= 2 * (365 * months - 12 * n) <= 12
  }

  /**
   * The boot that adds the column makes a derived term indefinite, with no
   * days, and any other the nearest whole month between one and sixty, with
   * the days nearest to it. The window of sale stays.
   */
  lemma OfferTermsConvert(db: Db, i: nat)
    requires db.offers.Some? && i < |db.offers.value.rows|
    ensures
      var m := Migrated(db);
      var before := db.offers.value.rows[i];
      m.offers.Some? && |m.offers.value.rows| == |db.offers.value.rows|
      && var after := m.offers.value.rows[i];
      && after.validFrom == before.validFrom && after.validUntil == before.validUntil
      && (db.offers.value.hasMonths ==> after == before)
      && (!db.offers.value.hasMonths && TermWasDerived(before) ==> after.months.None? && after.days == 0)
      && (!db.offers.value.hasMonths && !TermWasDerived(before) ==>
            && after.months.Some? && 1 <= after.months.value <= 60
            && (after.months.value == 60 || IsNearestMonth(after.months.value, before.days))
            && (after.months.value == 60 && before.days <= 1825 ==> IsNearestMonth(60, before.days))
            && IsNearestDay(after.days, after.months.value))
  {
    MigratedTables(db);
    hide Migrated;
    var o := db.offers.value.rows[i];
    RoundingIsNearest(o.days);
    var months := MonthsOf(o);
    if months.Some? { DaysAreNearest(months.value); }
    hide RoundToDays, RoundToMonths;
  }

  lemma RoundingIsNearest(days: int)
    ensures days >= 28 ==> RoundToMonths(days) >= 1 && IsNearestMonth(RoundToMonths(days), days)
    ensures 28 <= days <= 1825 ==> RoundToMonths(days) <= 60
  {
    var n := RoundToMonths(days);
    assert 730 * n <= 24 * days + 365 < 730 * n + 730;
  }

  lemma DaysAreNearest(months: int)
    ensures IsNearestDay(RoundToDays(months), months)
  {
    var n := RoundToDays(months);
    assert 24 * n <= 730 * months + 12 < 24 * n + 24;
  }

  // ----- Addresses -----

  /**
   * A company's residence becomes its registered office, a person's registered
   * office a residence, and nothing else moves.
   */
  lemma AddressTypesFollowTheRole(db: Db, i: nat, u: UserRow)
    requires db.addresses.Some? && db.addresses.value.hasKind && i < |db.addresses.value.rows|
    requires db.users.Some? && u in db.users.value.rows && u.id == db.addresses.value.rows[i].userId
    requires forall v :: v in db.users.value.rows && v.id == u.id ==> v == u
    ensures
      var m := Migrated(db);
      var before := db.addresses.value.rows[i];
      m.addresses.Some? && |m.addresses.value.rows| == |db.addresses.value.rows|
      && m.addresses.value.rows[i].userId == before.userId
      && m.addresses.value.rows[i].kind ==
           match before.kind
           case Residential => if u.role == "business" then Legal else Residential
           case Legal => if u.role == "business" then Legal else Residential
           case SupplyPoint => SupplyPoint
           case Billing => Billing
  {
    MigratedTables(db);
    var lowered := RowsIn(UsersLowered(db.users));
    SameRoles(db.users.value.rows, lowered, u.id);
    RoleIsOfTheRow(db.users.value.rows, u);
    hide Migrated, RoleOf, UsersLowered;
  }

  lemma {:induction false} RoleIsOfTheRow(users: seq<UserRow>, u: UserRow)
    requires u in users && forall v :: v in users && v.id == u.id ==> v == u
    ensures RoleOf(users, u.id) == Some(u.role)
  {
    if users[0].id != u.id {
      assert users == [users[0]] + users[1..];
      RoleIsOfTheRow(users[1..], u);
    }
  }

  lemma {:induction false} UnknownHolderHasNoRole(users: seq<UserRow>, id: nat)
    requires forall v :: v in users ==> v.id != id
    ensures RoleOf(users, id).None?
  {
    if users != [] { UnknownHolderHasNoRole(users[1..], id); }
  }

  /** Without the column, or without the holder, an address stays as it is. */
  lemma OrphanAddressesStay(db: Db, i: nat)
    requires db.addresses.Some? && i < |db.addresses.value.rows|
    requires !db.addresses.value.hasKind || db.users.None?
          || forall v :: v in db.users.value.rows ==> v.id != db.addresses.value.rows[i].userId
    ensures
      var m := Migrated(db);
      m.addresses.Some? && i < |m.addresses.value.rows| && m.addresses.value.rows[i] == db.addresses.value.rows[i]
  {
    MigratedTables(db);
    var lowered := RowsIn(UsersLowered(db.users));
    var id := db.addresses.value.rows[i].userId;
    if db.users.Some? && db.addresses.value.hasKind {
      SameRoles(db.users.value.rows, lowered, id);
      UnknownHolderHasNoRole(db.users.value.rows, id);
    }
    hide Migrated, RoleOf, UsersLowered;
  }
}
