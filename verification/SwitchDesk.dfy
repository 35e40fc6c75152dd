/**
 * The switch lifecycle: bills, cases, offers and sent offers, and every service
 * call that writes them. src/modules/bills/bills.service.ts,
 * src/modules/cases/cases.service.ts, src/modules/offers/offers.service.ts and
 * the deletions of src/modules/suppliers/suppliers.service.ts.
 *
 * `Db` is the content of the tables. Each call is specified by a function from
 * the tables and the request to the new tables and the answer; the class below
 * carries the same calls out on its fields, in the order of the source.
 */
module SwitchDesk {
  import opened Wrappers
  import opened InsertionOrder
  import opened Sorting
  import opened Statuses
  import opened SentOffers

  datatype PaymentMethod = RidBancario | CreditCard | PostalOrder | BankTransfer
  datatype OfferPayment = DirectDebit | ByPostalOrder | EitherPayment
  datatype Audience = Personal | Business
  datatype UserTarget = OnlyFor(audience: Audience) | ForBoth
  datatype EnergyType = Electricity | Gas | Dual
  datatype MarketType = Fixed | Variable | Indexed

  /** A field of an update request: left out, sent as null, or sent with a value. */
  datatype Patch<T> = Keep | Clear | Set(value: T) {
    function Apply(current: Option<T>): Option<T> {
      match this
      case Keep => current
      case Clear => None
      case Set(v) => Some(v)
    }
  }

  /** `role` is the audience the bill's customer belongs to, if it has one. */
  datatype Bill = Bill(userId: Id, role: Option<Audience>, status: BillStatus, statusChangedAt: int)

  /** A day in milliseconds: requests send instants, the columns `activation_date` and `expiry_date` hold days. */
  const DAY := 86_400_000

  function DayOf(instant: int): int {
    instant / DAY
  }

  /** The instant a stored day is read back as. */
  function Midnight(day: int): int {
    day * DAY
  }

  datatype Case = Case(
    billId: Id, offerId: Id, supplierId: Id, status: CaseStatus, payment: Option<PaymentMethod>,
    activationDate: Option<int>, expiryDate: Option<int>, contractSentAt: Option<int>)

  datatype Terms = Terms(
    energyType: EnergyType, marketType: MarketType,
    pricePerKwh: Option<int>, pricePerSmc: Option<int>, spread: Option<int>,
    months: Option<int>, days: int, payment: Option<OfferPayment>, target: Option<UserTarget>,
    supplierId: Id, wording: string)

  datatype Offer = Offer(status: OfferStatus, terms: Terms, deleted: bool)

  datatype VerificationStatus = Pending | Submitted | Resolved
  datatype Verification = Verification(billId: Id, status: VerificationStatus)

  datatype Failure = NotFound | Forbidden | BadRequest
  type Answer = Result<nat, Failure>

  /** `cases` and `verifications` are in the order they were created. */
  datatype Db = Db(
    bills: map<Id, Bill>, cases: seq<Case>, offers: map<Id, Offer>, suppliers: map<Id, SupplierStatus>,
    sent: map<Id, seq<SentRow>>, verifications: seq<Verification>)

  // ----- Queries -----

  predicate HoldsBill(c: Case, bill: Id) {
    c.billId == bill && !Closed(c.status)
  }

  /** A case of the bill that is neither cancelled nor rejected. */
  predicate HasOpenCase(cases: seq<Case>, bill: Id) {
    exists i :: 0 <= i < |cases| && HoldsBill(cases[i], bill)
  }

  /** checkOfferHasAcceptedCases */
  predicate IsAccepted(cases: seq<Case>, offer: Id) {
    exists i :: 0 <= i < |cases| && cases[i].offerId == offer && !Closed(cases[i].status)
  }

  /** The most recently created case of the bill. */
  function Newest(cases: seq<Case>, bill: Id): (r: Option<nat>)
    ensures r.Some? ==> r.value < |cases| && cases[r.value].billId == bill
    ensures r.Some? ==> forall i :: r.value < i < |cases| ==> cases[i].billId != bill
    ensures r.None? ==> forall i :: 0 <= i < |cases| ==> cases[i].billId != bill
  {
    if cases == [] then None
    else if cases[|cases| - 1].billId == bill then Some(|cases| - 1)
    else Newest(cases[..|cases| - 1], bill)
  }

  predicate OfferExists(offers: map<Id, Offer>, offer: Id) {
    offer in offers && !offers[offer].deleted
  }

  predicate LeavingCatalogue(suppliers: map<Id, SupplierStatus>, supplier: Id) {
    supplier in suppliers && suppliers[supplier] == PendingDeletion
  }

  function SentFor(sent: map<Id, seq<SentRow>>, bill: Id): seq<SentRow> {
    if bill in sent then sent[bill] else []
  }

  /** assertPaymentMethodAcceptedBy */
  predicate PaymentAccepted(offer: Offer, chosen: Option<PaymentMethod>) {
    match offer.terms.payment
    case None => true
    case Some(EitherPayment) => true
    case Some(DirectDebit) => chosen.None? || chosen.value == RidBancario
    case Some(ByPostalOrder) => chosen.None? || chosen.value == PostalOrder
  }

  // ----- Bill status -----

  /** setBillStatus: an unchanged status is not a change. */
  function WithStatus(bill: Bill, next: BillStatus, now: int): Bill {
    if bill.status == next then bill else bill.(status := next, statusChangedAt := now)
  }

  function MoveBill(db: Db, bill: Id, next: BillStatus, now: int): Db
    requires bill in db.bills
  {
    db.(bills := db.bills[bill := WithStatus(db.bills[bill], next, now)])
  }

  // ----- createCase -----

  /** `debitComplete`: both the IBAN and the holder's tax ID were given. */
  datatype CreateCaseDto = CreateCaseDto(
    billId: Id, offerId: Id, payment: Option<PaymentMethod>, debitComplete: bool)

  function CreateCase(db: Db, user: Id, dto: CreateCaseDto, now: int): (Db, Answer) {
    if dto.billId !in db.bills then (db, Err(NotFound))
    else if db.bills[dto.billId].userId != user then (db, Err(Forbidden))
    else if HasOpenCase(db.cases, dto.billId) then (db, Err(BadRequest))
    else if !OfferExists(db.offers, dto.offerId) then (db, Err(NotFound))
    else
      var offer := db.offers[dto.offerId];
      if LeavingCatalogue(db.suppliers, offer.terms.supplierId) then (db, Err(BadRequest))
      else if !PaymentAccepted(offer, dto.payment) then (db, Err(BadRequest))
      else if dto.payment == Some(RidBancario) && !dto.debitComplete then (db, Err(BadRequest))
      else if !IsSent(SentFor(db.sent, dto.billId), dto.offerId) then (db, Err(BadRequest))
      else
        var c := Case(dto.billId, dto.offerId, offer.terms.supplierId, New, dto.payment, None, None, None);
        var bill := db.bills[dto.billId].(status := OfferAccepted, statusChangedAt := now);
        (db.(cases := db.cases + [c], bills := db.bills[dto.billId := bill]), Ok(|db.cases|))
  }

  // ----- updateCase -----

  datatype UpdateCaseDto = UpdateCaseDto(
    status: Option<CaseStatus>, offerId: Option<Id>, payment: Patch<PaymentMethod>,
    activationDate: Patch<int>, expiryDate: Patch<int>, contractSentAt: Patch<int>)

  /** The instant the guard compares: the one sent, or the midnight of the day stored. */
  function AsInstant(sent: Patch<int>, stored: Option<int>): Option<int> {
    match sent
    case Keep => if stored.Some? then Some(Midnight(stored.value)) else None
    case Clear => None
    case Set(instant) => Some(instant)
  }

  predicate Follows(expiry: Option<int>, activation: Option<int>) {
    activation.Some? && expiry.Some? ==> activation.value < expiry.value
  }

  /** What the column keeps of a date that was sent. */
  function ToDay(sent: Patch<int>): Patch<int> {
    match sent
    case Set(instant) => Set(DayOf(instant))
    case _ => sent
  }

  /** The case with the request's fields written onto it. */
  function Corrected(c: Case, dto: UpdateCaseDto, supplierOfNewOffer: Option<Id>): Case {
    Case(
      c.billId,
      if supplierOfNewOffer.Some? then dto.offerId.GetOr(c.offerId) else c.offerId,
      supplierOfNewOffer.GetOr(c.supplierId),
      dto.status.GetOr(c.status),
      dto.payment.Apply(c.payment),
      ToDay(dto.activationDate).Apply(c.activationDate),
      ToDay(dto.expiryDate).Apply(c.expiryDate),
      dto.contractSentAt.Apply(c.contractSentAt))
  }

  function UpdateCase(db: Db, id: nat, dto: UpdateCaseDto): (Db, Answer) {
    if id >= |db.cases| then (db, Err(NotFound))
    else
      var c := db.cases[id];
      var moves := dto.offerId.Some? && dto.offerId.value != c.offerId;
      if moves && !OfferExists(db.offers, dto.offerId.value) then (db, Err(NotFound))
      else
        var supplier := if moves then Some(db.offers[dto.offerId.value].terms.supplierId) else None;
        if moves && LeavingCatalogue(db.suppliers, supplier.value) then (db, Err(BadRequest))
        else
          var next := Corrected(c, dto, supplier);
          if (moves || !dto.payment.Keep?) && OfferExists(db.offers, next.offerId) &&
             !PaymentAccepted(db.offers[next.offerId], next.payment) then (db, Err(BadRequest))
          else if next.status == CaseAwaitingActivation && (next.activationDate.None? || next.expiryDate.None?) then
            (db, Err(BadRequest))
          else if !Follows(AsInstant(dto.expiryDate, c.expiryDate), AsInstant(dto.activationDate, c.activationDate)) then
            (db, Err(BadRequest))
          else (db.(cases := db.cases[id := next]), Ok(id))
  }

  // ----- transitionBillStatus -----

  datatype TransitionDto = TransitionDto(
    targetStatus: BillStatus, hasMessage: bool, activationDate: Option<int>, expiryDate: Option<int>)

  /** assertActivationDates */
  predicate ActivationDatesGiven(dto: TransitionDto) {
    && (dto.targetStatus == AwaitingActivation ==> dto.activationDate.Some? && dto.expiryDate.Some?)
    && Follows(dto.expiryDate, dto.activationDate)
  }

  /** The day of a date that was sent, else the day stored. */
  function SentDay(sent: Option<int>, stored: Option<int>): Option<int> {
    if sent.Some? then Some(DayOf(sent.value)) else stored
  }

  /** applyActivationDates */
  function WithActivationDates(c: Case, dto: TransitionDto, now: int): Case {
    var stamped :=
      if dto.targetStatus == ContractSent && c.contractSentAt.None? then c.(contractSentAt := Some(now)) else c;
    if dto.targetStatus == AwaitingActivation || dto.targetStatus == Activated then
      stamped.(
        activationDate := SentDay(dto.activationDate, stamped.activationDate),
        expiryDate := SentDay(dto.expiryDate, stamped.expiryDate))
    else
      stamped.(activationDate := None, expiryDate := None)
  }

  /** applyActivationDates and then logStatusChangeOnCase. */
  function Mirrored(c: Case, dto: TransitionDto, now: int): Case {
    WithActivationDates(c, dto, now).(status := CaseStatusFor(dto.targetStatus).GetOr(c.status))
  }

  function ResolveOne(v: Verification, bill: Id): Verification {
    if v.billId == bill && v.status == Pending then v.(status := Resolved) else v
  }

  /** Every request of the bill still open is closed. */
  function ResolvePending(verifications: seq<Verification>, bill: Id): (r: seq<Verification>)
    ensures |r| == |verifications|
    ensures forall i :: 0 <= i < |r| ==> r[i] == ResolveOne(verifications[i], bill)
  {
    seq(|verifications|, i requires 0 <= i < |verifications| => ResolveOne(verifications[i], bill))
  }

  function RequestVerification(db: Db, bill: Id, now: int): (Db, Answer) {
    if bill !in db.bills then (db, Err(NotFound))
    else
      (db.(
        verifications := ResolvePending(db.verifications, bill) + [Verification(bill, Pending)],
        bills := db.bills[bill := db.bills[bill].(status := VerificationRequired, statusChangedAt := now)]),
       Ok(|db.verifications|))
  }

  function MirrorOnNewestCase(cases: seq<Case>, bill: Id, dto: TransitionDto, now: int): seq<Case> {
    var newest := Newest(cases, bill);
    if newest.None? then cases else cases[newest.value := Mirrored(cases[newest.value], dto, now)]
  }

  function TransitionBillStatus(db: Db, bill: Id, dto: TransitionDto, now: int): (Db, Answer) {
    if bill !in db.bills then (db, Err(NotFound))
    else if db.bills[bill].status == dto.targetStatus then (db, Err(BadRequest))
    else if dto.targetStatus == VerificationRequired && !dto.hasMessage then (db, Err(BadRequest))
    else if !ActivationDatesGiven(dto) then (db, Err(BadRequest))
    else
      var moved :=
        if dto.targetStatus == VerificationRequired then RequestVerification(db, bill, now).0
        else MoveBill(db.(verifications := ResolvePending(db.verifications, bill)), bill, dto.targetStatus, now);
      (moved.(cases := MirrorOnNewestCase(db.cases, bill, dto, now)), Ok(bill))
  }

  // ----- submitVerification -----

  function NewestPending(verifications: seq<Verification>, bill: Id): (r: Option<nat>)
    ensures r.Some? ==> r.value < |verifications| && verifications[r.value] == Verification(bill, Pending)
    ensures r.None? ==> Verification(bill, Pending) !in verifications
  {
    if verifications == [] then None
    else if verifications[|verifications| - 1] == Verification(bill, Pending) then Some(|verifications| - 1)
    else
      assert verifications == verifications[..|verifications| - 1] + [verifications[|verifications| - 1]];
      NewestPending(verifications[..|verifications| - 1], bill)
  }

  function SubmitVerification(db: Db, bill: Id, user: Id, now: int): (Db, Answer) {
    if bill !in db.bills then (db, Err(NotFound))
    else if db.bills[bill].userId != user then (db, Err(Forbidden))
    else
      var pending := NewestPending(db.verifications, bill);
      if pending.None? then (db, Err(NotFound))
      else
        var answered := db.verifications[pending.value := Verification(bill, Submitted)];
        (MoveBill(db.(verifications := answered), bill, VerificationReview, now), Ok(pending.value))
  }

  // ----- sendOffersToUser and reorderSentOffers -----

  /** What the offers query may answer: the undeleted offers of the request, each once, in any order. */
  ghost predicate IsAnswerTo(db: Db, request: seq<Id>, found: seq<Id>) {
    && Distinct(found)
    && (forall id :: id in found <==> id in request && OfferExists(db.offers, id))
  }

  function FromStayingSuppliers(db: Db): Id -> bool {
    (id: Id) => id in db.offers && !LeavingCatalogue(db.suppliers, db.offers[id].terms.supplierId)
  }

  /** The offers that go out, in the order the admin listed them. */
  function Batch(db: Db, request: seq<Id>, found: seq<Id>): seq<Id> {
    Filter(InRequestOrder(request, found), FromStayingSuppliers(db))
  }

  predicate ForAudience(target: Option<UserTarget>, role: Option<Audience>) {
    role.None? || target.None? || target.value.ForBoth? || target.value.audience == role.value
  }

  predicate AllForAudience(db: Db, batch: seq<Id>, role: Option<Audience>) {
    forall id :: id in batch && id in db.offers ==> ForAudience(db.offers[id].terms.target, role)
  }

  function SendOffersToUser(db: Db, bill: Id, request: seq<Id>, found: seq<Id>, firstRowId: Id, now: int): (Db,
      Answer) {
    if bill !in db.bills then (db, Err(NotFound))
    else if db.bills[bill].status == PendingEmail then (db, Err(BadRequest))
    else if HasOpenCase(db.cases, bill) then (db, Err(BadRequest))
    else if db.bills[bill].status != Verified && db.bills[bill].status != OfferSent then (db, Err(BadRequest))
    else if request == [] || found == [] then (db, Err(NotFound))
    else if Batch(db, request, found) == [] then (db, Err(BadRequest))
    else if !AllForAudience(db, Batch(db, request, found), db.bills[bill].role) then (db, Err(BadRequest))
    else
      var send := Send(db.bills[bill].userId, bill, firstRowId, now);
      var rows := AfterSend(SentFor(db.sent, bill), send, Batch(db, request, found));
      (MoveBill(db.(sent := db.sent[bill := rows]), bill, OfferSent, now), Ok(|rows|))
  }

  function ReorderOffers(db: Db, bill: Id, offers: seq<Id>): (Db, Answer) {
    if bill !in db.bills then (db, Err(NotFound))
    else
      var r := Reorder(SentFor(db.sent, bill), offers);
      if r.Err? then (db, Err(BadRequest))
      else (db.(sent := db.sent[bill := r.value]), Ok(|r.value|))
  }

  // ----- Offers -----

  /** contractDurationMonthsToDays: half a day rounds up. */
  function MonthsToDays(months: Option<int>): int {
    if months.None? || months.value <= 0 then 0 else (2 * months.value * 365 + 12) / 24
  }

  datatype OfferEdit = OfferEdit(
    energyType: Option<EnergyType>, marketType: Option<MarketType>,
    pricePerKwh: Patch<int>, pricePerSmc: Patch<int>, spread: Patch<int>,
    months: Patch<int>, payment: Patch<OfferPayment>, target: Option<UserTarget>,
    supplierId: Option<Id>, wording: Option<string>)

  function Edited(t: Terms, edit: OfferEdit): Terms {
    var months := edit.months.Apply(t.months);
    Terms(
      edit.energyType.GetOr(t.energyType), edit.marketType.GetOr(t.marketType),
      edit.pricePerKwh.Apply(t.pricePerKwh), edit.pricePerSmc.Apply(t.pricePerSmc), edit.spread.Apply(t.spread),
      months, if edit.months.Keep? then t.days else MonthsToDays(months),
      edit.payment.Apply(t.payment),
      if edit.target.Some? then edit.target else t.target,
      edit.supplierId.GetOr(t.supplierId), edit.wording.GetOr(t.wording))
  }

  /** assertPricingComplete: a price for the way the offer says it is priced. */
  predicate PricingComplete(t: Terms) {
    match t.marketType
    case Fixed =>
      && (t.energyType == Gas || t.pricePerKwh.Some?)
      && (t.energyType == Electricity || t.pricePerSmc.Some?)
    case _ => t.spread.Some?
  }

  function UpdateOffer(db: Db, offer: Id, edit: OfferEdit): (Db, Answer) {
    if !OfferExists(db.offers, offer) then (db, Err(NotFound))
    else
      var o := db.offers[offer];
      if o.status != Draft && IsAccepted(db.cases, offer) then (db, Err(BadRequest))
      else if !PricingComplete(Edited(o.terms, edit)) then (db, Err(BadRequest))
      else (db.(offers := db.offers[offer := o.(terms := Edited(o.terms, edit))]), Ok(offer))
  }

  function UpdateOfferStatus(db: Db, offer: Id, next: OfferStatus): (Db, Answer) {
    if !OfferExists(db.offers, offer) then (db, Err(NotFound))
    else
      var o := db.offers[offer];
      if !ValidOfferTransition(o.status, next, IsAccepted(db.cases, offer)) then (db, Err(BadRequest))
      else if next == Active && o.terms.supplierId !in db.suppliers then (db, Err(NotFound))
      else if next == Active && db.suppliers[o.terms.supplierId] != SupplierActive then (db, Err(BadRequest))
      else (db.(offers := db.offers[offer := o.(status := next)]), Ok(offer))
  }

  /** A switch under way, or a supply not expired by today. */
  predicate Runs(status: CaseStatus, expiry: Option<int>, today: int) {
    !Closed(status) && (status == CaseActivated ==> expiry.None? || expiry.value > today)
  }

  predicate Running(c: Case, today: int) {
    Runs(c.status, c.expiryDate, today)
  }

  predicate BlocksDeletion(c: Case, offer: Id, today: int) {
    c.offerId == offer && Running(c, today)
  }

  function DeleteOffer(db: Db, offer: Id, now: int): (Db, Answer) {
    if !OfferExists(db.offers, offer) then (db, Err(NotFound))
    else if exists i :: 0 <= i < |db.cases| && BlocksDeletion(db.cases[i], offer, DayOf(now)) then (db, Err(BadRequest))
    else (db.(offers := db.offers[offer := db.offers[offer].(deleted := true)]), Ok(offer))
  }

  // ----- Scheduling a supplier's deletion cancels its early cases -----

  function CancelIfEarly(c: Case, supplier: Id): Case {
    if c.supplierId == supplier && (c.status == New || c.status == InProgress || c.status == DocumentsPending)
    then c.(status := CaseCancelled) else c
  }

  function CancelEarlyStageCases(cases: seq<Case>, supplier: Id): (r: seq<Case>)
    ensures |r| == |cases|
    ensures forall i :: 0 <= i < |r| ==> r[i] == CancelIfEarly(cases[i], supplier)
  {
    seq(|cases|, i requires 0 <= i < |cases| => CancelIfEarly(cases[i], supplier))
  }

  /** getLiveUtilitiesForSupplier: a supply under way, or running past today. */
  predicate IsLiveUtilityOf(db: Db, c: Case, supplier: Id, today: int) {
    && OfferExists(db.offers, c.offerId) && db.offers[c.offerId].terms.supplierId == supplier
    && LiveUtility(c.status)
    && (c.expiryDate.None? || c.expiryDate.value > today)
  }

  predicate IsEndlessUtilityOf(db: Db, c: Case, supplier: Id, today: int) {
    IsLiveUtilityOf(db, c, supplier, today) && c.expiryDate.None?
  }

  function WithoutOffersOf(offers: map<Id, Offer>, supplier: Id): (r: map<Id, Offer>)
    ensures r.Keys == offers.Keys
    ensures forall id :: id in offers ==> r[id].status == offers[id].status && r[id].terms == offers[id].terms
  {
    map id | id in offers ::
      if offers[id].terms.supplierId == supplier then offers[id].(deleted := true) else offers[id]
  }

  /** The offers of the supplier and then the supplier leave the catalogue. */
  function WithoutSupplier(db: Db, supplier: Id): Db {
    db.(offers := WithoutOffersOf(db.offers, supplier), suppliers := db.suppliers - {supplier})
  }

  predicate HasLiveUtilities(db: Db, supplier: Id, today: int) {
    exists i :: 0 <= i < |db.cases| && IsLiveUtilityOf(db, db.cases[i], supplier, today)
  }

  function DeleteSupplier(db: Db, supplier: Id, now: int): (Db, Answer) {
    if supplier !in db.suppliers then (db, Err(NotFound))
    else if db.suppliers[supplier] == PendingDeletion then (db, Ok(supplier))
    else if !HasLiveUtilities(db, supplier, DayOf(now)) then (WithoutSupplier(db, supplier), Ok(supplier))
    else if exists i :: 0 <= i < |db.cases| && IsEndlessUtilityOf(db, db.cases[i], supplier, DayOf(now)) then
      (db, Err(BadRequest))
    else
      (db.(suppliers := db.suppliers[supplier := PendingDeletion],
           cases := CancelEarlyStageCases(db.cases, supplier)), Ok(supplier))
  }

  /** executeScheduledDeletions for one supplier whose date has come: put off while it still supplies anyone. */
  function ExecuteDeletion(db: Db, supplier: Id, now: int): (Db, Answer) {
    if supplier !in db.suppliers || db.suppliers[supplier] != PendingDeletion then (db, Err(NotFound))
    else if HasLiveUtilities(db, supplier, DayOf(now)) then (db, Ok(supplier))
    else (WithoutSupplier(db, supplier), Ok(supplier))
  }

  // ----- adminAssociateBillWithUser and the analysis of a bill -----

  /**
   * `userExists` and `role` are what the query for the user answers, `hasFile`
   * whether the bill holds a document to hand over. The bill is loaded with its old
   * owner; `savesColumn` says whether saving it writes the owner set on the column or
   * the one it was loaded with, which is the mapper's choice.
   */
  datatype AssociateDto = AssociateDto(
    userId: Id, userExists: bool, role: Option<Audience>, pendingBillId: Option<Id>, hasFile: bool,
    savesColumn: bool)

  /** With a pending bill the data moves there and this bill is removed; without one this bill changes hands. */
  function Associate(db: Db, bill: Id, dto: AssociateDto, now: int): (Db, Answer) {
    if bill !in db.bills then (db, Err(NotFound))
    else if !dto.userExists then (db, Err(NotFound))
    else
      match dto.pendingBillId
      case Some(pending) =>
        if pending !in db.bills || db.bills[pending].status != PendingEmail then (db, Err(NotFound))
        else if db.bills[pending].userId != dto.userId then (db, Err(BadRequest))
        else
          var merged := MoveBill(db, pending, if dto.hasFile then Analyzing else PendingEmail, now);
          (merged.(bills := merged.bills - {bill}), Ok(pending))
      case None =>
        var loaded := db.bills[bill];
        var saved := if dto.savesColumn then loaded.(userId := dto.userId, role := dto.role) else loaded;
        (db.(bills := db.bills[bill := saved]), Ok(bill))
  }

  /** processOcrInBackground and adminUploadEmailBill: the bill is being analysed, or waits for a review. */
  function Analyse(db: Db, bill: Id, finished: bool, now: int): (Db, Answer) {
    if bill !in db.bills then (db, Err(NotFound))
    else (MoveBill(db, bill, if finished then VerificationReview else Analyzing, now), Ok(bill))
  }
}
