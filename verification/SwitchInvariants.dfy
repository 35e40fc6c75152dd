/**
 * What holds the switch lifecycle together: rules no single call states, each
 * proved for every call that writes the tables, or with the exact calls that break it.
 */
module SwitchInvariants {
  import opened Wrappers
  import opened InsertionOrder
  import opened Sorting
  import opened Statuses
  import opened SentOffers
  import opened SwitchDesk

  /** One service call, or a row arriving from outside the lifecycle. */
  datatype Call =
    | CreateCaseCall(user: Id, create: CreateCaseDto)
    | UpdateCaseCall(id: nat, update: UpdateCaseDto)
    | TransitionCall(bill: Id, transition: TransitionDto)
    | RequestVerificationCall(bill: Id)
    | SubmitVerificationCall(bill: Id, user: Id)
    | SendOffersCall(bill: Id, request: seq<Id>, found: seq<Id>, firstRowId: Id)
    | ReorderOffersCall(bill: Id, order: seq<Id>)
    | UpdateOfferCall(offer: Id, edit: OfferEdit)
    | UpdateOfferStatusCall(offer: Id, next: OfferStatus)
    | DeleteOfferCall(offer: Id)
    | DeleteSupplierCall(supplier: Id)
    | ExecuteDeletionCall(supplier: Id)
    | AssociateCall(bill: Id, association: AssociateDto)
    | AnalyseCall(bill: Id, finished: bool)
    | BillArrives(bill: Id, newBill: Bill)
    | OfferArrives(offer: Id, newOffer: Offer)
    | SupplierArrives(supplier: Id, status: SupplierStatus)

  function Answered(db: Db, call: Call, now: int): (Db, Answer) {
    match call
    case CreateCaseCall(user, dto) => CreateCase(db, user, dto, now)
    case UpdateCaseCall(id, dto) => UpdateCase(db, id, dto)
    case TransitionCall(bill, dto) => TransitionBillStatus(db, bill, dto, now)
    case RequestVerificationCall(bill) => RequestVerification(db, bill, now)
    case SubmitVerificationCall(bill, user) => SubmitVerification(db, bill, user, now)
    case SendOffersCall(bill, request, found, firstRowId) => SendOffersToUser(db, bill, request, found, firstRowId, now)
    case ReorderOffersCall(bill, order) => ReorderOffers(db, bill, order)
    case UpdateOfferCall(offer, edit) => UpdateOffer(db, offer, edit)
    case UpdateOfferStatusCall(offer, next) => UpdateOfferStatus(db, offer, next)
    case DeleteOfferCall(offer) => DeleteOffer(db, offer, now)
    case DeleteSupplierCall(supplier) => DeleteSupplier(db, supplier, now)
    case ExecuteDeletionCall(supplier) => ExecuteDeletion(db, supplier, now)
    case AssociateCall(bill, dto) => Associate(db, bill, dto, now)
    case AnalyseCall(bill, finished) => Analyse(db, bill, finished, now)
    case BillArrives(bill, newBill) =>
      (if bill in db.bills then db else db.(bills := db.bills[bill := newBill]), Ok(bill))
    case OfferArrives(offer, newOffer) =>
      (if offer in db.offers then db else db.(offers := db.offers[offer := newOffer]), Ok(offer))
    case SupplierArrives(supplier, status) => (db.(suppliers := db.suppliers[supplier := status]), Ok(supplier))
  }

  function After(db: Db, call: Call, now: int): Db {
    Answered(db, call, now).0
  }

  predicate Accepted(db: Db, call: Call, now: int) {
    Answered(db, call, now).1.Ok?
  }

  datatype Event = Event(call: Call, now: int)

  /** The tables after each prefix of a run. */
  ghost predicate IsRun(dbs: seq<Db>, events: seq<Event>) {
    && |dbs| == |events| + 1
    && (forall i :: 0 <= i < |events| ==> dbs[i + 1] == After(dbs[i], events[i].call, events[i].now))
  }

  // ----- Only the newest case of a bill may be open -----

  predicate OnlyNewestOpen(cases: seq<Case>) {
    forall i, j :: 0 <= i < j < |cases| && cases[i].billId == cases[j].billId ==> Closed(cases[i].status)
  }

  predicate Moves(c: Case, dto: UpdateCaseDto) {
    dto.offerId.Some? && dto.offerId.value != c.offerId
  }

  /** The offer the case names after the request fits the payment it names then, as far as either is sent. */
  predicate PairFits(db: Db, c: Case, dto: UpdateCaseDto) {
    var offer := if Moves(c, dto) then dto.offerId.value else c.offerId;
    (Moves(c, dto) || !dto.payment.Keep?) && OfferExists(db.offers, offer) ==>
      PaymentAccepted(db.offers[offer], dto.payment.Apply(c.payment))
  }

  /** The guards of updateCase, read before the call. */
  predicate UpdateAllowed(db: Db, id: nat, dto: UpdateCaseDto) {
    && id < |db.cases|
    && var c := db.cases[id];
       var activation, expiry := AsInstant(dto.activationDate, c.activationDate), AsInstant(dto.expiryDate, c.expiryDate);
       && (Moves(c, dto) ==>
             && OfferExists(db.offers, dto.offerId.value)
             && !LeavingCatalogue(db.suppliers, db.offers[dto.offerId.value].terms.supplierId))
       && PairFits(db, c, dto)
       && (dto.status.GetOr(c.status) == CaseAwaitingActivation ==> activation.Some? && expiry.Some?)
       && Follows(expiry, activation)
  }

  lemma UpdateIsAllowedIff(db: Db, id: nat, dto: UpdateCaseDto, now: int)
    ensures Accepted(db, UpdateCaseCall(id, dto), now) <==> UpdateAllowed(db, id, dto)
  {
    hide PaymentAccepted, LeavingCatalogue, Follows, OfferExists;
  }

  /** An allowed updateCase that puts an open status on a case its bill has replaced. */
  predicate ReopensReplacedCase(db: Db, call: Call) {
    && call.UpdateCaseCall? && UpdateAllowed(db, call.id, call.update)
    && call.update.status.Some? && !Closed(call.update.status.value)
    && Newest(db.cases, db.cases[call.id].billId) != Some(call.id)
  }

  lemma NewestIsNewest(cases: seq<Case>, bill: Id, i: nat)
    requires i < |cases| && cases[i].billId == bill
    requires forall j :: i < j < |cases| ==> cases[j].billId != bill
    ensures Newest(cases, bill) == Some(i)
  {
    var n := Newest(cases, bill);
  }

  /** A call that leaves bills, statuses and order of the cases alone keeps the rule. */
  lemma SameStatusesKeepOnlyNewestOpen(before: seq<Case>, after: seq<Case>)
    requires OnlyNewestOpen(before) && |after| == |before|
    requires forall i :: 0 <= i < |after| ==> after[i].billId == before[i].billId
    requires forall i :: 0 <= i < |after| ==> after[i].status == before[i].status || Closed(after[i].status)
    ensures OnlyNewestOpen(after)
  {
  }

  lemma UpdateCaseAndOnlyNewestOpen(db: Db, id: nat, dto: UpdateCaseDto, now: int)
    requires OnlyNewestOpen(db.cases)
    ensures OnlyNewestOpen(UpdateCase(db, id, dto).0.cases) <==> !ReopensReplacedCase(db, UpdateCaseCall(id, dto))
  {
    UpdateIsAllowedIff(db, id, dto, now);
    hide PaymentAccepted, Follows, AsInstant, LeavingCatalogue, OfferExists, UpdateAllowed;
    var call := UpdateCaseCall(id, dto);
    var after := UpdateCase(db, id, dto).0.cases;
    if Accepted(db, call, now) {
      var bill := db.cases[id].billId;
      var newest := Newest(db.cases, bill);
      assert after[id].billId == bill && after[id].status == dto.status.GetOr(db.cases[id].status);
      assert newest.Some?;
      if newest.value != id {
        assert id < newest.value && Closed(db.cases[id].status);
        assert after[newest.value] == db.cases[newest.value];
      }
    }
  }

  lemma TransitionKeepsOnlyNewestOpen(cases: seq<Case>, bill: Id, dto: TransitionDto, now: int)
    requires OnlyNewestOpen(cases)
    ensures OnlyNewestOpen(MirrorOnNewestCase(cases, bill, dto, now))
  {
    hide CaseStatusFor;
    var newest := Newest(cases, bill);
    if newest.Some? {
      var after := MirrorOnNewestCase(cases, bill, dto, now);
      assert after[newest.value].billId == bill;
    }
  }

  lemma CreateCaseKeepsOnlyNewestOpen(db: Db, user: Id, dto: CreateCaseDto, now: int)
    requires OnlyNewestOpen(db.cases)
    ensures OnlyNewestOpen(CreateCase(db, user, dto, now).0.cases)
  {
    hide PaymentAccepted, LeavingCatalogue, OfferExists, IsSent;
    var after := CreateCase(db, user, dto, now).0.cases;
    if |after| > |db.cases| {
      forall i | 0 <= i < |db.cases| && db.cases[i].billId == dto.billId ensures Closed(db.cases[i].status) {
        assert !HoldsBill(db.cases[i], dto.billId);
      }
    }
  }

  /** Exactly one kind of call can break the rule, and the guard that would stop it is a status check. */
  lemma StepAndOnlyNewestOpen(db: Db, call: Call, now: int)
    requires OnlyNewestOpen(db.cases)
    ensures OnlyNewestOpen(After(db, call, now).cases) <==> !ReopensReplacedCase(db, call)
  {
    hide OnlyNewestOpen, UpdateCase, CreateCase, MirrorOnNewestCase, Batch, AfterSend, Reorder;
    match call {
      case UpdateCaseCall(id, dto) => UpdateCaseAndOnlyNewestOpen(db, id, dto, now);
      case CreateCaseCall(user, dto) => CreateCaseKeepsOnlyNewestOpen(db, user, dto, now);
      case TransitionCall(bill, dto) => TransitionKeepsOnlyNewestOpen(db.cases, bill, dto, now);
      case DeleteSupplierCall(supplier) =>
        SameStatusesKeepOnlyNewestOpen(db.cases, After(db, call, now).cases);
      case _ =>
    }
  }

  predicate NeverReopensReplacedCase(dbs: seq<Db>, events: seq<Event>)
    requires |dbs| == |events| + 1
  {
    forall i :: 0 <= i < |events| ==> !ReopensReplacedCase(dbs[i], events[i].call)
  }

  predicate AtMostOneOpen(cases: seq<Case>) {
    forall i, j :: 0 <= i < j < |cases| && cases[i].billId == cases[j].billId ==>
      Closed(cases[i].status) || Closed(cases[j].status)
  }

  /** In every run that never reopens a replaced case, a bill has at most one open case: its newest. */
  lemma {:induction false} RunKeepsOnlyNewestOpen(dbs: seq<Db>, events: seq<Event>, n: nat)
    requires IsRun(dbs, events) && OnlyNewestOpen(dbs[0].cases) && NeverReopensReplacedCase(dbs, events)
    requires n < |dbs|
    ensures OnlyNewestOpen(dbs[n].cases) && AtMostOneOpen(dbs[n].cases)
  {
    hide After, ReopensReplacedCase;
    if n > 0 {
      RunKeepsOnlyNewestOpen(dbs, events, n - 1);
      StepAndOnlyNewestOpen(dbs[n - 1], events[n - 1].call, events[n - 1].now);
    }
  }

  /** The one escape, on two concrete cases: an admin sets a replaced, cancelled case back to new. */
  lemma ReopeningGivesTwoOpenCases(db: Db, now: int)
    requires db.cases == [
      Case(0, 0, 0, CaseCancelled, None, None, None, None),
      Case(0, 0, 0, New, None, None, None, None)]
    ensures OnlyNewestOpen(db.cases)
    ensures !AtMostOneOpen(
      After(db, UpdateCaseCall(0, UpdateCaseDto(Some(New), None, Keep, Keep, Keep, Keep)), now).cases)
  {
    var after := After(db, UpdateCaseCall(0, UpdateCaseDto(Some(New), None, Keep, Keep, Keep, Keep)), now).cases;
    assert after[0].status == New && after[1] == db.cases[1];
  }

  // ----- A case in activation carries its dates -----

  /** Days are compared: the expiry may fall on the very day of the activation. */
  predicate Dated(c: Case) {
    c.status == CaseAwaitingActivation ==>
      c.activationDate.Some? && c.expiryDate.Some? && c.activationDate.value <= c.expiryDate.value
  }

  predicate AllDated(cases: seq<Case>) {
    forall i :: 0 <= i < |cases| ==> Dated(cases[i])
  }

  /** The guards of transitionBillStatus, read before the call. */
  predicate TransitionAllowed(db: Db, bill: Id, dto: TransitionDto) {
    && bill in db.bills && db.bills[bill].status != dto.targetStatus
    && (dto.targetStatus == VerificationRequired ==> dto.hasMessage)
    && ActivationDatesGiven(dto)
  }

  lemma TransitionIsAllowedIff(db: Db, bill: Id, dto: TransitionDto, now: int)
    ensures Accepted(db, TransitionCall(bill, dto), now) <==> TransitionAllowed(db, bill, dto)
  {
  }

  /** An allowed move to a bill status that has no case status, of a bill whose newest case is in activation. */
  predicate StripsDates(db: Db, call: Call) {
    && call.TransitionCall? && TransitionAllowed(db, call.bill, call.transition)
    && CaseStatusFor(call.transition.targetStatus).None?
    && Newest(db.cases, call.bill).Some?
    && db.cases[Newest(db.cases, call.bill).value].status == CaseAwaitingActivation
  }

  lemma DaysFollowInstants(activation: int, expiry: int)
    ensures activation <= expiry ==> DayOf(activation) <= DayOf(expiry)
    ensures DayOf(Midnight(activation)) == activation
  {
  }

  lemma TransitionAndDates(db: Db, bill: Id, dto: TransitionDto, now: int)
    requires AllDated(db.cases)
    ensures AllDated(TransitionBillStatus(db, bill, dto, now).0.cases) <==>
      !StripsDates(db, TransitionCall(bill, dto))
  {
    TransitionIsAllowedIff(db, bill, dto, now);
    if dto.activationDate.Some? && dto.expiryDate.Some? {
      DaysFollowInstants(dto.activationDate.value, dto.expiryDate.value);
    }
    hide RequestVerification, MoveBill, DayOf;
    SelectableStatusesMoveTheCase(dto.targetStatus);
    var newest := Newest(db.cases, bill);
    if newest.Some? && TransitionAllowed(db, bill, dto) {
      var after := TransitionBillStatus(db, bill, dto, now).0.cases;
      assert after[newest.value] == Mirrored(db.cases[newest.value], dto, now);
    }
  }

  /** The day written is the day of the instant the guard compared. */
  lemma WrittenDay(sent: Patch<int>, stored: Option<int>)
    ensures var instant := AsInstant(sent, stored);
      ToDay(sent).Apply(stored) == if instant.Some? then Some(DayOf(instant.value)) else None
  {
    if stored.Some? { DaysFollowInstants(stored.value, stored.value); }
  }

  /** The dates of an updated case are the days of two instants of which the expiry is later. */
  lemma UpdatedDates(db: Db, id: nat, dto: UpdateCaseDto, now: int)
    requires UpdateAllowed(db, id, dto)
    ensures var c := UpdateCase(db, id, dto).0.cases[id];
      var activation := AsInstant(dto.activationDate, db.cases[id].activationDate);
      var expiry := AsInstant(dto.expiryDate, db.cases[id].expiryDate);
      && c.status == dto.status.GetOr(db.cases[id].status)
      && c.activationDate == (if activation.Some? then Some(DayOf(activation.value)) else None)
      && c.expiryDate == (if expiry.Some? then Some(DayOf(expiry.value)) else None)
      && (activation.Some? && expiry.Some? ==> DayOf(activation.value) <= DayOf(expiry.value))
  {
    UpdateIsAllowedIff(db, id, dto, now);
    var activation := AsInstant(dto.activationDate, db.cases[id].activationDate);
    var expiry := AsInstant(dto.expiryDate, db.cases[id].expiryDate);
    WrittenDay(dto.activationDate, db.cases[id].activationDate);
    WrittenDay(dto.expiryDate, db.cases[id].expiryDate);
    if activation.Some? && expiry.Some? { DaysFollowInstants(activation.value, expiry.value); }
    hide PaymentAccepted, LeavingCatalogue, OfferExists, AsInstant, ToDay, DayOf;
  }

  lemma UpdateCaseKeepsDates(db: Db, id: nat, dto: UpdateCaseDto, now: int)
    requires AllDated(db.cases)
    ensures AllDated(UpdateCase(db, id, dto).0.cases)
  {
    UpdateIsAllowedIff(db, id, dto, now);
    if UpdateAllowed(db, id, dto) { UpdatedDates(db, id, dto, now); }
    hide PaymentAccepted, LeavingCatalogue, OfferExists, AsInstant, ToDay, DayOf, Corrected;
  }

  /** The rule that dates exist survives every call, except one status the transition maps to no case status. */
  lemma StepAndDates(db: Db, call: Call, now: int)
    requires AllDated(db.cases)
    ensures AllDated(After(db, call, now).cases) <==> !StripsDates(db, call)
  {
    hide UpdateCase, TransitionBillStatus, Batch, AfterSend, Reorder, PaymentAccepted, LeavingCatalogue, HasLiveUtilities;
    match call {
      case UpdateCaseCall(id, dto) => UpdateCaseKeepsDates(db, id, dto, now);
      case TransitionCall(bill, dto) => TransitionAndDates(db, bill, dto, now);
      case _ =>
    }
  }

  predicate OnlySelectableTargets(events: seq<Event>) {
    forall i :: 0 <= i < |events| && events[i].call.TransitionCall? ==>
      events[i].call.transition.targetStatus in ADMIN_SELECTABLE_STATUSES
  }

  /**
   * In every run whose transitions stay among the selectable statuses, a case in
   * activation has both dates, the expiry on no earlier day.
   */
  lemma {:induction false} RunKeepsDates(dbs: seq<Db>, events: seq<Event>, n: nat)
    requires IsRun(dbs, events) && AllDated(dbs[0].cases) && OnlySelectableTargets(events)
    requires n < |dbs|
    ensures AllDated(dbs[n].cases)
  {
    hide After, AllDated;
    if n > 0 {
      RunKeepsDates(dbs, events, n - 1);
      var event := events[n - 1];
      if event.call.TransitionCall? { SelectableStatusesMoveTheCase(event.call.transition.targetStatus); }
      StepAndDates(dbs[n - 1], event.call, event.now);
    }
  }

  /** The escape, concretely: moving the bill to the OCR error status strips the dates of a case left in activation. */
  lemma ErrorStatusStripsDates(db: Db, now: int)
    requires db.cases == [Case(0, 0, 0, CaseAwaitingActivation, None, Some(1), Some(2), None)]
    requires 0 in db.bills && db.bills[0].status == AwaitingActivation
    ensures AllDated(db.cases)
    ensures !AllDated(After(db, TransitionCall(0, TransitionDto(Error, false, None, None)), now).cases)
  {
    var dto := TransitionDto(Error, false, None, None);
    NewestIsNewest(db.cases, 0, 0);
    TransitionAndDates(db, 0, dto, now);
    assert StripsDates(db, TransitionCall(0, dto));
  }

  // ----- Later by the instant, the same by the day -----

  /** What both guards are there for: the supply expires on a later day than it starts. */
  predicate Lasting(c: Case) {
    c.status == CaseAwaitingActivation ==>
      c.activationDate.Some? && c.expiryDate.Some? && c.activationDate.value < c.expiryDate.value
  }

  predicate AllLasting(cases: seq<Case>) {
    forall i :: 0 <= i < |cases| ==> Lasting(cases[i])
  }

  /** An allowed move into activation, on either endpoint, whose two instants fall on one day. */
  predicate StartsAndEndsInADay(db: Db, call: Call) {
    match call
    case TransitionCall(bill, dto) =>
      && TransitionAllowed(db, bill, dto) && Newest(db.cases, bill).Some?
      && dto.targetStatus == AwaitingActivation && DayOf(dto.activationDate.value) == DayOf(dto.expiryDate.value)
    case UpdateCaseCall(id, dto) =>
      && UpdateAllowed(db, id, dto) && dto.status.GetOr(db.cases[id].status) == CaseAwaitingActivation
      && DayOf(AsInstant(dto.activationDate, db.cases[id].activationDate).value) ==
           DayOf(AsInstant(dto.expiryDate, db.cases[id].expiryDate).value)
    case _ => false
  }

  lemma TransitionAndLasting(db: Db, bill: Id, dto: TransitionDto, now: int)
    requires AllLasting(db.cases)
    ensures AllLasting(TransitionBillStatus(db, bill, dto, now).0.cases) <==>
      !StripsDates(db, TransitionCall(bill, dto)) && !StartsAndEndsInADay(db, TransitionCall(bill, dto))
  {
    TransitionIsAllowedIff(db, bill, dto, now);
    if dto.activationDate.Some? && dto.expiryDate.Some? {
      DaysFollowInstants(dto.activationDate.value, dto.expiryDate.value);
    }
    hide RequestVerification, MoveBill, DayOf;
    SelectableStatusesMoveTheCase(dto.targetStatus);
    var newest := Newest(db.cases, bill);
    if newest.Some? && TransitionAllowed(db, bill, dto) {
      var after := TransitionBillStatus(db, bill, dto, now).0.cases;
      assert after[newest.value] == Mirrored(db.cases[newest.value], dto, now);
    }
  }

  lemma UpdateCaseAndLasting(db: Db, id: nat, dto: UpdateCaseDto, now: int)
    requires AllLasting(db.cases)
    ensures AllLasting(UpdateCase(db, id, dto).0.cases) <==> !StartsAndEndsInADay(db, UpdateCaseCall(id, dto))
  {
    UpdateIsAllowedIff(db, id, dto, now);
    if UpdateAllowed(db, id, dto) {
      UpdatedDates(db, id, dto, now);
      var after := UpdateCase(db, id, dto).0.cases;
      assert forall i :: 0 <= i < |after| && i != id ==> after[i] == db.cases[i];
      assert Lasting(after[id]) <==> !StartsAndEndsInADay(db, UpdateCaseCall(id, dto)) by {
        hide PaymentAccepted, LeavingCatalogue, OfferExists, AsInstant, ToDay, DayOf, UpdateCase;
      }
    }
    hide PaymentAccepted, LeavingCatalogue, OfferExists, AsInstant, ToDay, DayOf, Corrected, UpdateAllowed, Lasting;
  }

  /** Besides the stripped dates, the strict order is lost exactly when the two instants fall on one day. */
  lemma StepAndLasting(db: Db, call: Call, now: int)
    requires AllLasting(db.cases)
    ensures AllLasting(After(db, call, now).cases) <==> !StripsDates(db, call) && !StartsAndEndsInADay(db, call)
  {
    hide UpdateCase, TransitionBillStatus, Batch, AfterSend, Reorder, PaymentAccepted, LeavingCatalogue, HasLiveUtilities;
    match call {
      case UpdateCaseCall(id, dto) => UpdateCaseAndLasting(db, id, dto, now);
      case TransitionCall(bill, dto) => TransitionAndLasting(db, bill, dto, now);
      case _ =>
    }
  }

  predicate NeverEndsInADay(dbs: seq<Db>, events: seq<Event>)
    requires |dbs| == |events| + 1
  {
    forall i :: 0 <= i < |events| ==> !StartsAndEndsInADay(dbs[i], events[i].call)
  }

  lemma {:induction false} RunKeepsLasting(dbs: seq<Db>, events: seq<Event>, n: nat)
    requires IsRun(dbs, events) && AllLasting(dbs[0].cases)
    requires OnlySelectableTargets(events) && NeverEndsInADay(dbs, events)
    requires n < |dbs|
    ensures AllLasting(dbs[n].cases)
  {
    hide After, AllLasting, StartsAndEndsInADay;
    if n > 0 {
      RunKeepsLasting(dbs, events, n - 1);
      var event := events[n - 1];
      if event.call.TransitionCall? { SelectableStatusesMoveTheCase(event.call.transition.targetStatus); }
      StepAndLasting(dbs[n - 1], event.call, event.now);
    }
  }

  /** Eight in the morning to six in the evening of day 20000: allowed by the guard, one day in both columns. */
  lemma OneDaySupplyIsStored(db: Db, now: int)
    requires db.cases == [Case(0, 0, 0, CaseContractSent, None, None, None, Some(0))]
    requires 0 in db.bills && db.bills[0].status == ContractSent
    ensures var morning, evening := 20_000 * DAY + 28_800_000, 20_000 * DAY + 64_800_000;
      var dto := TransitionDto(AwaitingActivation, false, Some(morning), Some(evening));
      && AllLasting(db.cases) && Accepted(db, TransitionCall(0, dto), now)
      && After(db, TransitionCall(0, dto), now).cases ==
           [Case(0, 0, 0, CaseAwaitingActivation, None, Some(20_000), Some(20_000), Some(0))]
      && !AllLasting(After(db, TransitionCall(0, dto), now).cases)
  {
    NewestIsNewest(db.cases, 0, 0);
    var morning, evening := 20_000 * DAY + 28_800_000, 20_000 * DAY + 64_800_000;
    var dto := TransitionDto(AwaitingActivation, false, Some(morning), Some(evening));
    assert !Lasting(After(db, TransitionCall(0, dto), now).cases[0]);
  }

  /** A case stored that way takes no further edit that leaves its dates alone: the guard now compares days. */
  lemma OneDaySupplyBlocksEdits(db: Db, id: nat, dto: UpdateCaseDto, now: int)
    requires id < |db.cases| && db.cases[id].activationDate.Some?
    requires db.cases[id].expiryDate == db.cases[id].activationDate
    requires dto.activationDate.Keep? && dto.expiryDate.Keep?
    ensures !Accepted(db, UpdateCaseCall(id, dto), now)
  {
    UpdateIsAllowedIff(db, id, dto, now);
  }

  // ----- No supply expires before it starts -----

  predicate InOrder(c: Case) {
    c.activationDate.Some? && c.expiryDate.Some? ==> c.activationDate.value <= c.expiryDate.value
  }

  predicate AllInOrder(cases: seq<Case>) {
    forall i :: 0 <= i < |cases| ==> InOrder(cases[i])
  }

  /** An allowed move to ACTIVATED that sends one date, on the wrong side of the other one stored. */
  predicate CrossesStoredDate(db: Db, call: Call) {
    && call.TransitionCall? && TransitionAllowed(db, call.bill, call.transition)
    && call.transition.targetStatus == Activated && Newest(db.cases, call.bill).Some?
    && var c, dto := db.cases[Newest(db.cases, call.bill).value], call.transition;
       || (dto.activationDate.Some? && dto.expiryDate.None? && c.expiryDate.Some? &&
           c.expiryDate.value < DayOf(dto.activationDate.value))
       || (dto.expiryDate.Some? && dto.activationDate.None? && c.activationDate.Some? &&
           DayOf(dto.expiryDate.value) < c.activationDate.value)
  }

  lemma TransitionAndOrder(db: Db, bill: Id, dto: TransitionDto, now: int)
    requires AllInOrder(db.cases)
    ensures AllInOrder(TransitionBillStatus(db, bill, dto, now).0.cases) <==>
      !CrossesStoredDate(db, TransitionCall(bill, dto))
  {
    TransitionIsAllowedIff(db, bill, dto, now);
    if dto.activationDate.Some? && dto.expiryDate.Some? {
      DaysFollowInstants(dto.activationDate.value, dto.expiryDate.value);
    }
    hide RequestVerification, MoveBill, DayOf, CaseStatusFor;
    var newest := Newest(db.cases, bill);
    if newest.Some? && TransitionAllowed(db, bill, dto) {
      var after := TransitionBillStatus(db, bill, dto, now).0.cases;
      assert after[newest.value] == Mirrored(db.cases[newest.value], dto, now);
    }
  }

  lemma UpdateCaseKeepsOrder(db: Db, id: nat, dto: UpdateCaseDto, now: int)
    requires AllInOrder(db.cases)
    ensures AllInOrder(UpdateCase(db, id, dto).0.cases)
  {
    UpdateIsAllowedIff(db, id, dto, now);
    if UpdateAllowed(db, id, dto) { UpdatedDates(db, id, dto, now); }
    hide PaymentAccepted, LeavingCatalogue, OfferExists, AsInstant, ToDay, DayOf, Corrected;
  }

  /** In any status; both guards say so, but the one of the transition reads only the dates of the request. */
  lemma StepAndOrder(db: Db, call: Call, now: int)
    requires AllInOrder(db.cases)
    ensures AllInOrder(After(db, call, now).cases) <==> !CrossesStoredDate(db, call)
  {
    hide UpdateCase, TransitionBillStatus, Batch, AfterSend, Reorder, PaymentAccepted, LeavingCatalogue, HasLiveUtilities;
    match call {
      case UpdateCaseCall(id, dto) => UpdateCaseKeepsOrder(db, id, dto, now);
      case TransitionCall(bill, dto) => TransitionAndOrder(db, bill, dto, now);
      case _ =>
    }
  }

  /** A supply planned for days 10 to 20 is moved to ACTIVATED with day 30 as its activation. */
  lemma LateActivationOutlivesTheSupply(db: Db, now: int)
    requires db.cases == [Case(0, 0, 0, CaseAwaitingActivation, None, Some(10), Some(20), Some(0))]
    requires 0 in db.bills && db.bills[0].status == AwaitingActivation
    ensures var dto := TransitionDto(Activated, false, Some(Midnight(30)), None);
      && AllInOrder(db.cases) && Accepted(db, TransitionCall(0, dto), now)
      && After(db, TransitionCall(0, dto), now).cases ==
           [Case(0, 0, 0, CaseActivated, None, Some(30), Some(20), Some(0))]
  {
    NewestIsNewest(db.cases, 0, 0);
    DaysFollowInstants(30, 30);
  }

  // ----- A running case names an offer of the catalogue -----

  predicate NamesListedOffer(db: Db, c: Case, today: int) {
    Running(c, today) ==> OfferExists(db.offers, c.offerId)
  }

  predicate RunningAreListed(db: Db, today: int) {
    forall i :: 0 <= i < |db.cases| ==> NamesListedOffer(db, db.cases[i], today)
  }

  /** A running case of an offer of the supplier. */
  predicate RunsOn(db: Db, c: Case, supplier: Id, today: int) {
    Running(c, today) && c.offerId in db.offers && db.offers[c.offerId].terms.supplierId == supplier
  }

  predicate AnyRunsOn(db: Db, supplier: Id, today: int) {
    exists i :: 0 <= i < |db.cases| && RunsOn(db, db.cases[i], supplier, today)
  }

  /** The supplier is removed for good: at once, or when its scheduled day comes. */
  predicate RemovesSupplier(db: Db, call: Call, today: int) {
    match call
    case DeleteSupplierCall(s) =>
      s in db.suppliers && db.suppliers[s] != PendingDeletion && !HasLiveUtilities(db, s, today)
    case ExecuteDeletionCall(s) =>
      s in db.suppliers && db.suppliers[s] == PendingDeletion && !HasLiveUtilities(db, s, today)
    case _ => false
  }

  /** A correction that goes through and sets a case running whose offer is gone and is not replaced. */
  predicate RevivesByUpdate(db: Db, call: Call, today: int) {
    && call.UpdateCaseCall? && UpdateAllowed(db, call.id, call.update)
    && var c, dto := db.cases[call.id], call.update;
       && !Moves(c, dto) && !OfferExists(db.offers, c.offerId)
       && Runs(dto.status.GetOr(c.status), ToDay(dto.expiryDate).Apply(c.expiryDate), today)
  }

  /** A move of the bill that goes through and sets its newest case running though the offer is gone. */
  predicate RevivesByTransition(db: Db, call: Call, today: int) {
    && call.TransitionCall? && TransitionAllowed(db, call.bill, call.transition)
    && Newest(db.cases, call.bill).Some?
    && var c, dto := db.cases[Newest(db.cases, call.bill).value], call.transition;
       && !OfferExists(db.offers, c.offerId)
       && Runs(CaseStatusFor(dto.targetStatus).GetOr(c.status),
            if dto.targetStatus == AwaitingActivation || dto.targetStatus == Activated
            then SentDay(dto.expiryDate, c.expiryDate) else None, today)
  }

  /** The ways a running case comes to name an offer that is not in the catalogue. */
  predicate LosesAnOffer(db: Db, call: Call, today: int) {
    || (RemovesSupplier(db, call, today) && AnyRunsOn(db, call.supplier, today))
    || RevivesByUpdate(db, call, today)
    || RevivesByTransition(db, call, today)
  }

  lemma RemovalAndListing(db: Db, supplier: Id, today: int)
    requires RunningAreListed(db, today)
    ensures RunningAreListed(WithoutSupplier(db, supplier), today) <==> !AnyRunsOn(db, supplier, today)
  {
    hide Running;
    var after := WithoutSupplier(db, supplier);
    forall i | 0 <= i < |db.cases|
      ensures NamesListedOffer(after, db.cases[i], today) <==> !RunsOn(db, db.cases[i], supplier, today)
    {
      assert NamesListedOffer(db, db.cases[i], today);
    }
  }

  lemma UpdateAndListing(db: Db, id: nat, dto: UpdateCaseDto, now: int, today: int)
    requires RunningAreListed(db, today)
    ensures RunningAreListed(UpdateCase(db, id, dto).0, today) <==>
      !RevivesByUpdate(db, UpdateCaseCall(id, dto), today)
  {
    UpdateIsAllowedIff(db, id, dto, now);
    OffersUntouchedByUpdateCase(db, id, dto);
    if UpdateAllowed(db, id, dto) {
      var after := UpdateCase(db, id, dto).0;
      UpdatedCase(db, id, dto, now);
      hide PaymentAccepted, LeavingCatalogue, AsInstant, Follows, ToDay, Runs, UpdateCase;
      forall i | 0 <= i < |db.cases| && i != id ensures NamesListedOffer(after, after.cases[i], today) {
        assert NamesListedOffer(db, db.cases[i], today);
      }
    } else {
      hide UpdateCase, UpdateAllowed, Running;
      assert UpdateCase(db, id, dto).0 == db by { RefusedUpdate(db, id, dto); }
    }
  }

  lemma RefusedUpdate(db: Db, id: nat, dto: UpdateCaseDto)
    ensures UpdateCase(db, id, dto).1.Err? ==> UpdateCase(db, id, dto).0 == db
  {
    hide PaymentAccepted, LeavingCatalogue, AsInstant, Follows, OfferExists;
  }

  lemma UpdatedCase(db: Db, id: nat, dto: UpdateCaseDto, now: int)
    requires UpdateAllowed(db, id, dto)
    ensures var after, c := UpdateCase(db, id, dto).0.cases, db.cases[id];
      && |after| == |db.cases| && (forall i :: 0 <= i < |after| && i != id ==> after[i] == db.cases[i])
      && after[id].status == dto.status.GetOr(c.status)
      && after[id].expiryDate == ToDay(dto.expiryDate).Apply(c.expiryDate)
      && after[id].offerId == (if Moves(c, dto) then dto.offerId.value else c.offerId)
  {
    UpdateIsAllowedIff(db, id, dto, now);
    hide PaymentAccepted, LeavingCatalogue, AsInstant, Follows, OfferExists, ToDay;
  }

  lemma TransitionAndListing(db: Db, bill: Id, dto: TransitionDto, now: int, today: int)
    requires RunningAreListed(db, today)
    ensures RunningAreListed(TransitionBillStatus(db, bill, dto, now).0, today) <==>
      !RevivesByTransition(db, TransitionCall(bill, dto), today)
  {
    TransitionIsAllowedIff(db, bill, dto, now);
    OffersUntouchedByTransition(db, bill, dto, now);
    var newest := Newest(db.cases, bill);
    var after := TransitionBillStatus(db, bill, dto, now).0;
    hide RequestVerification, MoveBill, DayOf, CaseStatusFor, ActivationDatesGiven, Runs, OfferExists;
    if newest.Some? && TransitionAllowed(db, bill, dto) {
      assert after.cases == db.cases[newest.value := Mirrored(db.cases[newest.value], dto, now)];
      forall i | 0 <= i < |db.cases| && i != newest.value ensures NamesListedOffer(after, after.cases[i], today) {
        assert NamesListedOffer(db, db.cases[i], today);
      }
      var c, m := db.cases[newest.value], after.cases[newest.value];
      assert m == Mirrored(c, dto, now) && m.offerId == c.offerId && m.expiryDate ==
        if dto.targetStatus == AwaitingActivation || dto.targetStatus == Activated
        then SentDay(dto.expiryDate, c.expiryDate) else None;
      assert NamesListedOffer(after, m, today) <==> !RevivesByTransition(db, TransitionCall(bill, dto), today);
    } else {
      assert after.cases == db.cases;
      assert forall i :: 0 <= i < |db.cases| ==> NamesListedOffer(db, db.cases[i], today);
    }
  }

  lemma CreateCaseKeepsListing(db: Db, user: Id, dto: CreateCaseDto, now: int, today: int)
    requires RunningAreListed(db, today)
    ensures RunningAreListed(CreateCase(db, user, dto, now).0, today)
  {
    OffersUntouchedByCreateCase(db, user, dto, now);
    hide PaymentAccepted, LeavingCatalogue, IsSent, HasOpenCase, Running;
    var after := CreateCase(db, user, dto, now).0;
    forall i | 0 <= i < |db.cases| ensures NamesListedOffer(after, after.cases[i], today) {
      assert NamesListedOffer(db, db.cases[i], today);
    }
  }

  lemma SchedulingKeepsListing(db: Db, supplier: Id, suppliers: map<Id, SupplierStatus>, today: int)
    requires RunningAreListed(db, today)
    ensures RunningAreListed(
      db.(suppliers := suppliers, cases := CancelEarlyStageCases(db.cases, supplier)), today)
  {
    var after := db.(suppliers := suppliers, cases := CancelEarlyStageCases(db.cases, supplier));
    forall i | 0 <= i < |db.cases| ensures NamesListedOffer(after, after.cases[i], today) {
      assert NamesListedOffer(db, db.cases[i], today);
      assert after.cases[i] == CancelIfEarly(db.cases[i], supplier);
    }
  }

  lemma SupplierCallsAndListing(db: Db, call: Call, now: int)
    requires call.DeleteSupplierCall? || call.ExecuteDeletionCall?
    requires RunningAreListed(db, DayOf(now))
    ensures RunningAreListed(After(db, call, now), DayOf(now)) <==> !LosesAnOffer(db, call, DayOf(now))
  {
    RemovalAndListing(db, call.supplier, DayOf(now));
    SchedulingKeepsListing(db, call.supplier, db.suppliers[call.supplier := PendingDeletion], DayOf(now));
    hide WithoutSupplier, AnyRunsOn, HasLiveUtilities, DayOf, IsEndlessUtilityOf, RunningAreListed, CancelEarlyStageCases;
  }

  lemma CatalogueCallsKeepListing(db: Db, call: Call, now: int)
    requires call.UpdateOfferCall? || call.UpdateOfferStatusCall? || call.DeleteOfferCall? || call.OfferArrives?
    requires RunningAreListed(db, DayOf(now))
    ensures RunningAreListed(After(db, call, now), DayOf(now))
  {
    hide Running, IsAccepted, DayOf, PricingComplete, Edited;
    var after := After(db, call, now);
    forall i | 0 <= i < |db.cases| ensures NamesListedOffer(after, after.cases[i], DayOf(now)) {
      assert NamesListedOffer(db, db.cases[i], DayOf(now));
    }
  }

  lemma SameListing(db: Db, after: Db, today: int)
    requires after.cases == db.cases && after.offers == db.offers
    ensures RunningAreListed(after, today) <==> RunningAreListed(db, today)
  {
    hide Running;
    assert forall i :: 0 <= i < |db.cases| ==>
      (NamesListedOffer(after, after.cases[i], today) <==> NamesListedOffer(db, db.cases[i], today));
  }

  lemma CaseCallsAndListing(db: Db, call: Call, now: int)
    requires call.UpdateCaseCall? || call.TransitionCall? || call.CreateCaseCall?
    requires RunningAreListed(db, DayOf(now))
    ensures RunningAreListed(After(db, call, now), DayOf(now)) <==> !LosesAnOffer(db, call, DayOf(now))
  {
    hide RunningAreListed, DayOf, UpdateCase, TransitionBillStatus, CreateCase;
    match call
    case UpdateCaseCall(id, dto) => UpdateAndListing(db, id, dto, now, DayOf(now));
    case TransitionCall(bill, dto) => TransitionAndListing(db, bill, dto, now, DayOf(now));
    case CreateCaseCall(user, dto) => CreateCaseKeepsListing(db, user, dto, now, DayOf(now));
  }

  lemma OthersLeaveListing(db: Db, call: Call, now: int)
    requires !call.UpdateCaseCall? && !call.TransitionCall? && !call.CreateCaseCall?
    requires !call.DeleteSupplierCall? && !call.ExecuteDeletionCall?
    requires !call.UpdateOfferCall? && !call.UpdateOfferStatusCall? && !call.DeleteOfferCall? && !call.OfferArrives?
    requires RunningAreListed(db, DayOf(now))
    ensures RunningAreListed(After(db, call, now), DayOf(now))
  {
    hide Batch, AfterSend, Reorder, RunningAreListed, DayOf, HasOpenCase, AllForAudience, CreateCase, UpdateCase,
      TransitionBillStatus, DeleteSupplier, ExecuteDeletion, UpdateOffer, UpdateOfferStatus, DeleteOffer;
    SameListing(db, After(db, call, now), DayOf(now));
  }

  /**
   * A running case keeps its offer in the catalogue, except exactly when a supplier with no
   * live utility is removed under it, or when it is set running again after the offer was
   * withdrawn. The withdrawal of an offer is guarded against it; these three are not.
   */
  lemma StepAndListing(db: Db, call: Call, now: int)
    requires RunningAreListed(db, DayOf(now))
    ensures RunningAreListed(After(db, call, now), DayOf(now)) <==> !LosesAnOffer(db, call, DayOf(now))
  {
    if call.UpdateCaseCall? || call.TransitionCall? || call.CreateCaseCall? {
      CaseCallsAndListing(db, call, now);
    } else if call.DeleteSupplierCall? || call.ExecuteDeletionCall? {
      SupplierCallsAndListing(db, call, now);
    } else {
      assert !LosesAnOffer(db, call, DayOf(now));
      if call.UpdateOfferCall? || call.UpdateOfferStatusCall? || call.DeleteOfferCall? || call.OfferArrives? {
        CatalogueCallsKeepListing(db, call, now);
      } else {
        OthersLeaveListing(db, call, now);
      }
      hide After, RunningAreListed;
    }
  }

  /** A case only stops running as days go by. */
  lemma LaterRunsLess(db: Db, today: int, later: int)
    requires RunningAreListed(db, today) && today <= later
    ensures RunningAreListed(db, later)
  {
    forall i | 0 <= i < |db.cases| ensures NamesListedOffer(db, db.cases[i], later) {
      assert NamesListedOffer(db, db.cases[i], today);
      hide OfferExists;
    }
  }

  predicate InTime(events: seq<Event>) {
    forall i, j :: 0 <= i < j < |events| ==> events[i].now <= events[j].now
  }

  ghost predicate NeverLosesAnOffer(dbs: seq<Db>, events: seq<Event>)
    requires |dbs| == |events| + 1
  {
    forall i :: 0 <= i < |events| ==> !LosesAnOffer(dbs[i], events[i].call, DayOf(events[i].now))
  }

  /** In every run without such a call, on any day from its start on. */
  lemma {:induction false} RunKeepsListing(dbs: seq<Db>, events: seq<Event>, n: nat, start: int, today: int)
    requires IsRun(dbs, events) && InTime(events) && NeverLosesAnOffer(dbs, events) && n < |dbs|
    requires RunningAreListed(dbs[0], start) && start <= today
    requires n > 0 ==> start <= DayOf(events[0].now) && DayOf(events[n - 1].now) <= today
    ensures RunningAreListed(dbs[n], today)
  {
    if n == 0 {
      LaterRunsLess(dbs[0], start, today);
    } else {
      var event := events[n - 1];
      var day := DayOf(event.now);
      DaysFollowInstants(events[0].now, event.now);
      if n > 1 { DaysFollowInstants(events[n - 2].now, event.now); }
      hide After, RunningAreListed, LosesAnOffer, DayOf;
      RunKeepsListing(dbs, events, n - 1, start, day);
      StepAndListing(dbs[n - 1], event.call, event.now);
      LaterRunsLess(dbs[n], day, today);
    }
  }

  /** Supplier 9 has one offer and one new case on it: nothing is supplied yet, so it goes at once, the offer with it. */
  lemma RemovedSupplierLeavesTheCase(db: Db, offer: Offer, now: int)
    requires db.suppliers == map[9 := SupplierActive] && db.offers == map[5 := offer]
    requires !offer.deleted && offer.terms.supplierId == 9
    requires db.cases == [Case(0, 5, 9, New, None, None, None, None)]
    ensures var after := After(db, DeleteSupplierCall(9), now);
      && RunningAreListed(db, DayOf(now)) && !RunningAreListed(after, DayOf(now))
      && after.cases == db.cases && after.offers[5].deleted
  {
    var after := After(db, DeleteSupplierCall(9), now);
    hide DayOf;
    assert !IsLiveUtilityOf(db, db.cases[0], 9, DayOf(now));
    assert after == WithoutSupplier(db, 9);
    assert !NamesListedOffer(after, after.cases[0], DayOf(now));
  }

  /** A cancelled case whose offer was withdrawn meanwhile is set back to new. */
  lemma RevivedCaseHasNoOffer(db: Db, offer: Offer, now: int)
    requires db.offers == map[5 := offer] && offer.deleted
    requires db.cases == [Case(0, 5, 9, CaseCancelled, None, None, None, None)]
    ensures var dto := UpdateCaseDto(Some(New), None, Keep, Keep, Keep, Keep);
      && RunningAreListed(db, DayOf(now))
      && RevivesByUpdate(db, UpdateCaseCall(0, dto), DayOf(now))
      && !RunningAreListed(After(db, UpdateCaseCall(0, dto), now), DayOf(now))
  {
    var dto := UpdateCaseDto(Some(New), None, Keep, Keep, Keep, Keep);
    hide DayOf;
    UpdateAndListing(db, 0, dto, now, DayOf(now));
  }

  /** The same by a move of the bill, whose newest case it is. */
  lemma RevivedByTheBill(db: Db, offer: Offer, now: int)
    requires db.offers == map[5 := offer] && offer.deleted
    requires db.cases == [Case(0, 5, 9, CaseCancelled, None, None, None, None)]
    requires 0 in db.bills && db.bills[0].status == Cancelled
    ensures var dto := TransitionDto(OfferAccepted, false, None, None);
      && RunningAreListed(db, DayOf(now))
      && RevivesByTransition(db, TransitionCall(0, dto), DayOf(now))
      && !RunningAreListed(After(db, TransitionCall(0, dto), now), DayOf(now))
  {
    var dto := TransitionDto(OfferAccepted, false, None, None);
    NewestIsNewest(db.cases, 0, 0);
    hide DayOf;
    TransitionAndListing(db, 0, dto, now, DayOf(now));
  }

  // ----- An accepted offer is frozen -----

  predicate Frozen(db: Db, offer: Id) {
    offer in db.offers && db.offers[offer].status != Draft && IsAccepted(db.cases, offer)
  }

  /** No call changes the terms of a frozen offer or turns it back into a draft. */
  lemma StepKeepsFrozenOffer(db: Db, call: Call, now: int, offer: Id)
    requires Frozen(db, offer)
    ensures var after := After(db, call, now);
      && offer in after.offers
      && after.offers[offer].terms == db.offers[offer].terms
      && after.offers[offer].status != Draft
  {
    hide UpdateCase, TransitionBillStatus, CreateCase, Batch, AfterSend, Reorder, IsAccepted;
    match call {
      case UpdateCaseCall(id, dto) => OffersUntouchedByUpdateCase(db, id, dto);
      case TransitionCall(bill, dto) => OffersUntouchedByTransition(db, bill, dto, now);
      case CreateCaseCall(user, dto) => OffersUntouchedByCreateCase(db, user, dto, now);
      case _ =>
    }
  }

  lemma OffersUntouchedByUpdateCase(db: Db, id: nat, dto: UpdateCaseDto)
    ensures UpdateCase(db, id, dto).0.offers == db.offers
  {
    hide PaymentAccepted, LeavingCatalogue, OfferExists;
  }

  lemma OffersUntouchedByTransition(db: Db, bill: Id, dto: TransitionDto, now: int)
    ensures TransitionBillStatus(db, bill, dto, now).0.offers == db.offers
  {
  }

  lemma OffersUntouchedByCreateCase(db: Db, user: Id, dto: CreateCaseDto, now: int)
    ensures CreateCase(db, user, dto, now).0.offers == db.offers
  {
    hide PaymentAccepted, LeavingCatalogue, OfferExists, IsSent, HasOpenCase;
  }

  /**
   * Once an offer that is no draft is named by an open case, its terms stand and
   * it stays no draft until no open case names it, whatever happens in between.
   */
  lemma {:induction false} FrozenWhileAccepted(dbs: seq<Db>, events: seq<Event>, offer: Id, from: nat, to: nat)
    requires IsRun(dbs, events) && from <= to < |dbs|
    requires offer in dbs[from].offers && dbs[from].offers[offer].status != Draft
    requires forall k :: from <= k < to ==> IsAccepted(dbs[k].cases, offer)
    ensures offer in dbs[to].offers
    ensures dbs[to].offers[offer].terms == dbs[from].offers[offer].terms
    ensures dbs[to].offers[offer].status != Draft
  {
    hide After, IsAccepted;
    if from < to {
      FrozenWhileAccepted(dbs, events, offer, from, to - 1);
      StepKeepsFrozenOffer(dbs[to - 1], events[to - 1].call, events[to - 1].now, offer);
    }
  }

  // ----- One open request for documents per bill -----

  predicate OnePendingAtMost(verifications: seq<Verification>) {
    forall i, j :: 0 <= i < j < |verifications| && verifications[i].billId == verifications[j].billId ==>
      verifications[i].status != Pending || verifications[j].status != Pending
  }

  lemma RequestKeepsOnePending(verifications: seq<Verification>, bill: Id)
    requires OnePendingAtMost(verifications)
    ensures OnePendingAtMost(ResolvePending(verifications, bill) + [Verification(bill, Pending)])
    ensures OnePendingAtMost(ResolvePending(verifications, bill))
  {
  }

  /** A bill never waits for two answers, and a bill that moves on waits for none. */
  lemma StepKeepsOnePending(db: Db, call: Call, now: int)
    requires OnePendingAtMost(db.verifications)
    ensures OnePendingAtMost(After(db, call, now).verifications)
    ensures call.TransitionCall? && Accepted(db, call, now) ==>
      (Verification(call.bill, Pending) in After(db, call, now).verifications <==>
        call.transition.targetStatus == VerificationRequired)
  {
    hide UpdateCase, CreateCase, MirrorOnNewestCase, Batch, AfterSend, Reorder, ActivationDatesGiven;
    match call {
      case UpdateCaseCall(id, dto) => VerificationsUntouchedByUpdateCase(db, id, dto);
      case CreateCaseCall(user, dto) => VerificationsUntouchedByCreateCase(db, user, dto, now);
      case TransitionCall(bill, dto) => RequestKeepsOnePending(db.verifications, bill);
      case RequestVerificationCall(bill) => RequestKeepsOnePending(db.verifications, bill);
      case _ =>
    }
  }

  lemma VerificationsUntouchedByUpdateCase(db: Db, id: nat, dto: UpdateCaseDto)
    ensures UpdateCase(db, id, dto).0.verifications == db.verifications
  {
    hide PaymentAccepted, LeavingCatalogue, OfferExists;
  }

  lemma VerificationsUntouchedByCreateCase(db: Db, user: Id, dto: CreateCaseDto, now: int)
    ensures CreateCase(db, user, dto, now).0.verifications == db.verifications
  {
    hide PaymentAccepted, LeavingCatalogue, OfferExists, IsSent, HasOpenCase;
  }

  // ----- What the customer sees is what the guards accept -----

  /** A bill offers were sent for is there, and its rows are arranged and belong to its customer. */
  predicate SentRowsBelong(db: Db) {
    forall bill :: bill in db.sent && db.sent[bill] != [] ==>
      bill in db.bills && RowsBelong(db.sent[bill], bill, db.bills[bill].userId)
  }

  predicate RowsBelong(rows: seq<SentRow>, bill: Id, user: Id) {
    Arranged(rows) && forall i :: 0 <= i < |rows| ==> rows[i].billId == bill && rows[i].userId == user
  }

  /** The query of getUserSentOffers shows the customer this offer for this bill. */
  predicate Shown(db: Db, user: Id, bill: Id, offer: Id) {
    bill in db.sent && !HasOpenCase(db.cases, bill) &&
    exists i :: 0 <= i < |db.sent[bill]| && db.sent[bill][i].userId == user && db.sent[bill][i].offerId == Some(offer)
  }

  /**
   * A customer can open a case on exactly the offers their list shows, as far as
   * the offer itself can still be taken and the payment fits.
   */
  lemma ShownIsAcceptable(db: Db, user: Id, dto: CreateCaseDto, now: int)
    requires SentRowsBelong(db)
    ensures Accepted(db, CreateCaseCall(user, dto), now) <==>
      && Shown(db, user, dto.billId, dto.offerId)
      && OfferExists(db.offers, dto.offerId)
      && !LeavingCatalogue(db.suppliers, db.offers[dto.offerId].terms.supplierId)
      && PaymentAccepted(db.offers[dto.offerId], dto.payment)
      && (dto.payment == Some(RidBancario) ==> dto.debitComplete)
  {
    hide PaymentAccepted, LeavingCatalogue, HasOpenCase, Arranged;
    var rows := SentFor(db.sent, dto.billId);
    if IsSent(rows, dto.offerId) {
      var i :| 0 <= i < |rows| && rows[i].offerId == Some(dto.offerId);
      assert db.sent[dto.billId][i].userId == db.bills[dto.billId].userId;
    }
    if Shown(db, user, dto.billId, dto.offerId) {
      var i :| 0 <= i < |rows| && rows[i].userId == user && rows[i].offerId == Some(dto.offerId);
      assert RowsBelong(rows, dto.billId, db.bills[dto.billId].userId);
    }
  }

  /** Accepting one offer takes every offer of the bill off the list, the accepted one included. */
  lemma AcceptingHidesTheBill(db: Db, user: Id, dto: CreateCaseDto, now: int, other: Id, offer: Id)
    requires Accepted(db, CreateCaseCall(user, dto), now)
    ensures !Shown(After(db, CreateCaseCall(user, dto), now), other, dto.billId, offer)
  {
    hide PaymentAccepted, LeavingCatalogue, OfferExists, IsSent;
    var after := After(db, CreateCaseCall(user, dto), now);
    assert HoldsBill(after.cases[|db.cases|], dto.billId);
  }

  /** An accepted send shows its whole batch to the bill's customer and takes nothing off the list. */
  lemma SendingShowsTheBatch(db: Db, bill: Id, request: seq<Id>, found: seq<Id>, firstRowId: Id, now: int)
    requires SentRowsBelong(db) && IsAnswerTo(db, request, found)
    requires Accepted(db, SendOffersCall(bill, request, found, firstRowId), now)
    ensures var after := After(db, SendOffersCall(bill, request, found, firstRowId), now);
      && (forall offer :: offer in Batch(db, request, found) ==> Shown(after, db.bills[bill].userId, bill, offer))
      && (forall offer :: IsSent(SentFor(db.sent, bill), offer) ==> Shown(after, db.bills[bill].userId, bill, offer))
  {
    hide Batch, AllForAudience, HasOpenCase, NotYetSent, NextPosition;
    var call := SendOffersCall(bill, request, found, firstRowId);
    var after := After(db, call, now);
    var user := db.bills[bill].userId;
    SendKeepsRows(db, bill, request, found, firstRowId, now);
    var rows := after.sent[bill];
    forall offer: Id | IsSent(rows, offer) ensures Shown(after, user, bill, offer) {
      var i :| 0 <= i < |rows| && rows[i].offerId == Some(offer);
    }
    forall offer: Id
      ensures IsSent(rows, offer) <==> IsSent(SentFor(db.sent, bill), offer) || offer in Batch(db, request, found)
    {
      SentAfterSend(SentFor(db.sent, bill), Send(user, bill, firstRowId, now), Batch(db, request, found), offer);
    }
  }

  lemma BatchIsDistinct(db: Db, request: seq<Id>, found: seq<Id>)
    requires Distinct(found)
    ensures Distinct(Batch(db, request, found))
  {
    var ordered := InRequestOrder(request, found);
    assert Distinct(ordered) by {
      hide StableSort, ByRequest;
      PermutationKeepsDistinct(found, ordered);
    }
    FilterDistinct(ordered, FromStayingSuppliers(db));
  }

  function Equals(x: Id): Id -> bool {
    (y: Id) => y == x
  }

  lemma PermutationKeepsDistinct(s: seq<Id>, t: seq<Id>)
    requires multiset(s) == multiset(t) && Distinct(s)
    ensures Distinct(t)
  {
    forall i, j | 0 <= i < j < |t| ensures t[i] != t[j] {
      FilterCount(s, t, Equals(t[i]));
      if |Filter(s, Equals(t[i]))| >= 2 { TwoFiltered(s, Equals(t[i])); }
      if t[j] == t[i] { FilterTwo(t, Equals(t[i]), i, j); }
    }
  }

  lemma SendKeepsRows(db: Db, bill: Id, request: seq<Id>, found: seq<Id>, firstRowId: Id, now: int)
    requires SentRowsBelong(db) && Distinct(found)
    requires Accepted(db, SendOffersCall(bill, request, found, firstRowId), now)
    ensures var after := After(db, SendOffersCall(bill, request, found, firstRowId), now);
      && bill in after.sent && RowsBelong(after.sent[bill], bill, db.bills[bill].userId)
      && after.sent[bill] == AfterSend(
           SentFor(db.sent, bill), Send(db.bills[bill].userId, bill, firstRowId, now), Batch(db, request, found))
  {
    hide Batch, AllForAudience, HasOpenCase, NotYetSent, NextPosition;
    var before := SentFor(db.sent, bill);
    var send := Send(db.bills[bill].userId, bill, firstRowId, now);
    assert RowsBelong(before, bill, db.bills[bill].userId);
    BatchIsDistinct(db, request, found);
    SendKeepsArranged(before, send, Batch(db, request, found));
  }

  lemma ReorderKeepsRows(rows: seq<SentRow>, order: seq<Id>, bill: Id, user: Id)
    requires RowsBelong(rows, bill, user) && Reorder(rows, order).Ok?
    ensures RowsBelong(Reorder(rows, order).value, bill, user)
  {
    ReorderArranges(rows, order);
    var after := Reorder(rows, order).value;
    hide Reorder, Arranged;
    forall i | 0 <= i < |after| ensures after[i].billId == bill && after[i].userId == user {
      assert Unplaced(after)[i] in multiset(Unplaced(after));
      assert Unplaced(after)[i] in multiset(Unplaced(rows));
      var j :| 0 <= j < |rows| && Unplaced(rows)[j] == Unplaced(after)[i];
    }
  }

  /** Every offer holds the prices its market and energy ask for, and its days are those of its months. */
  predicate AllPriced(db: Db) {
    forall offer :: offer in db.offers ==> IsPriced(db.offers[offer].terms)
  }

  predicate IsPriced(t: Terms) {
    PricingComplete(t) && t.days == MonthsToDays(t.months)
  }

  /** No call leaves an offer without its price, whatever mix of market, energy and prices an edit sends. */
  lemma StepKeepsOffersPriced(db: Db, call: Call, now: int)
    requires AllPriced(db)
    requires call.OfferArrives? ==> IsPriced(call.newOffer.terms)
    ensures AllPriced(After(db, call, now))
  {
    hide MirrorOnNewestCase, IsSent, PaymentAccepted, LeavingCatalogue, HasOpenCase, CaseStatusFor, ActivationDatesGiven,
      MonthsToDays, Reorder, AfterSend, Batch, PricingComplete, HasLiveUtilities, NewestPending, IsAccepted,
      ValidOfferTransition, WithStatus, ResolvePending;
    match call
    case CreateCaseCall(user, dto) => OffersUntouchedByCreateCase(db, user, dto, now);
    case UpdateCaseCall(id, dto) => OffersUntouchedByUpdateCase(db, id, dto);
    case TransitionCall(bill, dto) => OffersUntouchedByTransition(db, bill, dto, now);
    case _ =>
      hide CreateCase, UpdateCase, TransitionBillStatus;
  }

  predicate LeavesSentRows(db: Db, after: Db) {
    && after.sent == db.sent
    && forall bill :: bill in db.bills ==> bill in after.bills && after.bills[bill].userId == db.bills[bill].userId
  }

  lemma CaseCallsLeaveSentRows(db: Db, call: Call, now: int)
    requires call.CreateCaseCall? || call.UpdateCaseCall? || call.TransitionCall?
    ensures LeavesSentRows(db, After(db, call, now))
  {
    hide MirrorOnNewestCase, IsSent, PaymentAccepted, LeavingCatalogue, OfferExists, HasOpenCase, CaseStatusFor,
      ActivationDatesGiven;
  }

  lemma OthersLeaveSentRows(db: Db, call: Call, now: int)
    requires !call.SendOffersCall? && !call.ReorderOffersCall? && !call.AssociateCall?
    ensures LeavesSentRows(db, After(db, call, now))
  {
    if call.CreateCaseCall? || call.UpdateCaseCall? || call.TransitionCall? {
      CaseCallsLeaveSentRows(db, call, now);
    } else {
      hide CreateCase, UpdateCase, TransitionBillStatus, MirrorOnNewestCase, OfferExists;
    }
  }

  /**
   * An association that goes through on a bill offers were sent for, and either
   * merges it away or has the save write another owner: no guard looks at the rows.
   */
  predicate MovesSentRows(db: Db, call: Call) {
    && call.AssociateCall? && call.bill in db.bills && call.association.userExists
    && SentFor(db.sent, call.bill) != []
    && match call.association.pendingBillId
       case None => call.association.savesColumn && db.bills[call.bill].userId != call.association.userId
       case Some(pending) =>
         && pending in db.bills && db.bills[pending].status == PendingEmail
         && db.bills[pending].userId == call.association.userId
  }

  lemma AssociateAndSentRows(db: Db, bill: Id, dto: AssociateDto, now: int)
    requires SentRowsBelong(db)
    ensures SentRowsBelong(Associate(db, bill, dto, now).0) <==> !MovesSentRows(db, AssociateCall(bill, dto))
  {
    hide Arranged;
    var after := Associate(db, bill, dto, now).0;
    if MovesSentRows(db, AssociateCall(bill, dto)) {
      assert bill in after.sent && after.sent[bill] != [] && after.sent[bill][0].userId == db.bills[bill].userId;
    }
  }

  /**
   * Sent rows stay with their customer, and each bill's places are 0..n-1: every
   * call keeps that, except exactly an association that moves a bill they hang on.
   */
  lemma StepAndSentRows(db: Db, call: Call, now: int)
    requires SentRowsBelong(db)
    requires call.SendOffersCall? ==> IsAnswerTo(db, call.request, call.found)
    ensures SentRowsBelong(After(db, call, now)) <==> !MovesSentRows(db, call)
  {
    hide RowsBelong, Reorder, Batch, AfterSend, HasOpenCase, AllForAudience;
    match call {
      case SendOffersCall(bill, request, found, firstRowId) =>
        if Accepted(db, call, now) { SendKeepsRows(db, bill, request, found, firstRowId, now); }
      case ReorderOffersCall(bill, order) =>
        if Accepted(db, call, now) {
          assert SentFor(db.sent, bill) != [] by { NothingToReorder(order); }
          ReorderKeepsRows(SentFor(db.sent, bill), order, bill, db.bills[bill].userId);
        }
      case AssociateCall(bill, dto) => AssociateAndSentRows(db, bill, dto, now);
      case _ =>
        OthersLeaveSentRows(db, call, now);
        hide After;
    }
  }

  lemma NothingToReorder(order: seq<Id>)
    ensures Reorder([], order).Err?
  {
  }

  ghost predicate QueriesAnswered(dbs: seq<Db>, events: seq<Event>)
    requires |dbs| == |events| + 1
  {
    forall i :: 0 <= i < |events| && events[i].call.SendOffersCall? ==>
      IsAnswerTo(dbs[i], events[i].call.request, events[i].call.found)
  }

  predicate NeverMovesSentRows(dbs: seq<Db>, events: seq<Event>)
    requires |dbs| == |events| + 1
  {
    forall i :: 0 <= i < |events| ==> !MovesSentRows(dbs[i], events[i].call)
  }

  lemma {:induction false} RunKeepsSentRows(dbs: seq<Db>, events: seq<Event>, n: nat)
    requires IsRun(dbs, events) && SentRowsBelong(dbs[0]) && QueriesAnswered(dbs, events)
    requires NeverMovesSentRows(dbs, events)
    requires n < |dbs|
    ensures SentRowsBelong(dbs[n])
  {
    hide After, SentRowsBelong, IsAnswerTo, MovesSentRows;
    if n > 0 {
      RunKeepsSentRows(dbs, events, n - 1);
      StepAndSentRows(dbs[n - 1], events[n - 1].call, events[n - 1].now);
    }
  }

  /**
   * After such an association the former owner's list still shows every offer of
   * the bill, and no request of theirs for it is accepted any more.
   */
  lemma MovedRowsAreShownInVain(db: Db, call: Call, now: int, offer: Id, dto: CreateCaseDto, later: int)
    requires SentRowsBelong(db) && MovesSentRows(db, call) && !HasOpenCase(db.cases, call.bill)
    requires IsSent(SentFor(db.sent, call.bill), offer) && dto.billId == call.bill
    ensures var after, owner := After(db, call, now), db.bills[call.bill].userId;
      && Shown(after, owner, call.bill, offer)
      && !Accepted(after, CreateCaseCall(owner, dto), later)
  {
    hide HasOpenCase, PaymentAccepted, LeavingCatalogue, OfferExists, Arranged;
    var after, rows := After(db, call, now), SentFor(db.sent, call.bill);
    assert after.sent == db.sent && after.cases == db.cases;
    assert call.bill !in after.bills || after.bills[call.bill].userId != db.bills[call.bill].userId;
    var i :| 0 <= i < |rows| && rows[i].offerId == Some(offer);
    assert rows[i].userId == db.bills[call.bill].userId;
  }

  /** Where the bill changed hands, its new owner is shown none of its offers and may accept all of them. */
  lemma NewOwnerAcceptsUnseen(db: Db, call: Call, now: int, dto: CreateCaseDto, later: int)
    requires SentRowsBelong(db) && MovesSentRows(db, call) && call.association.pendingBillId.None?
    requires dto.billId == call.bill && !HasOpenCase(db.cases, call.bill)
    requires IsSent(SentFor(db.sent, call.bill), dto.offerId) && OfferExists(db.offers, dto.offerId)
    requires !LeavingCatalogue(db.suppliers, db.offers[dto.offerId].terms.supplierId)
    requires PaymentAccepted(db.offers[dto.offerId], dto.payment)
    requires dto.payment == Some(RidBancario) ==> dto.debitComplete
    ensures var after, owner := After(db, call, now), call.association.userId;
      && (forall offer :: !Shown(after, owner, call.bill, offer))
      && Accepted(after, CreateCaseCall(owner, dto), later)
  {
    hide HasOpenCase, PaymentAccepted, LeavingCatalogue, OfferExists, Arranged, IsSent;
    var after := After(db, call, now);
    assert after.sent == db.sent && after.cases == db.cases && after.offers == db.offers;
    assert after.suppliers == db.suppliers && after.bills[call.bill].userId == call.association.userId;
  }

  /** Bill 0 of customer 1, with one offer out. */
  ghost predicate OneOfferOut(db: Db) {
    && 0 in db.bills && db.bills[0].userId == 1 && db.cases == []
    && db.sent == map[0 := [SentRow(0, 1, 0, Some(5), 0, 0)]]
  }

  /** An admin associates the bill with customer 2, and the save writes the column. */
  lemma AnotherOwnerLosesTheOffer(db: Db, dto: CreateCaseDto, now: int)
    requires OneOfferOut(db) && dto.billId == 0
    ensures var after := After(db, AssociateCall(0, AssociateDto(2, true, None, None, true, true)), now);
      && SentRowsBelong(db) && !SentRowsBelong(after) && Shown(after, 1, 0, 5)
      && Answered(after, CreateCaseCall(1, dto), now).1 == Err(Forbidden)
  {
    var handed := AssociateDto(2, true, None, None, true, true);
    assert db.sent[0][0].offerId == Some(5);
    AssociateAndSentRows(db, 0, handed, now);
    MovedRowsAreShownInVain(db, AssociateCall(0, handed), now, 5, dto, now);
  }

  /** An admin merges the bill into pending bill 3 of customer 2. */
  lemma MergedBillLosesTheOffer(db: Db, dto: CreateCaseDto, saves: bool, now: int)
    requires OneOfferOut(db) && dto.billId == 0
    requires 3 in db.bills && db.bills[3].userId == 2 && db.bills[3].status == PendingEmail
    ensures var after := After(db, AssociateCall(0, AssociateDto(2, true, None, Some(3), true, saves)), now);
      && SentRowsBelong(db) && !SentRowsBelong(after) && Shown(after, 1, 0, 5)
      && Answered(after, CreateCaseCall(1, dto), now).1 == Err(NotFound)
  {
    var merged := AssociateDto(2, true, None, Some(3), true, saves);
    assert db.sent[0][0].offerId == Some(5);
    AssociateAndSentRows(db, 0, merged, now);
    MovedRowsAreShownInVain(db, AssociateCall(0, merged), now, 5, dto, now);
  }
}
