/**
 * The service calls of the switch lifecycle as they are carried out: checks in
 * the order of the source, then writes to the tables in place. Each call is
 * proved against its function in SwitchDesk.
 */
module SwitchService {
  import opened Wrappers
  import opened Sorting
  import opened Statuses
  import opened SentOffers
  import opened SwitchDesk

  class Service {
    var bills: map<Id, Bill>
    var cases: seq<Case>
    var offers: map<Id, Offer>
    var suppliers: map<Id, SupplierStatus>
    var sent: map<Id, seq<SentRow>>
    var verifications: seq<Verification>

    constructor ()
      ensures Tables() == Db(map[], [], map[], map[], map[], [])
    {
      bills, cases, offers, suppliers, sent, verifications := map[], [], map[], map[], map[], [];
    }

    ghost function Tables(): Db
      reads this
    {
      Db(bills, cases, offers, suppliers, sent, verifications)
    }

    // ----- CasesService -----

    method FindOpenCase(bill: Id) returns (found: bool)
      ensures found == HasOpenCase(cases, bill)
    {
      for i := 0 to |cases|
        invariant forall j :: 0 <= j < i ==> !HoldsBill(cases[j], bill)
      {
        if HoldsBill(cases[i], bill) { return true; }
      }
      return false;
    }

    method CreateCase(user: Id, dto: CreateCaseDto, now: int) returns (r: Answer)
      modifies this
      ensures (Tables(), r) == SwitchDesk.CreateCase(old(Tables()), user, dto, now)
    {
      hide HasOpenCase, IsSent;
      if dto.billId !in bills { return Err(NotFound); }
      var bill := bills[dto.billId];
      if bill.userId != user { return Err(Forbidden); }
      var open := FindOpenCase(dto.billId);
      if open { return Err(BadRequest); }
      if !OfferExists(offers, dto.offerId) { return Err(NotFound); }
      var offer := offers[dto.offerId];
      if LeavingCatalogue(suppliers, offer.terms.supplierId) { return Err(BadRequest); }
      if !PaymentAccepted(offer, dto.payment) { return Err(BadRequest); }
      if dto.payment == Some(RidBancario) && !dto.debitComplete { return Err(BadRequest); }
      if !IsSent(SentFor(sent, dto.billId), dto.offerId) { return Err(BadRequest); }
      cases := cases +
        [Case(dto.billId, dto.offerId, offer.terms.supplierId, New, dto.payment, None, None, None)];
      bills := bills[dto.billId := bill.(status := OfferAccepted, statusChangedAt := now)];
      return Ok(|cases| - 1);
    }

    method UpdateCase(id: nat, dto: UpdateCaseDto) returns (r: Answer)
      modifies this
      ensures (Tables(), r) == SwitchDesk.UpdateCase(old(Tables()), id, dto)
    {
      hide PaymentAccepted, LeavingCatalogue;
      if id >= |cases| { return Err(NotFound); }
      var switchCase := cases[id];
      var newOffer: Option<Offer> := None;
      if dto.offerId.Some? && dto.offerId.value != switchCase.offerId {
        if !OfferExists(offers, dto.offerId.value) { return Err(NotFound); }
        newOffer := Some(offers[dto.offerId.value]);
        if LeavingCatalogue(suppliers, newOffer.value.terms.supplierId) { return Err(BadRequest); }
      }
      switchCase := switchCase.(
        status := dto.status.GetOr(switchCase.status), payment := dto.payment.Apply(switchCase.payment));
      if newOffer.Some? {
        switchCase := switchCase.(offerId := dto.offerId.value, supplierId := newOffer.value.terms.supplierId);
      }
      if newOffer.Some? || !dto.payment.Keep? {
        if OfferExists(offers, switchCase.offerId) && !PaymentAccepted(offers[switchCase.offerId], switchCase.payment) {
          return Err(BadRequest);
        }
      }
      var activation := AsInstant(dto.activationDate, switchCase.activationDate);
      var expiry := AsInstant(dto.expiryDate, switchCase.expiryDate);
      if switchCase.status == CaseAwaitingActivation && (activation.None? || expiry.None?) {
        return Err(BadRequest);
      }
      if activation.Some? && expiry.Some? && expiry.value <= activation.value {
        return Err(BadRequest);
      }
      switchCase := switchCase.(
        activationDate := ToDay(dto.activationDate).Apply(switchCase.activationDate),
        expiryDate := ToDay(dto.expiryDate).Apply(switchCase.expiryDate),
        contractSentAt := dto.contractSentAt.Apply(switchCase.contractSentAt));
      cases := cases[id := switchCase];
      return Ok(id);
    }

    // ----- BillsService -----

    /** setBillStatus: reports whether the status moved. */
    method SetBillStatus(bill: Id, next: BillStatus, now: int) returns (moved: bool)
      requires bill in bills
      modifies this`bills
      ensures bills == old(bills)[bill := WithStatus(old(bills)[bill], next, now)]
      ensures moved == (old(bills)[bill].status != next)
    {
      if bills[bill].status == next {
        assert bills == bills[bill := bills[bill]];
        return false;
      }
      bills := bills[bill := bills[bill].(status := next, statusChangedAt := now)];
      return true;
    }

    method ResolvePendingVerifications(bill: Id)
      modifies this`verifications
      ensures verifications == ResolvePending(old(verifications), bill)
    {
      ghost var before := verifications;
      for i := 0 to |verifications|
        invariant |verifications| == |before|
        invariant forall k :: 0 <= k < i ==> verifications[k] == ResolveOne(before[k], bill)
        invariant forall k :: i <= k < |before| ==> verifications[k] == before[k]
      {
        if verifications[i].billId == bill && verifications[i].status == Pending {
          verifications := verifications[i := verifications[i].(status := Resolved)];
        }
      }
    }

    method RequestVerification(bill: Id, now: int) returns (r: Answer)
      modifies this`verifications, this`bills
      ensures (Tables(), r) == SwitchDesk.RequestVerification(old(Tables()), bill, now)
    {
      if bill !in bills { return Err(NotFound); }
      ResolvePendingVerifications(bill);
      verifications := verifications + [Verification(bill, Pending)];
      bills := bills[bill := bills[bill].(status := VerificationRequired, statusChangedAt := now)];
      return Ok(|verifications| - 1);
    }

    method FindNewestCase(bill: Id) returns (newest: Option<nat>)
      ensures newest == Newest(cases, bill)
    {
      newest := None;
      for i := 0 to |cases|
        invariant newest == Newest(cases[..i], bill)
      {
        assert cases[..i + 1][..i] == cases[..i];
        if cases[i].billId == bill { newest := Some(i); }
      }
      assert cases[..|cases|] == cases;
    }

    method ApplyActivationDates(id: nat, dto: TransitionDto, now: int)
      requires id < |cases|
      modifies this`cases
      ensures cases == old(cases)[id := WithActivationDates(old(cases)[id], dto, now)]
    {
      var switchCase := cases[id];
      if dto.targetStatus == ContractSent && switchCase.contractSentAt.None? {
        switchCase := switchCase.(contractSentAt := Some(now));
      }
      if dto.targetStatus == AwaitingActivation || dto.targetStatus == Activated {
        if dto.activationDate.Some? {
          switchCase := switchCase.(activationDate := Some(DayOf(dto.activationDate.value)));
        }
        if dto.expiryDate.Some? {
          switchCase := switchCase.(expiryDate := Some(DayOf(dto.expiryDate.value)));
        }
      } else {
        switchCase := switchCase.(activationDate := None, expiryDate := None);
      }
      cases := cases[id := switchCase];
    }

    method MirrorStatusOnCase(id: nat, newStatus: BillStatus)
      requires id < |cases|
      modifies this`cases
      ensures cases == old(cases)[id := old(cases)[id].(status := CaseStatusFor(newStatus).GetOr(old(cases)[id].status))]
    {
      var mapped := CaseStatusFor(newStatus);
      cases := cases[id := if mapped.Some? then cases[id].(status := mapped.value) else cases[id]];
    }

    method TransitionBillStatus(bill: Id, dto: TransitionDto, now: int) returns (r: Answer)
      modifies this
      ensures (Tables(), r) == SwitchDesk.TransitionBillStatus(old(Tables()), bill, dto, now)
    {
      hide CaseStatusFor, WithActivationDates;
      if bill !in bills { return Err(NotFound); }
      if bills[bill].status == dto.targetStatus { return Err(BadRequest); }
      if dto.targetStatus == VerificationRequired && !dto.hasMessage { return Err(BadRequest); }
      if !ActivationDatesGiven(dto) { return Err(BadRequest); }
      if dto.targetStatus == VerificationRequired {
        var _ := RequestVerification(bill, now);
      } else {
        ResolvePendingVerifications(bill);
        var _ := SetBillStatus(bill, dto.targetStatus, now);
      }
      var activeCase := FindNewestCase(bill);
      if activeCase.Some? {
        ghost var before := cases;
        ApplyActivationDates(activeCase.value, dto, now);
        MirrorStatusOnCase(activeCase.value, dto.targetStatus);
        assert cases == MirrorOnNewestCase(before, bill, dto, now) by {
          DatesKeepStatus(before[activeCase.value], dto, now);
        }
      }
      return Ok(bill);
    }

    method SubmitVerification(bill: Id, user: Id, now: int) returns (r: Answer)
      modifies this
      ensures (Tables(), r) == SwitchDesk.SubmitVerification(old(Tables()), bill, user, now)
    {
      if bill !in bills { return Err(NotFound); }
      if bills[bill].userId != user { return Err(Forbidden); }
      var pending := NewestPending(verifications, bill);
      if pending.None? { return Err(NotFound); }
      verifications := verifications[pending.value := Verification(bill, Submitted)];
      var _ := SetBillStatus(bill, VerificationReview, now);
      return Ok(pending.value);
    }

    method SendOffersToUser(bill: Id, request: seq<Id>, found: seq<Id>, firstRowId: Id, now: int) returns (r: Answer)
      modifies this
      ensures (Tables(), r) == SwitchDesk.SendOffersToUser(old(Tables()), bill, request, found, firstRowId, now)
    {
      hide HasOpenCase, Filter, InRequestOrder, FromStayingSuppliers, AfterSend;
      if bill !in bills { return Err(NotFound); }
      if bills[bill].status == PendingEmail { return Err(BadRequest); }
      var open := FindOpenCase(bill);
      if open { return Err(BadRequest); }
      if bills[bill].status != Verified && bills[bill].status != OfferSent { return Err(BadRequest); }
      if request == [] { return Err(NotFound); }
      if found == [] { return Err(NotFound); }
      var allOffers := InRequestOrder(request, found);
      var batch := Filter(allOffers, FromStayingSuppliers(Db(bills, cases, offers, suppliers, sent, verifications)));
      if batch == [] { return Err(BadRequest); }
      for i := 0 to |batch|
        invariant forall j :: 0 <= j < i && batch[j] in offers ==>
          ForAudience(offers[batch[j]].terms.target, bills[bill].role)
      {
        if batch[i] in offers && !ForAudience(offers[batch[i]].terms.target, bills[bill].role) {
          return Err(BadRequest);
        }
      }
      var rows := AppendBatch(SentFor(sent, bill), Send(bills[bill].userId, bill, firstRowId, now), batch);
      sent := sent[bill := rows];
      var _ := SetBillStatus(bill, OfferSent, now);
      return Ok(|rows|);
    }

    method ReorderOffers(bill: Id, order: seq<Id>) returns (r: Answer)
      modifies this
      ensures (Tables(), r) == SwitchDesk.ReorderOffers(old(Tables()), bill, order)
    {
      hide Reorder;
      if bill !in bills { return Err(NotFound); }
      var ordered := ReorderSentOffers(SentFor(sent, bill), order);
      if ordered.Err? { return Err(BadRequest); }
      sent := sent[bill := ordered.value];
      return Ok(|ordered.value|);
    }

    method AssociateBillWithUser(bill: Id, dto: AssociateDto, now: int) returns (r: Answer)
      modifies this`bills
      ensures (Tables(), r) == SwitchDesk.Associate(old(Tables()), bill, dto, now)
    {
      if bill !in bills { return Err(NotFound); }
      if !dto.userExists { return Err(NotFound); }
      if dto.pendingBillId.Some? {
        var pending := dto.pendingBillId.value;
        if pending !in bills || bills[pending].status != PendingEmail { return Err(NotFound); }
        if bills[pending].userId != dto.userId { return Err(BadRequest); }
        var _ := SetBillStatus(pending, if dto.hasFile then Analyzing else PendingEmail, now);
        bills := bills - {bill};
        return Ok(pending);
      }
      var loaded := bills[bill];
      bills := bills[bill := if dto.savesColumn then loaded.(userId := dto.userId, role := dto.role) else loaded];
      return Ok(bill);
    }

    // ----- OffersService -----

    method CheckOfferHasAcceptedCases(offer: Id) returns (accepted: bool)
      ensures accepted == IsAccepted(cases, offer)
    {
      for i := 0 to |cases|
        invariant forall j :: 0 <= j < i ==> !(cases[j].offerId == offer && !Closed(cases[j].status))
      {
        if cases[i].offerId == offer && !Closed(cases[i].status) { return true; }
      }
      return false;
    }

    method UpdateOffer(id: Id, edit: OfferEdit) returns (r: Answer)
      modifies this`offers
      ensures (Tables(), r) == SwitchDesk.UpdateOffer(old(Tables()), id, edit)
    {
      hide IsAccepted;
      if !OfferExists(offers, id) { return Err(NotFound); }
      var offer := offers[id];
      if offer.status != Draft {
        var accepted := CheckOfferHasAcceptedCases(id);
        if accepted { return Err(BadRequest); }
      }
      offer := offer.(terms := Edited(offer.terms, edit));
      if !PricingComplete(offer.terms) { return Err(BadRequest); }
      offers := offers[id := offer];
      return Ok(id);
    }

    method UpdateOfferStatus(id: Id, next: OfferStatus) returns (r: Answer)
      modifies this`offers
      ensures (Tables(), r) == SwitchDesk.UpdateOfferStatus(old(Tables()), id, next)
    {
      hide IsAccepted;
      if !OfferExists(offers, id) { return Err(NotFound); }
      var accepted := CheckOfferHasAcceptedCases(id);
      if !ValidOfferTransition(offers[id].status, next, accepted) { return Err(BadRequest); }
      if next == Active {
        if offers[id].terms.supplierId !in suppliers { return Err(NotFound); }
        if suppliers[offers[id].terms.supplierId] != SupplierActive { return Err(BadRequest); }
      }
      offers := offers[id := offers[id].(status := next)];
      return Ok(id);
    }

    method DeleteOffer(id: Id, now: int) returns (r: Answer)
      modifies this`offers
      ensures (Tables(), r) == SwitchDesk.DeleteOffer(old(Tables()), id, now)
    {
      var today := DayOf(now);
      if !OfferExists(offers, id) { return Err(NotFound); }
      for i := 0 to |cases|
        invariant forall j :: 0 <= j < i ==> !BlocksDeletion(cases[j], id, today)
      {
        if BlocksDeletion(cases[i], id, today) { return Err(BadRequest); }
      }
      offers := offers[id := offers[id].(deleted := true)];
      return Ok(id);
    }
  }

  lemma DatesKeepStatus(c: Case, dto: TransitionDto, now: int)
    ensures WithActivationDates(c, dto, now).status == c.status
  {
  }
}
