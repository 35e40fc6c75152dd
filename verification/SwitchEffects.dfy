/**
 * What each accepted call of the switch lifecycle leaves in the tables, column by
 * column, and that a refused one leaves nothing.
 */
module SwitchEffects {
  import opened Wrappers
  import opened InsertionOrder
  import opened Sorting
  import opened Statuses
  import SentOffers
  import opened SwitchDesk
  import opened SwitchInvariants

  type Id = SentOffers.Id

  lemma RefusedCaseCalls(db: Db, call: Call, now: int)
    requires call.CreateCaseCall? || call.UpdateCaseCall? || call.TransitionCall?
    ensures !Accepted(db, call, now) ==> After(db, call, now) == db
  {
    hide HasOpenCase, SentOffers.IsSent, PaymentAccepted, LeavingCatalogue, OfferExists, ActivationDatesGiven, AsInstant,
      Follows, MirrorOnNewestCase, Corrected;
  }

  /** Whatever a call is refused for, it has written nothing. */
  lemma RefusedChangesNothing(db: Db, call: Call, now: int)
    ensures !Accepted(db, call, now) ==> After(db, call, now) == db
  {
    if call.CreateCaseCall? || call.UpdateCaseCall? || call.TransitionCall? {
      RefusedCaseCalls(db, call, now);
    } else {
      hide CreateCase, UpdateCase, TransitionBillStatus, HasOpenCase, Batch, AllForAudience, SentOffers.AfterSend,
        SentOffers.Reorder,
        IsAccepted, HasLiveUtilities, NewestPending, PricingComplete, Edited, ValidOfferTransition, BlocksDeletion;
    }
  }

  // ----- Bills -----

  /** The bill a call moves, and the status it leaves it in. */
  function Leaves(call: Call): Option<(Id, BillStatus)> {
    match call
    case CreateCaseCall(_, dto) => Some((dto.billId, OfferAccepted))
    case TransitionCall(bill, dto) => Some((bill, dto.targetStatus))
    case RequestVerificationCall(bill) => Some((bill, VerificationRequired))
    case SubmitVerificationCall(bill, _) => Some((bill, VerificationReview))
    case SendOffersCall(bill, _, _, _) => Some((bill, OfferSent))
    case AnalyseCall(bill, finished) => Some((bill, if finished then VerificationReview else Analyzing))
    case AssociateCall(_, dto) =>
      if dto.pendingBillId.None? then None
      else Some((dto.pendingBillId.value, if dto.hasFile then Analyzing else PendingEmail))
    case _ => None
  }

  /** The stamp is written even where the status stays. */
  predicate StampsAnyway(call: Call) {
    call.CreateCaseCall? || call.RequestVerificationCall? ||
    (call.TransitionCall? && call.transition.targetStatus == VerificationRequired)
  }

  /** The bill after a move: its status, its stamp, and the owner it had. */
  predicate IsMoved(before: Bill, after: Bill, status: BillStatus, anyway: bool, now: int) {
    && after.status == status
    && after.statusChangedAt == (if anyway || before.status != status then now else before.statusChangedAt)
    && after.userId == before.userId && after.role == before.role
  }

  predicate GivesAway(call: Call) {
    call.AssociateCall? && call.association.pendingBillId.None?
  }

  predicate MergesAway(call: Call, bill: Id) {
    call.AssociateCall? && call.association.pendingBillId.Some? && call.bill == bill
  }

  /** Every bill after an accepted call: moved, merged away, given away, arrived, or as it was. */
  ghost predicate BillsFollow(db: Db, call: Call, after: Db, now: int) {
    forall id: Id {:trigger id in after.bills} {:trigger id in db.bills} ::
      if MergesAway(call, id) then id !in after.bills
      else if Leaves(call).Some? && Leaves(call).value.0 == id then
        id in db.bills && id in after.bills &&
        IsMoved(db.bills[id], after.bills[id], Leaves(call).value.1, StampsAnyway(call), now)
      else if GivesAway(call) && call.bill == id then
        && id in db.bills && id in after.bills
        && after.bills[id].status == db.bills[id].status
        && after.bills[id].statusChangedAt == db.bills[id].statusChangedAt
        && after.bills[id].userId ==
             (if call.association.savesColumn then call.association.userId else db.bills[id].userId)
        && after.bills[id].role ==
             (if call.association.savesColumn then call.association.role else db.bills[id].role)
      else if call.BillArrives? && call.bill == id && id !in db.bills then
        id in after.bills && after.bills[id] == call.newBill
      else (id in after.bills <==> id in db.bills) && (id in db.bills ==> after.bills[id] == db.bills[id])
  }

  lemma CaseCallsMoveBills(db: Db, call: Call, now: int)
    requires Accepted(db, call, now)
    requires call.CreateCaseCall? || call.UpdateCaseCall? || call.TransitionCall?
    ensures BillsFollow(db, call, After(db, call, now), now)
  {
    hide HasOpenCase, SentOffers.IsSent, PaymentAccepted, LeavingCatalogue, OfferExists, AsInstant, Follows,
      MirrorOnNewestCase, Corrected;
  }

  lemma BillCallsMoveBills(db: Db, call: Call, now: int)
    requires Accepted(db, call, now)
    requires call.RequestVerificationCall? || call.SubmitVerificationCall? || call.SendOffersCall? || call.AnalyseCall?
    ensures BillsFollow(db, call, After(db, call, now), now)
  {
    hide HasOpenCase, Batch, AllForAudience, SentOffers.AfterSend, NewestPending, ResolvePending, CreateCase, UpdateCase,
      TransitionBillStatus;
  }

  lemma AssociationMovesBills(db: Db, call: Call, now: int)
    requires Accepted(db, call, now) && call.AssociateCall?
    ensures BillsFollow(db, call, After(db, call, now), now)
  {
    hide CreateCase, UpdateCase, TransitionBillStatus;
  }

  lemma OtherCallsLeaveBills(db: Db, call: Call, now: int)
    requires Accepted(db, call, now)
    requires !call.CreateCaseCall? && !call.UpdateCaseCall? && !call.TransitionCall?
    requires !call.RequestVerificationCall? && !call.SubmitVerificationCall? && !call.SendOffersCall?
    requires !call.AnalyseCall? && !call.AssociateCall?
    ensures BillsFollow(db, call, After(db, call, now), now)
  {
    hide SentOffers.Reorder, IsAccepted, HasLiveUtilities, PricingComplete, Edited, ValidOfferTransition, BlocksDeletion,
      OfferExists, CreateCase, UpdateCase, TransitionBillStatus, SendOffersToUser;
  }

  /** For every accepted call, the status it leaves every bill in, and when its stamp moves. */
  lemma StepMovesBills(db: Db, call: Call, now: int)
    requires Accepted(db, call, now)
    ensures BillsFollow(db, call, After(db, call, now), now)
  {
    hide After, Accepted, BillsFollow;
    if call.CreateCaseCall? || call.UpdateCaseCall? || call.TransitionCall? {
      CaseCallsMoveBills(db, call, now);
    } else if call.RequestVerificationCall? || call.SubmitVerificationCall? || call.SendOffersCall? || call.AnalyseCall? {
      BillCallsMoveBills(db, call, now);
    } else if call.AssociateCall? {
      AssociationMovesBills(db, call, now);
    } else {
      OtherCallsLeaveBills(db, call, now);
    }
  }

  /** The stamp says when the bill last changed status: it moves with the status and with nothing else. */
  predicate StampsFollow(db: Db, after: Db, now: int) {
    forall id :: id in db.bills && id in after.bills ==>
      after.bills[id].statusChangedAt ==
        if after.bills[id].status != db.bills[id].status then now else db.bills[id].statusChangedAt
  }

  /** A document asked for again, or a case opened again on a bill whose last one was called off. */
  predicate Restamps(db: Db, call: Call, now: int) {
    match call
    case RequestVerificationCall(bill) =>
      && bill in db.bills && db.bills[bill].status == VerificationRequired && db.bills[bill].statusChangedAt != now
    case CreateCaseCall(user, dto) =>
      && Accepted(db, call, now)
      && db.bills[dto.billId].status == OfferAccepted && db.bills[dto.billId].statusChangedAt != now
    case _ => false
  }

  lemma StampFollowsStatusIff(db: Db, call: Call, now: int)
    requires Accepted(db, call, now)
    ensures StampsFollow(db, After(db, call, now), now) <==> !Restamps(db, call, now)
  {
    var after := After(db, call, now);
    StepMovesBills(db, call, now);
    if call.TransitionCall? { TransitionIsAllowedIff(db, call.bill, call.transition, now); }
    hide After, Accepted, ActivationDatesGiven;
    assert call.TransitionCall? ==> db.bills[call.bill].status != call.transition.targetStatus;
    var moved := Leaves(call);
    if moved.Some? && moved.value.0 in after.bills && moved.value.0 in db.bills {
      var id := moved.value.0;
      assert !MergesAway(call, id) ==> IsMoved(db.bills[id], after.bills[id], moved.value.1, StampsAnyway(call), now);
    }
    if Restamps(db, call, now) {
      var id := moved.value.0;
      assert id in db.bills && id in after.bills;
    }
  }

  /** A document asked for on Monday and again on Friday: the bill waits since Friday. */
  lemma AskingAgainRestamps(db: Db)
    requires 0 in db.bills && db.bills[0] == Bill(1, None, VerificationRequired, 1)
    ensures var after := After(db, RequestVerificationCall(0), 5);
      after.bills[0] == Bill(1, None, VerificationRequired, 5) && !StampsFollow(db, after, 5)
  {
    var after := After(db, RequestVerificationCall(0), 5);
    assert after.bills[0] == Bill(1, None, VerificationRequired, 5);
  }

  /** A transition does not go through twice. */
  lemma TransitionIsNotRepeated(db: Db, bill: Id, dto: TransitionDto, now: int, later: int)
    requires Accepted(db, TransitionCall(bill, dto), now)
    ensures Answered(After(db, TransitionCall(bill, dto), now), TransitionCall(bill, dto), later).1 == Err(BadRequest)
  {
    var call := TransitionCall(bill, dto);
    var after := After(db, call, now);
    StepMovesBills(db, call, now);
    assert bill in after.bills && after.bills[bill].status == dto.targetStatus by {
      hide After, Accepted;
      assert Leaves(call) == Some((bill, dto.targetStatus)) && !MergesAway(call, bill);
    }
    hide MirrorOnNewestCase, RequestVerification, ResolvePending;
  }

  // ----- Cases -----

  /**
   * Where a bill's own status says something of its case, the newest case says it
   * after a transition, and only that one moves.
   */
  lemma NewestCaseFollowsTheBill(db: Db, bill: Id, dto: TransitionDto, now: int, i: nat)
    requires Accepted(db, TransitionCall(bill, dto), now) && i < |db.cases|
    ensures
      var after := After(db, TransitionCall(bill, dto), now);
      && |after.cases| == |db.cases| && bill in after.bills
      && (if Newest(db.cases, bill) != Some(i) then after.cases[i] == db.cases[i]
          else
            && (CaseStatusFor(after.bills[bill].status).Some? ==>
                  CaseStatusFor(after.bills[bill].status) == Some(after.cases[i].status))
            && (CaseStatusFor(after.bills[bill].status).None? ==> after.cases[i].status == db.cases[i].status)
            && after.cases[i].billId == bill && after.cases[i].offerId == db.cases[i].offerId
            && after.cases[i].supplierId == db.cases[i].supplierId && after.cases[i].payment == db.cases[i].payment)
  {
    var call := TransitionCall(bill, dto);
    StepMovesBills(db, call, now);
    assert !MergesAway(call, bill) && Leaves(call) == Some((bill, dto.targetStatus));
    hide CaseStatusFor, ActivationDatesGiven, RequestVerification, MoveBill, ResolvePending, DayOf;
  }

  /** The dates a transition leaves on the newest case, and the stamp of its contract. */
  lemma TransitionDates(db: Db, bill: Id, dto: TransitionDto, now: int)
    requires Accepted(db, TransitionCall(bill, dto), now) && Newest(db.cases, bill).Some?
    ensures
      var i := Newest(db.cases, bill).value;
      var before, after := db.cases[i], After(db, TransitionCall(bill, dto), now).cases[i];
      var live := dto.targetStatus in {AwaitingActivation, Activated};
      && (!live ==> after.activationDate.None? && after.expiryDate.None?)
      && (live && dto.activationDate.Some? ==> after.activationDate == Some(dto.activationDate.value / 86_400_000))
      && (live && dto.expiryDate.Some? ==> after.expiryDate == Some(dto.expiryDate.value / 86_400_000))
      && (live && dto.activationDate.None? ==> after.activationDate == before.activationDate)
      && (live && dto.expiryDate.None? ==> after.expiryDate == before.expiryDate)
      && after.contractSentAt ==
           (if dto.targetStatus == ContractSent && before.contractSentAt.None? then Some(now) else before.contractSentAt)
  {
    hide CaseStatusFor, ActivationDatesGiven, RequestVerification, MoveBill, ResolvePending;
  }

  /** The case a customer opens: new, on the offer they chose and its supplier, without dates. */
  lemma CaseIsFiled(db: Db, user: Id, dto: CreateCaseDto, now: int)
    requires Accepted(db, CreateCaseCall(user, dto), now)
    ensures
      var after := After(db, CreateCaseCall(user, dto), now);
      && |after.cases| == |db.cases| + 1 && after.cases[..|db.cases|] == db.cases
      && dto.offerId in db.offers
      && var c := after.cases[|db.cases|];
         && c.billId == dto.billId && c.offerId == dto.offerId && c.status == New && c.payment == dto.payment
         && c.supplierId == db.offers[dto.offerId].terms.supplierId
         && c.activationDate.None? && c.expiryDate.None? && c.contractSentAt.None?
  {
    hide HasOpenCase, SentOffers.IsSent, PaymentAccepted, LeavingCatalogue;
  }

  predicate Keeps<T(==)>(sent: Patch<T>, before: Option<T>, after: Option<T>) {
    && (sent.Keep? ==> after == before) && (sent.Clear? ==> after.None?) && (sent.Set? ==> after == Some(sent.value))
  }

  predicate KeepsDay(sent: Patch<int>, before: Option<int>, after: Option<int>) {
    && (sent.Keep? ==> after == before) && (sent.Clear? ==> after.None?)
    && (sent.Set? ==> after == Some(sent.value / 86_400_000))
  }

  /** An edit writes what the request sends, keeps what it does not, and moves the supplier with the offer. */
  lemma CaseIsEdited(db: Db, id: nat, dto: UpdateCaseDto, now: int)
    requires Accepted(db, UpdateCaseCall(id, dto), now)
    ensures
      var after := After(db, UpdateCaseCall(id, dto), now);
      && id < |db.cases| == |after.cases| && (forall i :: 0 <= i < |db.cases| && i != id ==> after.cases[i] == db.cases[i])
      && var before, c := db.cases[id], after.cases[id];
         && c.billId == before.billId
         && c.status == (if dto.status.Some? then dto.status.value else before.status)
         && c.offerId == (if dto.offerId.Some? then dto.offerId.value else before.offerId)
         && (c.offerId == before.offerId ==> c.supplierId == before.supplierId)
         && (c.offerId != before.offerId ==>
               c.offerId in db.offers && !db.offers[c.offerId].deleted
               && c.supplierId == db.offers[c.offerId].terms.supplierId)
         && Keeps(dto.payment, before.payment, c.payment)
         && KeepsDay(dto.activationDate, before.activationDate, c.activationDate)
         && KeepsDay(dto.expiryDate, before.expiryDate, c.expiryDate)
         && Keeps(dto.contractSentAt, before.contractSentAt, c.contractSentAt)
  {
    UpdateIsAllowedIff(db, id, dto, now);
    hide PaymentAccepted, LeavingCatalogue, AsInstant, Follows;
  }

  /** A bill with a case that is neither cancelled nor rejected takes no second one. */
  lemma NoSecondCase(db: Db, user: Id, dto: CreateCaseDto, now: int, i: nat)
    requires i < |db.cases| && db.cases[i].billId == dto.billId
    requires db.cases[i].status != CaseCancelled && db.cases[i].status != Rejected
    ensures !Accepted(db, CreateCaseCall(user, dto), now)
  {
    assert HoldsBill(db.cases[i], dto.billId);
    hide SentOffers.IsSent, PaymentAccepted, LeavingCatalogue, OfferExists;
  }

  // ----- Verifications -----

  /** Asking closes what the bill was waiting for and adds one; nothing of another bill moves. */
  lemma DocumentIsAskedFor(db: Db, bill: Id, now: int)
    requires Accepted(db, RequestVerificationCall(bill), now)
    ensures
      var after := After(db, RequestVerificationCall(bill), now).verifications;
      && |after| == |db.verifications| + 1 && after[|db.verifications|] == Verification(bill, Pending)
      && forall i :: 0 <= i < |db.verifications| ==>
           after[i].billId == db.verifications[i].billId &&
           after[i].status ==
             if db.verifications[i] == Verification(bill, Pending) then Resolved else db.verifications[i].status
  {
  }

  /** A transition elsewhere closes what the bill was waiting for. */
  lemma MovingOnClosesTheRequest(db: Db, bill: Id, dto: TransitionDto, now: int, i: nat)
    requires Accepted(db, TransitionCall(bill, dto), now) && i < |db.verifications|
    ensures
      var after := After(db, TransitionCall(bill, dto), now).verifications;
      && i < |after| && after[i].billId == db.verifications[i].billId
      && after[i].status ==
           if db.verifications[i] == Verification(bill, Pending) then Resolved else db.verifications[i].status
  {
    hide MirrorOnNewestCase, ActivationDatesGiven;
  }

  /** The customer answers the latest open request of the bill, and no other row moves. */
  lemma DocumentIsSent(db: Db, bill: Id, user: Id, now: int)
    requires Accepted(db, SubmitVerificationCall(bill, user), now)
    ensures
      var after := After(db, SubmitVerificationCall(bill, user), now).verifications;
      && |after| == |db.verifications| && bill in db.bills && db.bills[bill].userId == user
      && exists k :: 0 <= k < |after| && db.verifications[k] == Verification(bill, Pending)
           && after[k] == Verification(bill, Submitted)
           && (forall i :: k < i < |after| ==> db.verifications[i] != Verification(bill, Pending))
           && (forall i :: 0 <= i < |after| && i != k ==> after[i] == db.verifications[i])
  {
    NewestPendingIsLast(db.verifications, bill);
    var k := NewestPending(db.verifications, bill).value;
    assert After(db, SubmitVerificationCall(bill, user), now).verifications
        == db.verifications[k := Verification(bill, Submitted)];
    hide NewestPending;
  }

  lemma {:induction false} NewestPendingIsLast(verifications: seq<Verification>, bill: Id)
    ensures var k := NewestPending(verifications, bill);
      k.Some? ==> forall i :: k.value < i < |verifications| ==> verifications[i] != Verification(bill, Pending)
  {
    if verifications != [] && verifications[|verifications| - 1] != Verification(bill, Pending) {
      var front := verifications[..|verifications| - 1];
      NewestPendingIsLast(front, bill);
      assert forall i :: 0 <= i < |front| ==> front[i] == verifications[i];
    }
  }

  // ----- Offers -----

  /** No offer meant for one audience goes to a customer of the other. */
  lemma SentOffersSuitTheCustomer(db: Db, bill: Id, request: seq<Id>, found: seq<Id>, firstRowId: Id, now: int, id: Id)
    requires Accepted(db, SendOffersCall(bill, request, found, firstRowId), now)
    requires id in Batch(db, request, found) && id in db.offers && bill in db.bills
    ensures db.offers[id].terms.target == Some(OnlyFor(Personal)) ==> db.bills[bill].role != Some(Business)
    ensures db.offers[id].terms.target == Some(OnlyFor(Business)) ==> db.bills[bill].role != Some(Personal)
  {
    hide Batch, HasOpenCase, SentOffers.AfterSend;
  }

  /** Nothing else about the audience is refused. */
  lemma SuitableOffersAreSent(db: Db, bill: Id, request: seq<Id>, found: seq<Id>, firstRowId: Id, now: int)
    requires bill in db.bills && db.bills[bill].status in {Verified, OfferSent}
    requires request != [] && found != [] && Batch(db, request, found) != []
    requires forall i :: 0 <= i < |db.cases| && db.cases[i].billId == bill ==>
      db.cases[i].status in {CaseCancelled, Rejected}
    requires forall id :: id in Batch(db, request, found) && id in db.offers ==>
      && (db.offers[id].terms.target == Some(OnlyFor(Personal)) ==> db.bills[bill].role != Some(Business))
      && (db.offers[id].terms.target == Some(OnlyFor(Business)) ==> db.bills[bill].role != Some(Personal))
    ensures Accepted(db, SendOffersCall(bill, request, found, firstRowId), now)
  {
    hide Batch, SentOffers.AfterSend;
    assert !HasOpenCase(db.cases, bill);
    forall id | id in Batch(db, request, found) && id in db.offers
      ensures ForAudience(db.offers[id].terms.target, db.bills[bill].role)
    {
      var target, role := db.offers[id].terms.target, db.bills[bill].role;
      if role.Some? && target.Some? && target.value.OnlyFor? {
        assert target == Some(OnlyFor(target.value.audience));
      }
    }
  }

  /** A batch holds no offer of a supplier leaving the catalogue. */
  lemma BatchIsOfStayingSuppliers(db: Db, request: seq<Id>, found: seq<Id>, id: Id)
    requires id in Batch(db, request, found)
    ensures id in found && id in db.offers
    ensures var s := db.offers[id].terms.supplierId; s in db.suppliers ==> db.suppliers[s] != PendingDeletion
  {
    var ordered := SentOffers.InRequestOrder(request, found);
    FilterKeeps(ordered, FromStayingSuppliers(db), id);
    assert multiset(ordered) == multiset(found);
    assert id in multiset(ordered);
  }

  lemma {:induction false} FilterKeeps(s: seq<Id>, f: Id -> bool, id: Id)
    requires id in Filter(s, f)
    ensures id in s && f(id)
  {
    if s != [] && id in Filter(s[..|s| - 1], f) { FilterKeeps(s[..|s| - 1], f, id); }
  }

  /** A send or a rearrangement leaves the rows of every other bill alone. */
  lemma OtherBillsKeepTheirRows(db: Db, call: Call, now: int, other: Id)
    requires (call.SendOffersCall? || call.ReorderOffersCall?) ==> call.bill != other
    ensures SentFor(After(db, call, now).sent, other) == SentFor(db.sent, other)
  {
    if call.SendOffersCall? || call.ReorderOffersCall? {
      hide Batch, SentOffers.AfterSend, SentOffers.Reorder, HasOpenCase, AllForAudience;
    } else if call.AssociateCall? {
    } else {
      OthersLeaveSentRows(db, call, now);
      hide After;
    }
  }

  predicate KeepsOr<T(==)>(sent: Option<T>, before: T, after: T) {
    after == if sent.Some? then sent.value else before
  }

  /** An edit of an offer writes each column that is sent, keeps the others, and never revives or moves it. */
  lemma OfferIsEdited(db: Db, id: Id, edit: OfferEdit, now: int)
    requires Accepted(db, UpdateOfferCall(id, edit), now)
    ensures
      var after := After(db, UpdateOfferCall(id, edit), now);
      && id in db.offers && id in after.offers
      && after.offers[id].status == db.offers[id].status && !after.offers[id].deleted && !db.offers[id].deleted
      && var before, t := db.offers[id].terms, after.offers[id].terms;
         && KeepsOr(edit.energyType, before.energyType, t.energyType)
         && KeepsOr(edit.marketType, before.marketType, t.marketType)
         && KeepsOr(edit.supplierId, before.supplierId, t.supplierId) && KeepsOr(edit.wording, before.wording, t.wording)
         && t.target == (if edit.target.Some? then edit.target else before.target)
         && Keeps(edit.pricePerKwh, before.pricePerKwh, t.pricePerKwh)
         && Keeps(edit.pricePerSmc, before.pricePerSmc, t.pricePerSmc) && Keeps(edit.spread, before.spread, t.spread)
         && Keeps(edit.months, before.months, t.months) && Keeps(edit.payment, before.payment, t.payment)
         && (edit.months.Keep? ==> t.days == before.days)
  {
    hide IsAccepted, PricingComplete, MonthsToDays;
  }

  /** The prices an offer cannot do without. */
  predicate HoldsItsPrices(t: Terms) {
    && (t.marketType == Fixed && (t.energyType == Electricity || t.energyType == Dual) ==> t.pricePerKwh.Some?)
    && (t.marketType == Fixed && (t.energyType == Gas || t.energyType == Dual) ==> t.pricePerSmc.Some?)
    && (t.marketType == Variable || t.marketType == Indexed ==> t.spread.Some?)
  }

  /** A term in days is its months to the nearest day, and none where there is no term. */
  predicate DaysAreMonths(t: Terms) {
    if t.months.Some? && t.months.value > 0 then 24 * t.days - 12 <= 730 * t.months.value < 24 * t.days + 12
    else t.days == 0
  }

  lemma PricedMeans(t: Terms)
    ensures IsPriced(t) <==> HoldsItsPrices(t) && DaysAreMonths(t)
  {
  }

  /** An edit goes through exactly on an offer of the catalogue, open to edits, that ends up with its prices. */
  lemma OfferIsEditedIff(db: Db, id: Id, edit: OfferEdit, now: int)
    ensures Accepted(db, UpdateOfferCall(id, edit), now) <==>
      && id in db.offers && !db.offers[id].deleted
      && (db.offers[id].status == Draft ||
          forall i :: 0 <= i < |db.cases| && db.cases[i].offerId == id ==>
            db.cases[i].status in {CaseCancelled, Rejected})
      && HoldsItsPrices(Edited(db.offers[id].terms, edit))
  {
    hide Edited;
    if id in db.offers {
      assert IsAccepted(db.cases, id) <==>
        !(forall i :: 0 <= i < |db.cases| && db.cases[i].offerId == id ==> db.cases[i].status in {CaseCancelled, Rejected});
      assert PricingComplete(Edited(db.offers[id].terms, edit)) <==> HoldsItsPrices(Edited(db.offers[id].terms, edit));
      hide IsAccepted, PricingComplete, HoldsItsPrices;
    }
  }

  /** One step on along draft, active, expiring, expired. */
  function Later(status: OfferStatus): Option<OfferStatus> {
    if status == Draft then Some(Active) else if status == Active then Some(Expiring)
    else if status == Expiring then Some(Expired) else None
  }

  /**
   * An offer goes one step on, into the archive, or out of it; back to a draft from the
   * catalogue or the archive only while no open case names it. Going on sale takes an
   * active supplier.
   */
  lemma OfferIsMovedIff(db: Db, id: Id, next: OfferStatus, now: int)
    requires id in db.offers && !db.offers[id].deleted
    ensures
      var current, supplier := db.offers[id].status, db.offers[id].terms.supplierId;
      Accepted(db, UpdateOfferStatusCall(id, next), now) <==>
        && (|| Later(current) == Some(next)
            || (next == Archived && current != Archived)
            || (next == Active && current == Archived)
            || (next == Draft && (current == Active || current == Archived) && !IsAccepted(db.cases, id)))
        && (next == Active ==> supplier in db.suppliers && db.suppliers[supplier] == SupplierActive)
  {
    hide IsAccepted;
  }

  /** A move changes the status of that offer, a withdrawal its place in the catalogue, and neither anything else. */
  lemma OfferCallsTouchOneOffer(db: Db, call: Call, now: int, other: Id)
    requires call.UpdateOfferCall? || call.UpdateOfferStatusCall? || call.DeleteOfferCall?
    requires Accepted(db, call, now)
    ensures
      var after := After(db, call, now);
      && after == db.(offers := after.offers) && after.offers.Keys == db.offers.Keys && call.offer in db.offers
      && (other in db.offers && other != call.offer ==> after.offers[other] == db.offers[other])
      && (call.UpdateOfferStatusCall? ==>
            after.offers[call.offer] == Offer(call.next, db.offers[call.offer].terms, false))
      && (call.DeleteOfferCall? ==>
            after.offers[call.offer] == Offer(db.offers[call.offer].status, db.offers[call.offer].terms, true))
  {
    hide IsAccepted, PricingComplete, Edited, ValidOfferTransition, BlocksDeletion, DayOf;
  }

  /** An offer is withdrawn exactly when no switch is under way on it and no supply has time left. */
  lemma OfferIsWithdrawnIff(db: Db, id: Id, now: int)
    requires id in db.offers && !db.offers[id].deleted
    ensures Accepted(db, DeleteOfferCall(id), now) <==>
      forall i :: 0 <= i < |db.cases| && db.cases[i].offerId == id ==>
        || db.cases[i].status in {CaseCancelled, Rejected}
        || (db.cases[i].status == CaseActivated && db.cases[i].expiryDate.Some?
            && db.cases[i].expiryDate.value <= now / 86_400_000)
  {
    forall i | 0 <= i < |db.cases|
      ensures BlocksDeletion(db.cases[i], id, DayOf(now)) <==>
        db.cases[i].offerId == id &&
        !(|| db.cases[i].status in {CaseCancelled, Rejected}
          || (db.cases[i].status == CaseActivated && db.cases[i].expiryDate.Some?
              && db.cases[i].expiryDate.value <= now / 86_400_000))
    {
    }
    hide BlocksDeletion, DayOf;
  }

  // ----- Suppliers -----

  /** A supply of the supplier that is planned or running and has no end by today. */
  predicate Supplies(db: Db, c: Case, supplier: Id, now: int) {
    && c.offerId in db.offers && !db.offers[c.offerId].deleted && db.offers[c.offerId].terms.supplierId == supplier
    && c.status in {CaseAwaitingActivation, CaseActivated}
    && (c.expiryDate.Some? ==> c.expiryDate.value > now / 86_400_000)
  }

  lemma SuppliesIsLive(db: Db, supplier: Id, now: int)
    ensures HasLiveUtilities(db, supplier, DayOf(now)) <==>
      exists i :: 0 <= i < |db.cases| && Supplies(db, db.cases[i], supplier, now)
    ensures (exists i :: 0 <= i < |db.cases| && IsEndlessUtilityOf(db, db.cases[i], supplier, DayOf(now))) <==>
      exists i :: 0 <= i < |db.cases| && Supplies(db, db.cases[i], supplier, now) && db.cases[i].expiryDate.None?
  {
    forall i | 0 <= i < |db.cases|
      ensures Supplies(db, db.cases[i], supplier, now) <==> IsLiveUtilityOf(db, db.cases[i], supplier, DayOf(now))
    {
    }
    hide Supplies, IsLiveUtilityOf, DayOf;
  }

  /** A case the supplier's departure calls off: filed, and not past its documents. */
  predicate IsEarly(c: Case, supplier: Id) {
    c.supplierId == supplier && c.status in {New, InProgress, DocumentsPending}
  }

  /**
   * A supplier without supplies is removed with its offers and no case moves; one whose
   * supplies all end is set to leave, and exactly its early cases are cancelled; one with
   * an endless supply stays.
   */
  lemma SupplierDepartsAsItSupplies(db: Db, supplier: Id, now: int)
    requires supplier in db.suppliers && db.suppliers[supplier] != PendingDeletion
    ensures
      var after := After(db, DeleteSupplierCall(supplier), now);
      var supplying := exists i :: 0 <= i < |db.cases| && Supplies(db, db.cases[i], supplier, now);
      var endless :=
        exists i :: 0 <= i < |db.cases| && Supplies(db, db.cases[i], supplier, now) && db.cases[i].expiryDate.None?;
      && (!supplying ==> IsRemoved(db, after, supplier))
      && (endless ==> after == db && !Accepted(db, DeleteSupplierCall(supplier), now))
      && (supplying && !endless ==>
            && after.suppliers == db.suppliers[supplier := PendingDeletion] && after.offers == db.offers
            && |after.cases| == |db.cases|
            && forall i :: 0 <= i < |db.cases| ==>
                 after.cases[i] ==
                   if IsEarly(db.cases[i], supplier) then db.cases[i].(status := CaseCancelled) else db.cases[i])
  {
    SuppliesIsLive(db, supplier, now);
    RemovalIs(db, supplier);
    hide Supplies, HasLiveUtilities, IsEndlessUtilityOf, DayOf, WithoutSupplier, IsRemoved;
  }

  /** The supplier is gone, its offers are withdrawn, and the rest is as it was. */
  predicate IsRemoved(db: Db, after: Db, supplier: Id) {
    && supplier !in after.suppliers && after.cases == db.cases && after.bills == db.bills && after.sent == db.sent
    && (forall s :: s in db.suppliers && s != supplier ==> s in after.suppliers && after.suppliers[s] == db.suppliers[s])
    && after.offers.Keys == db.offers.Keys
    && (forall id :: id in db.offers ==>
          && after.offers[id].status == db.offers[id].status && after.offers[id].terms == db.offers[id].terms
          && (after.offers[id].deleted <==>
                db.offers[id].deleted || db.offers[id].terms.supplierId == supplier))
  }

  lemma RemovalIs(db: Db, supplier: Id)
    ensures IsRemoved(db, WithoutSupplier(db, supplier), supplier)
  {
  }

  /** The day comes: the supplier is removed exactly when it supplies nobody any more. */
  lemma ScheduledDepartureWaits(db: Db, supplier: Id, now: int)
    requires supplier in db.suppliers && db.suppliers[supplier] == PendingDeletion
    ensures
      var after := After(db, ExecuteDeletionCall(supplier), now);
      if exists i :: 0 <= i < |db.cases| && Supplies(db, db.cases[i], supplier, now) then after == db
      else IsRemoved(db, after, supplier)
  {
    SuppliesIsLive(db, supplier, now);
    RemovalIs(db, supplier);
    hide Supplies, HasLiveUtilities, DayOf, WithoutSupplier, IsRemoved;
  }

  // ----- What a case may be paid by -----

  /** A customer may leave the payment open, or pay as the offer is sold. */
  predicate PaysAsSold(offer: Offer, chosen: Option<PaymentMethod>) {
    && (offer.terms.payment == Some(DirectDebit) && chosen.Some? ==> chosen == Some(RidBancario))
    && (offer.terms.payment == Some(ByPostalOrder) && chosen.Some? ==> chosen == Some(PostalOrder))
  }

  lemma PaysAsSoldIff(offer: Offer, chosen: Option<PaymentMethod>)
    ensures PaymentAccepted(offer, chosen) <==> PaysAsSold(offer, chosen)
  {
  }

  /** No case is filed or corrected to a payment its offer is not sold with. */
  lemma CasesArePaidAsSold(db: Db, call: Call, now: int)
    requires call.CreateCaseCall? || (call.UpdateCaseCall? && (call.update.payment.Set? || call.update.offerId.Some?))
    requires Accepted(db, call, now)
    ensures
      var c := After(db, call, now).cases[if call.CreateCaseCall? then |db.cases| else call.id];
      c.offerId in db.offers && !db.offers[c.offerId].deleted &&
      (call.CreateCaseCall? || call.update.payment.Set? || c.offerId != db.cases[call.id].offerId) ==>
        PaysAsSold(db.offers[c.offerId], c.payment)
  {
    if call.CreateCaseCall? {
      CaseIsFiled(db, call.user, call.create, now);
      PaysAsSoldIff(db.offers[call.create.offerId], call.create.payment);
      hide HasOpenCase, SentOffers.IsSent, LeavingCatalogue, PaymentAccepted, PaysAsSold;
    } else {
      CaseIsEdited(db, call.id, call.update, now);
      UpdateIsAllowedIff(db, call.id, call.update, now);
      var c := After(db, call, now).cases[call.id];
      if c.offerId in db.offers { PaysAsSoldIff(db.offers[c.offerId], c.payment); }
      hide After, Accepted, LeavingCatalogue, AsInstant, Follows, PaymentAccepted, PaysAsSold;
    }
  }
}
