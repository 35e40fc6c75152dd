/**
 * The status columns and the tables over them: src/common/enums/case.enum.ts,
 * src/common/utils/bill-status-transitions.ts and the map from bill to case
 * status in src/modules/bills/bills.service.ts.
 */
module Statuses {
  import opened Wrappers

  datatype BillStatus =
    | PendingEmail | Uploaded | Analyzing | Analyzed | Error
    | VerificationReview | VerificationRequired | Verified
    | OfferSent | OfferAccepted | ContractSent | AwaitingActivation | Activated | Cancelled

  datatype CaseStatus =
    | New | InProgress | DocumentsPending | CaseContractSent
    | CaseActivated | Rejected | CaseCancelled | CaseAwaitingActivation

  datatype OfferStatus = Draft | Active | Expiring | Expired | Archived

  datatype SupplierStatus = SupplierActive | SupplierInactive | PendingDeletion

  /** CLOSED_CASE_STATUSES: the case no longer holds on to its bill. */
  predicate Closed(status: CaseStatus) {
    status == CaseCancelled || status == Rejected
  }

  /** LIVE_UTILITY_CASE_STATUSES */
  predicate LiveUtility(status: CaseStatus) {
    status == CaseAwaitingActivation || status == CaseActivated
  }

  const PIPELINE_STATUS_ORDER: seq<BillStatus> := [
    Uploaded, Analyzing, Analyzed, VerificationReview, VerificationRequired, Verified,
    OfferSent, OfferAccepted, ContractSent, AwaitingActivation, Activated]

  const ADMIN_SELECTABLE_STATUSES: seq<BillStatus> := PIPELINE_STATUS_ORDER + [Cancelled]

  /** CASE_STATUS_BY_BILL_STATUS: the map has no entry for an OCR failure. */
  function CaseStatusFor(status: BillStatus): Option<CaseStatus> {
    match status
    case PendingEmail => Some(New)
    case Uploaded => Some(New)
    case Analyzing => Some(New)
    case Analyzed => Some(New)
    case VerificationReview => Some(InProgress)
    case VerificationRequired => Some(DocumentsPending)
    case Verified => Some(InProgress)
    case OfferSent => Some(InProgress)
    case OfferAccepted => Some(InProgress)
    case ContractSent => Some(CaseContractSent)
    case AwaitingActivation => Some(CaseAwaitingActivation)
    case Activated => Some(CaseActivated)
    case Cancelled => Some(CaseCancelled)
    case Error => None
  }

  /** What a case status says of the bill that put it there. */
  lemma CaseStatusTells(status: BillStatus)
    ensures CaseStatusFor(status).None? <==> status == Error
    ensures CaseStatusFor(status) == Some(New) <==> status in {PendingEmail, Uploaded, Analyzing, Analyzed}
    ensures CaseStatusFor(status) == Some(DocumentsPending) <==> status == VerificationRequired
    ensures CaseStatusFor(status) == Some(InProgress) <==>
      status in {VerificationReview, Verified, OfferSent, OfferAccepted}
    ensures CaseStatusFor(status) == Some(CaseContractSent) <==> status == ContractSent
    ensures CaseStatusFor(status) == Some(CaseAwaitingActivation) <==> status == AwaitingActivation
    ensures CaseStatusFor(status) == Some(CaseActivated) <==> status == Activated
    ensures CaseStatusFor(status) == Some(CaseCancelled) <==> status == Cancelled
    ensures CaseStatusFor(status) != Some(Rejected)
  {
  }

  /** Every status an admin may select moves the linked case with it. */
  lemma SelectableStatusesMoveTheCase(status: BillStatus)
    ensures status in ADMIN_SELECTABLE_STATUSES ==> CaseStatusFor(status).Some?
    ensures CaseStatusFor(status) == Some(CaseAwaitingActivation) <==> status == AwaitingActivation
  {
    if status == Error {
      forall i | 0 <= i < |ADMIN_SELECTABLE_STATUSES| ensures ADMIN_SELECTABLE_STATUSES[i] != Error {
      }
    }
  }

  /**
   * validateStatusTransition: archived offers come back, and an offer an open case
   * names does not become a draft.
   */
  predicate ValidOfferTransition(current: OfferStatus, next: OfferStatus, hasAcceptedCases: bool) {
    match current
    case Draft => next == Active || next == Archived
    case Active => next == Expiring || next == Archived || (next == Draft && !hasAcceptedCases)
    case Expiring => next == Expired || next == Archived
    case Expired => next == Archived
    case Archived => next == Active || (next == Draft && !hasAcceptedCases)
  }
}
