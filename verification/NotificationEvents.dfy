/**
 * The customer triggers of src/modules/notifications/notification-events.service.ts
 * that follow an application through its life, over the milestone tables of
 * notification-messages.ts.
 */
module NotificationEvents {
  import opened Wrappers
  import opened Statuses
  import opened Placeholders
  import opened InsertionOrder
  import opened RecipientText
  import opened NotificationLog

  datatype MessageKey =
    | application_submitted | offers_available | contract_ready | awaiting_activation
    | utility_activated | application_cancelled | bill_verification_required

  /** `getNotificationText` for the messages that take no parameters. */
  type Catalogue = MessageKey -> Message

  /** CustomerMilestone: which message announces it, and the last part of its key. */
  datatype Milestone = Milestone(event: string, messageKey: MessageKey)

  const OFFERS_AVAILABLE := Milestone("offers_available", offers_available)
  const CONTRACT_READY := Milestone("contract_ready", contract_ready)
  const IN_ACTIVATION := Milestone("in_activation", awaiting_activation)
  const ACTIVATED := Milestone("activated", utility_activated)
  const CANCELLED := Milestone("cancelled", application_cancelled)

  /** CUSTOMER_MILESTONES: every status without an entry is silent. */
  function CustomerMilestone(status: BillStatus): Option<Milestone> {
    match status
    case OfferSent => Some(OFFERS_AVAILABLE)
    case ContractSent => Some(CONTRACT_READY)
    case AwaitingActivation => Some(IN_ACTIVATION)
    case Activated => Some(ACTIVATED)
    case Cancelled => Some(CANCELLED)
    case _ => None
  }

  /** CASE_STATUS_MILESTONES: the same milestones from the other status column. */
  function CaseStatusMilestone(status: CaseStatus): Option<Milestone> {
    match status
    case CaseContractSent => Some(CONTRACT_READY)
    case CaseAwaitingActivation => Some(IN_ACTIVATION)
    case CaseActivated => Some(ACTIVATED)
    case CaseCancelled => Some(CANCELLED)
    case Rejected => Some(CANCELLED)
    case _ => None
  }

  /**
   * The two columns tell the same story: when a bill status moves its case, the
   * case's milestone is the bill's own, or the case status is silent and the
   * bill's news is none or the offers.
   */
  lemma ColumnsShareMilestones(status: BillStatus, caseStatus: CaseStatus)
    requires CaseStatusFor(status) == Some(caseStatus)
    ensures CaseStatusMilestone(caseStatus) == CustomerMilestone(status)
         || (CaseStatusMilestone(caseStatus).None? && CustomerMilestone(status) == Some(OFFERS_AVAILABLE))
  {
  }

  datatype BillRef = BillRef(id: Uuid, userId: UserId)

  datatype CaseRef = CaseRef(id: Uuid, userId: UserId, billId: Option<Uuid>)

  datatype Event =
    | ApplicationSubmitted(bill: BillRef)
    | OffersAvailable(bill: BillRef, recommended: Message)
    | BillMoved(bill: BillRef, status: BillStatus)
    | CaseMoved(row: CaseRef, caseStatus: CaseStatus)
    | DocumentRequested(verificationId: Uuid, bill: BillRef, adminMessage: string)

  /** Who is told, under which key, in which words. `None` is a silent event. */
  function SendOf(catalogue: Catalogue, e: Event, db: Database): Option<Send> {
    match e
    case ApplicationSubmitted(bill) =>
      Some(ToOne(bill.userId, KeyText("bill", bill.id, "submitted"), catalogue(application_submitted), "", db))
    case OffersAvailable(bill, recommended) =>
      Some(ToOne(bill.userId, KeyText("bill", bill.id, OFFERS_AVAILABLE.event), recommended, "", db))
    case BillMoved(bill, status) =>
      var m := CustomerMilestone(status);
      if m.None? then None
      else Some(ToOne(bill.userId, KeyText("bill", bill.id, m.value.event), catalogue(m.value.messageKey), "", db))
    case CaseMoved(row, status) =>
      var m := CaseStatusMilestone(status);
      if m.None? || row.billId.GetOr("") == "" then None
      else Some(ToOne(row.userId, KeyText("bill", row.billId.value, m.value.event), catalogue(m.value.messageKey), "", db))
    case DocumentRequested(id, bill, adminMessage) =>
      Some(ToOne(
        bill.userId, KeyText("verification", id, "requested"), catalogue(bill_verification_required), adminMessage, db))
  }

  function ToOne(uid: UserId, key: string, message: Message, body: string, db: Database): Send {
    Send(Input(Some(message), "", body, None), Some(key), [uid], db)
  }

  class NotificationEventsService {
    const catalogue: Catalogue
    const outbox: Outbox

    constructor (catalogue: Catalogue, outbox: Outbox)
      ensures this.catalogue == catalogue && this.outbox == outbox
    {
      this.catalogue, this.outbox := catalogue, outbox;
    }

    /** What a trigger leaves in the store: nothing new, or the one row of its send. */
    ghost function RowsAfter(rows: seq<Row>, e: Event, db: Database): seq<Row> {
      var s := SendOf(catalogue, e, db);
      if s.None? then rows else rows + NotificationLog.Delivered(rows, s.value)
    }

    method ApplicationSubmitted(bill: BillRef, db: Database)
      modifies outbox
      ensures outbox.rows == RowsAfter(old(outbox.rows), Event.ApplicationSubmitted(bill), db)
    {
      outbox.ToCustomer(ToOne(bill.userId, KeyText("bill", bill.id, "submitted"), catalogue(application_submitted), "", db));
    }

    method OffersAvailable(bill: BillRef, recommended: Message, db: Database)
      modifies outbox
      ensures outbox.rows == RowsAfter(old(outbox.rows), Event.OffersAvailable(bill, recommended), db)
    {
      outbox.ToCustomer(ToOne(bill.userId, KeyText("bill", bill.id, OFFERS_AVAILABLE.event), recommended, "", db));
    }

    method BillMilestone(bill: BillRef, status: BillStatus, db: Database)
      modifies outbox
      ensures outbox.rows == RowsAfter(old(outbox.rows), BillMoved(bill, status), db)
    {
      var milestone := CustomerMilestone(status);
      if milestone.None? { return; }
      outbox.ToCustomer(ToOne(
        bill.userId, KeyText("bill", bill.id, milestone.value.event), catalogue(milestone.value.messageKey), "", db));
    }

    method CaseMilestone(row: CaseRef, status: CaseStatus, db: Database)
      modifies outbox
      ensures outbox.rows == RowsAfter(old(outbox.rows), CaseMoved(row, status), db)
    {
      var milestone := CaseStatusMilestone(status);
      if milestone.None? || row.billId.GetOr("") == "" { return; }
      outbox.ToCustomer(ToOne(
        row.userId, KeyText("bill", row.billId.value, milestone.value.event), catalogue(milestone.value.messageKey), "", db));
    }

    method DocumentRequested(verificationId: Uuid, bill: BillRef, adminMessage: string, db: Database)
      modifies outbox
      ensures outbox.rows == RowsAfter(old(outbox.rows), Event.DocumentRequested(verificationId, bill, adminMessage), db)
    {
      outbox.ToCustomer(ToOne(
        bill.userId, KeyText("verification", verificationId, "requested"),
        catalogue(bill_verification_required), adminMessage, db));
    }
  }

  // ----- What the customer is told, status by status -----

  /** The send tells the customer this of the bill: to them alone, once per bill, in the words of the catalogue. */
  ghost predicate Tells(catalogue: Catalogue, s: Option<Send>, uid: UserId, billId: Uuid, event: string, words: MessageKey)
  {
    s.Some? && s.value.userIds == [uid] && s.value.dedupeKey == Some(KeyText("bill", billId, event))
    && s.value.dto == Input(Some(catalogue(words)), "", "", None)
  }

  /** A bill's move is told where it matters to the customer, as what it is, and nowhere else. */
  lemma BillNews(catalogue: Catalogue, bill: BillRef, status: BillStatus, db: Database)
    ensures
      var s := SendOf(catalogue, BillMoved(bill, status), db);
      && (s.Some? <==> status in {OfferSent, ContractSent, AwaitingActivation, Activated, Cancelled})
      && (status == OfferSent ==> Tells(catalogue, s, bill.userId, bill.id, "offers_available", offers_available))
      && (status == ContractSent ==> Tells(catalogue, s, bill.userId, bill.id, "contract_ready", contract_ready))
      && (status == AwaitingActivation ==>
            Tells(catalogue, s, bill.userId, bill.id, "in_activation", awaiting_activation))
      && (status == Activated ==> Tells(catalogue, s, bill.userId, bill.id, "activated", utility_activated))
      && (status == Cancelled ==> Tells(catalogue, s, bill.userId, bill.id, "cancelled", application_cancelled))
  {
    hide KeyText;
  }

  /** The same of a case, on its bill; a rejected switch is told as a cancelled one. */
  lemma CaseNews(catalogue: Catalogue, row: CaseRef, status: CaseStatus, db: Database)
    requires row.billId.Some? && row.billId.value != ""
    ensures
      var s := SendOf(catalogue, CaseMoved(row, status), db);
      var id := row.billId.value;
      && (s.Some? <==>
            status in {CaseContractSent, CaseAwaitingActivation, CaseActivated, CaseCancelled, Rejected})
      && (status == CaseContractSent ==> Tells(catalogue, s, row.userId, id, "contract_ready", contract_ready))
      && (status == CaseAwaitingActivation ==> Tells(catalogue, s, row.userId, id, "in_activation", awaiting_activation))
      && (status == CaseActivated ==> Tells(catalogue, s, row.userId, id, "activated", utility_activated))
      && (status == CaseCancelled || status == Rejected ==>
            Tells(catalogue, s, row.userId, id, "cancelled", application_cancelled))
  {
    hide KeyText;
  }

  /** A case without a bill is never news. */
  lemma NoBillNoNews(catalogue: Catalogue, row: CaseRef, status: CaseStatus, db: Database)
    requires row.billId.None? || row.billId.value == ""
    ensures SendOf(catalogue, CaseMoved(row, status), db).None?
  {
  }

  /** The three other triggers: one send each, to the bill's customer, under a key of its own. */
  lemma OtherNews(catalogue: Catalogue, bill: BillRef, recommended: Message, id: Uuid, adminMessage: string, db: Database)
    ensures Tells(catalogue, SendOf(catalogue, ApplicationSubmitted(bill), db), bill.userId, bill.id, "submitted",
              application_submitted)
    ensures SendOf(catalogue, OffersAvailable(bill, recommended), db) ==
      Some(Send(Input(Some(recommended), "", "", None), Some(KeyText("bill", bill.id, "offers_available")), [bill.userId], db))
    ensures SendOf(catalogue, DocumentRequested(id, bill, adminMessage), db) ==
      Some(Send(Input(Some(catalogue(bill_verification_required)), "", adminMessage, None),
        Some(KeyText("verification", id, "requested")), [bill.userId], db))
  {
    hide KeyText;
  }

  // ----- Whole runs of triggers -----

  /** A trigger and what the queries of its send find at that moment. */
  datatype Fired = Fired(event: Event, db: Database)

  function Sends(catalogue: Catalogue, run: seq<Fired>): seq<Send> {
    if run == [] then []
    else
      var last := run[|run| - 1];
      var s := SendOf(catalogue, last.event, last.db);
      Sends(catalogue, run[..|run| - 1]) + if s.Some? then [s.value] else []
  }

  predicate PlainWording(text: Wording) {
    !Opens(text.title) && !Opens(text.body)
  }

  predicate PlainMessage(m: Message) {
    PlainWording(m.it) && PlainWording(m.en)
  }

  /** No catalogue text carries a placeholder, and nothing an event brings along does. */
  ghost predicate PlainRun(catalogue: Catalogue, run: seq<Fired>) {
    && (forall key :: PlainMessage(catalogue(key)))
    && forall i :: 0 <= i < |run| && run[i].event.OffersAvailable? ==> PlainMessage(run[i].event.recommended)
  }

  /** The event is news of milestone `m` of this bill to this customer. */
  predicate Announces(e: Event, u: UserId, billId: Uuid, m: Milestone) {
    match e
    case OffersAvailable(bill, _) => bill.userId == u && bill.id == billId && m == OFFERS_AVAILABLE
    case BillMoved(bill, status) => bill.userId == u && bill.id == billId && CustomerMilestone(status) == Some(m)
    case CaseMoved(row, status) =>
      row.userId == u && row.billId == Some(billId) && billId != "" && CaseStatusMilestone(status) == Some(m)
    case _ => false
  }

  predicate IsMilestone(m: Milestone) {
    m == OFFERS_AVAILABLE || m == CONTRACT_READY || m == IN_ACTIVATION || m == ACTIVATED || m == CANCELLED
  }

  /** An event's key is a milestone's key exactly when the event is news of that milestone. */
  lemma KeyTellsTheMilestone(catalogue: Catalogue, e: Event, db: Database, u: UserId, billId: Uuid, m: Milestone)
    requires IsMilestone(m)
    ensures Announces(e, u, billId, m) <==>
            var s := SendOf(catalogue, e, db);
            s.Some? && s.value.userIds == [u] && s.value.dedupeKey == Some(KeyText("bill", billId, m.event))
  {
    hide KeyText;
    match e
    case ApplicationSubmitted(bill) => KeysAreInjective("bill", bill.id, "submitted", "bill", billId, m.event);
    case OffersAvailable(bill, _) => KeysAreInjective("bill", bill.id, OFFERS_AVAILABLE.event, "bill", billId, m.event);
    case BillMoved(bill, status) =>
      var n := CustomerMilestone(status);
      if n.Some? { KeysAreInjective("bill", bill.id, n.value.event, "bill", billId, m.event); }
    case CaseMoved(row, status) =>
      var n := CaseStatusMilestone(status);
      if n.Some? && row.billId.Some? { KeysAreInjective("bill", row.billId.value, n.value.event, "bill", billId, m.event); }
    case DocumentRequested(id, _, _) => KeysAreInjective("verification", id, "requested", "bill", billId, m.event);
  }

  /** A message without placeholders is never refused. */
  lemma PlainIsNotRefused(s: Send, uid: UserId)
    requires s.userIds == [uid] && s.dto.message.Some? && s.dto.body == "" && PlainMessage(s.dto.message.value)
    ensures !Refused(s)
  {
    hide Opens;
    PlainTextIsSent(s.dto, s.db, uid);
    hide UnresolvedFor;
    assert AddAll<UserId>([], [uid]) == [uid];
    NothingUnresolved(s.dto, s.db, [uid]);
  }

  predicate Happened(run: seq<Fired>, u: UserId, billId: Uuid, m: Milestone) {
    exists i :: 0 <= i < |run| && Announces(run[i].event, u, billId, m)
  }

  lemma HappenedStep(run: seq<Fired>, u: UserId, billId: Uuid, m: Milestone)
    requires run != []
    ensures Happened(run, u, billId, m) <==>
            Happened(run[..|run| - 1], u, billId, m) || Announces(run[|run| - 1].event, u, billId, m)
  {
    hide Announces;
    var front := run[..|run| - 1];
    if i :| 0 <= i < |front| && Announces(front[i].event, u, billId, m) {
      assert Announces(run[i].event, u, billId, m);
    }
    if i :| 0 <= i < |run| && Announces(run[i].event, u, billId, m) {
      assert i < |front| ==> Announces(front[i].event, u, billId, m);
    }
  }

  /** A pair is announced exactly when some send that goes out carries it. */
  lemma {:induction false} AnnouncedHas(catalogue: Catalogue, run: seq<Fired>, u: UserId, billId: Uuid, m: Milestone)
    requires IsMilestone(m) && PlainRun(catalogue, run)
    ensures (u, KeyText("bill", billId, m.event)) in Announced(Sends(catalogue, run)) <==> Happened(run, u, billId, m)
  {
    if run != [] {
      var front, last := run[..|run| - 1], run[|run| - 1];
      assert PlainRun(catalogue, front);
      LastAnnounces(catalogue, last, u, billId, m);
      hide *;
      AnnouncedHas(catalogue, front, u, billId, m);
      AnnouncedStep(catalogue, run);
      HappenedStep(run, u, billId, m);
    }
  }

  lemma AnnouncedStep(catalogue: Catalogue, run: seq<Fired>)
    requires run != []
    ensures
      var last := run[|run| - 1];
      var s := SendOf(catalogue, last.event, last.db);
      Announced(Sends(catalogue, run)) ==
      Announced(Sends(catalogue, run[..|run| - 1])) + if s.None? || Refused(s.value) then [] else Keyed(Batch(s.value))
  {
    hide SendOf, Refused, Keyed, Batch;
    var front := Sends(catalogue, run[..|run| - 1]);
    var last := run[|run| - 1];
    var s := SendOf(catalogue, last.event, last.db);
    if s.Some? {
      assert (front + [s.value])[..|front + [s.value]| - 1] == front;
    } else {
      assert front + [] == front;
      assert Announced(front) + [] == Announced(front);
    }
  }

  lemma LastAnnounces(catalogue: Catalogue, last: Fired, u: UserId, billId: Uuid, m: Milestone)
    requires IsMilestone(m)
    requires forall key :: PlainMessage(catalogue(key))
    requires last.event.OffersAvailable? ==> PlainMessage(last.event.recommended)
    ensures
      var s := SendOf(catalogue, last.event, last.db);
      Announces(last.event, u, billId, m) <==>
      s.Some? && !Refused(s.value) && (u, KeyText("bill", billId, m.event)) in Keyed(Batch(s.value))
  {
    hide Refused, PlainMessage, KeyText, Keyed;
    var s := SendOf(catalogue, last.event, last.db);
    KeyTellsTheMilestone(catalogue, last.event, last.db, u, billId, m);
    if s.Some? {
      var uid := s.value.userIds[0];
      if !last.event.DocumentRequested? { PlainIsNotRefused(s.value, uid); }
      hide Announces, SendOf, IsMilestone;
      assert Batch(s.value) == [Batch(s.value)[0]];
      KeyedOnly(Batch(s.value)[0]);
    }
  }

  /**
   * Whatever the interleaving of bill moves, case moves and offer batches, and
   * however often either column moves back and forth, a customer holds exactly
   * one notification for each milestone of a bill that happened and none for
   * the others.
   */
  lemma MilestoneIsStoredOnce(catalogue: Catalogue, run: seq<Fired>, u: UserId, billId: Uuid, m: Milestone)
    requires IsMilestone(m) && PlainRun(catalogue, run)
    ensures multiset(Keyed(After(Sends(catalogue, run))))[(u, KeyText("bill", billId, m.event))]
         == if Happened(run, u, billId, m) then 1 else 0
  {
    AnnouncedHas(catalogue, run, u, billId, m);
    AnnouncedAtMostOnce(Sends(catalogue, run), u, KeyText("bill", billId, m.event));
  }

  // ----- The admin's own words are scanned for variables too -----

  /** What the variables of a document request read from: the customer and the newest of their cases. */
  function RequestContext(db: Database, uid: UserId): Context {
    Context(LoadedUser(db, uid), CaseFor(db, [uid], None, uid))
  }

  /**
   * A request is refused, and with it silently lost, exactly when its wording holds
   * an unknown token, or a case token that comes out empty for that customer.
   */
  lemma DocumentRequestRefusedIff(catalogue: Catalogue, id: Uuid, bill: BillRef, adminMessage: string, db: Database)
    requires PlainMessage(catalogue(bill_verification_required))
    ensures Refused(SendOf(catalogue, DocumentRequested(id, bill, adminMessage), db).value) <==>
      exists k :: k in Variables(adminMessage) &&
        IsMissing(k, RequestContext(db, bill.userId), UserLanguage(db, bill.userId))
  {
    var uid := bill.userId;
    var lang := UserLanguage(db, uid);
    var s := SendOf(catalogue, DocumentRequested(id, bill, adminMessage), db).value;
    var base := BaseText(s.dto, lang);
    assert FullContext(s.dto, db, uid) == RequestContext(db, uid);
    PlainHasNoVariables(base.title);
    hide IsMissing, RequestContext, FullContext, SendUnresolved, Variables, Opens;
    assert Variables(base.body) == Variables(adminMessage) by {
      if adminMessage == "" {
        PlainHasNoVariables(base.body);
        PlainHasNoVariables("");
      }
    }
    forall k: string
      ensures k in SendUnresolved(s.dto, db, [uid]) <==>
        k in Variables(adminMessage) && IsMissing(k, RequestContext(db, uid), lang)
    {
      RefusedBecause(s.dto, db, uid, k);
    }
    if Refused(s) { assert SendUnresolved(s.dto, db, [uid])[0] in SendUnresolved(s.dto, db, [uid]); }
  }

  lemma LoneTokenIsRefused(catalogue: Catalogue, id: Uuid, bill: BillRef, key: string, db: Database, rows: seq<Row>)
    requires PlainMessage(catalogue(bill_verification_required)) && IsWord(key)
    requires IsMissing(key, RequestContext(db, bill.userId), UserLanguage(db, bill.userId))
    ensures var s := SendOf(catalogue, DocumentRequested(id, bill, Spelled("", key, "")), db).value;
      Refused(s) && Delivered(rows, s) == []
  {
    LoneToken(key);
    DocumentRequestRefusedIff(catalogue, id, bill, Spelled("", key, ""), db);
    hide *;
    assert key in [key];
  }

  /** "{{scadenza}}" names no variable. */
  lemma UnknownVariableLosesTheRequest(catalogue: Catalogue, id: Uuid, bill: BillRef, db: Database, rows: seq<Row>)
    requires PlainMessage(catalogue(bill_verification_required))
    ensures Delivered(rows, SendOf(catalogue, DocumentRequested(id, bill, "{{scadenza}}"), db).value) == []
  {
    var key := "scadenza";
    assert key[0] == 's' && key[1] == 'c' && |key| == 8;
    assert !IsKnown(key) && IsWord(key);
    assert Spelled("", key, "") == "{{scadenza}}";
    LoneTokenIsRefused(catalogue, id, bill, key, db, rows);
  }

  lemma NoCaseNoProvider(db: Database, uid: UserId)
    requires forall row :: row in db.cases ==> row.userId != uid
    ensures VariableOf("provider") == Some(Provider) && IsWord("provider")
    ensures IsMissing("provider", RequestContext(db, uid), UserLanguage(db, uid))
  {
    var key := "provider";
    assert key[0] == 'p' && |key| == 8;
    assert CaseFor(db, [uid], None, uid) == NO_CASE by {
      if db.casesReachable { NewestCaseIsRead(db, [uid], None, uid); }
    }
  }

  /** "{{provider}}" is a variable like any other, and the customer has no case yet. */
  lemma CaselessCustomerLosesTheRequest(catalogue: Catalogue, id: Uuid, bill: BillRef, db: Database, rows: seq<Row>)
    requires PlainMessage(catalogue(bill_verification_required))
    requires forall row :: row in db.cases ==> row.userId != bill.userId
    ensures AllKnown("{{provider}}")
    ensures Delivered(rows, SendOf(catalogue, DocumentRequested(id, bill, "{{provider}}"), db).value) == []
  {
    var key := "provider";
    assert Spelled("", key, "") == "{{provider}}";
    NoCaseNoProvider(db, bill.userId);
    hide *;
    LoneToken(key);
    LoneTokenIsRefused(catalogue, id, bill, key, db, rows);
    OnlyKnown("{{provider}}", key);
  }

  lemma OnlyKnown(t: string, key: string)
    requires Variables(t) == [key] && VariableOf(key).Some?
    ensures AllKnown(t)
  {
    hide Variables, VariableOf;
  }
}
