/**
 * The texts a notification is sent with: `resolveTextPerUser`, `buildRenderContext`
 * and `loadCaseContexts` of src/modules/notifications/notifications.service.ts, and
 * `preview` of notification-templates.service.ts.
 */
module RecipientText {
  import opened Wrappers
  import opened Text
  import opened Placeholders
  import opened InsertionOrder
  import opened Sorting

  type UserId = nat

  datatype Wording = Wording(title: string, body: string)

  /** A row of `switch_cases` with the offer, supplier and bill columns the query joins to it. */
  datatype CaseRow = CaseRow(
    id: nat, userId: UserId, createdAt: int, deleted: bool,
    provider: Option<string>, offerName: Option<string>, utilityType: Option<BillType>)

  /** What the queries of one send read. A failing query is logged and read as empty. */
  datatype Database = Database(
    english: set<UserId>,
    users: map<UserId, User>, usersReachable: bool,
    cases: seq<CaseRow>, casesReachable: bool)

  /** What `getNotificationText` makes of the message key and its parameters in each language. */
  datatype Message = Message(it: Wording, en: Wording)

  datatype Input = Input(message: Option<Message>, title: string, body: string, caseId: Option<nat>)

  // ----- The lookups -----

  function UserLanguage(db: Database, uid: UserId): Lang {
    if uid in db.english then En else It
  }

  function LoadedUser(db: Database, uid: UserId): Option<User> {
    if db.usersReachable && uid in db.users then Some(db.users[uid]) else None
  }

  predicate NewerOrEqual(a: CaseRow, b: CaseRow) {
    a.createdAt >= b.createdAt
  }

  /** `ORDER BY created_at DESC` */
  function NewestFirst(): (CaseRow, CaseRow) -> bool {
    (a: CaseRow, b: CaseRow) => NewerOrEqual(a, b)
  }

  /** The `WHERE` clause: one named case, or every case of the recipients. */
  predicate Selected(row: CaseRow, userIds: seq<UserId>, caseId: Option<nat>) {
    !row.deleted && if caseId.Some? then row.id == caseId.value else row.userId in userIds
  }

  function Selecting(userIds: seq<UserId>, caseId: Option<nat>): CaseRow -> bool {
    (row: CaseRow) => Selected(row, userIds, caseId)
  }

  function Query(db: Database, userIds: seq<UserId>, caseId: Option<nat>): seq<CaseRow> {
    StableSort(Filter(db.cases, Selecting(userIds, caseId)), NewestFirst())
  }

  function ContextOf(row: CaseRow): CaseContext {
    CaseContext(Some(row.id), row.provider, row.offerName, row.utilityType)
  }

  /** The first row of the list that belongs to `uid`. */
  function FirstOf(rows: seq<CaseRow>, uid: UserId): Option<CaseRow> {
    if rows == [] then None
    else if rows[0].userId == uid then Some(rows[0])
    else FirstOf(rows[1..], uid)
  }

  /** The case one customer's variables read from. */
  function CaseFor(db: Database, userIds: seq<UserId>, caseId: Option<nat>, uid: UserId): CaseContext {
    var row := if db.casesReachable then FirstOf(Query(db, userIds, caseId), uid) else None;
    if row.Some? then ContextOf(row.value) else NO_CASE
  }

  lemma {:induction false} FirstOfIs(rows: seq<CaseRow>, uid: UserId)
    ensures FirstOf(rows, uid).None? ==> forall row :: row in rows ==> row.userId != uid
    ensures FirstOf(rows, uid).Some? ==>
              exists i :: 0 <= i < |rows| && rows[i] == FirstOf(rows, uid).value && rows[i].userId == uid
                          && forall j :: 0 <= j < i ==> rows[j].userId != uid
  {
    if rows != [] && rows[0].userId != uid {
      FirstOfIs(rows[1..], uid);
      var rest := FirstOf(rows[1..], uid);
      if rest.Some? {
        var i :| 0 <= i < |rows[1..]| && rows[1..][i] == rest.value && rows[1..][i].userId == uid
                 && forall j :: 0 <= j < i ==> rows[1..][j].userId != uid;
        assert rows[i + 1] == rest.value;
        forall j | 0 <= j < i + 1 ensures rows[j].userId != uid {
          assert j > 0 ==> rows[j] == rows[1..][j - 1];
        }
      } else {
        forall row | row in rows ensures row.userId != uid {
          assert row == rows[0] || row in rows[1..];
        }
      }
    }
  }

  lemma QueryIs(db: Database, userIds: seq<UserId>, caseId: Option<nat>)
    ensures Sorted(Query(db, userIds, caseId), NewestFirst())
    ensures forall row :: row in Query(db, userIds, caseId) <==> row in db.cases && Selected(row, userIds, caseId)
  {
    hide Selected;
    SortSorts(Filter(db.cases, Selecting(userIds, caseId)), NewestFirst());
  }

  /** The case read is the customer's newest live one (or, when one is named, that one if it is theirs). */
  lemma NewestCaseIsRead(db: Database, userIds: seq<UserId>, caseId: Option<nat>, uid: UserId)
    requires db.casesReachable
    ensures FirstOf(Query(db, userIds, caseId), uid).None? <==>
            forall row :: row in db.cases && Selected(row, userIds, caseId) ==> row.userId != uid
    ensures FirstOf(Query(db, userIds, caseId), uid).Some? ==>
              var newest := FirstOf(Query(db, userIds, caseId), uid).value;
              && newest in db.cases && Selected(newest, userIds, caseId) && newest.userId == uid
              && forall row :: row in db.cases && Selected(row, userIds, caseId) && row.userId == uid ==>
                  row.createdAt <= newest.createdAt
  {
    hide Query, Selected, FirstOf;
    var rows := Query(db, userIds, caseId);
    QueryIs(db, userIds, caseId);
    FirstOfIs(rows, uid);
    var first := FirstOf(rows, uid);
    if first.Some? {
      var i :| 0 <= i < |rows| && rows[i] == first.value && rows[i].userId == uid
               && forall j :: 0 <= j < i ==> rows[j].userId != uid;
      forall row | row in db.cases && Selected(row, userIds, caseId) && row.userId == uid
        ensures row.createdAt <= first.value.createdAt
      {
        assert row in rows;
        var k :| 0 <= k < |rows| && rows[k] == row;
        assert i < k ==> NewestFirst()(rows[i], rows[k]);
      }
    }
  }

  /** A send about a case reads it for its owner and for nobody else. */
  lemma NamedCaseIsKeyedByOwner(db: Database, userIds: seq<UserId>, caseId: nat, uid: UserId)
    requires forall row :: row in db.cases && row.id == caseId ==> row.userId != uid
    ensures CaseFor(db, userIds, Some(caseId), uid) == NO_CASE
  {
    if db.casesReachable { NewestCaseIsRead(db, userIds, Some(caseId), uid); }
  }

  /** `loadCaseContexts`: one query for the whole batch, read newest first. */
  method LoadCaseContexts(db: Database, userIds: seq<UserId>, caseId: Option<nat>)
    returns (byUser: map<UserId, CaseContext>)
    ensures forall uid :: (if uid in byUser then byUser[uid] else NO_CASE) == CaseFor(db, userIds, caseId, uid)
  {
    byUser := map[];
    if db.casesReachable {
      var rows := Query(db, userIds, caseId);
      for i := 0 to |rows|
        invariant forall uid ::
          (if uid in byUser then byUser[uid] else NO_CASE)
          == if FirstOf(rows[..i], uid).Some? then ContextOf(FirstOf(rows[..i], uid).value) else NO_CASE
        invariant forall uid :: uid in byUser <==> FirstOf(rows[..i], uid).Some?
      {
        assert rows[..i + 1] == rows[..i] + [rows[i]];
        forall uid ensures FirstOf(rows[..i + 1], uid) == FirstOf(rows[..i] + [rows[i]], uid) {
        }
        FirstOfAppends(rows[..i], rows[i]);
        if rows[i].userId !in byUser {
          byUser := byUser[rows[i].userId := ContextOf(rows[i])];
        }
      }
      assert rows[..|rows|] == rows;
    }
  }

  lemma FirstOfAppends(rows: seq<CaseRow>, row: CaseRow)
    ensures forall uid :: FirstOf(rows + [row], uid) ==
                          if FirstOf(rows, uid).Some? then FirstOf(rows, uid)
                          else if row.userId == uid then Some(row) else None
  {
    forall uid ensures FirstOf(rows + [row], uid) ==
                       if FirstOf(rows, uid).Some? then FirstOf(rows, uid)
                       else if row.userId == uid then Some(row) else None
    {
      FirstOfAppended(rows, row, uid);
    }
  }

  lemma {:induction false} FirstOfAppended(rows: seq<CaseRow>, row: CaseRow, uid: UserId)
    ensures FirstOf(rows + [row], uid) ==
            if FirstOf(rows, uid).Some? then FirstOf(rows, uid)
            else if row.userId == uid then Some(row) else None
  {
    if rows == [] {
      assert rows + [row] == [row];
    } else {
      assert (rows + [row])[1..] == rows[1..] + [row];
      FirstOfAppended(rows[1..], row, uid);
    }
  }

  // ----- One customer's case does not depend on who else is being written to -----

  function OwnedBy(uid: UserId): CaseRow -> bool {
    (row: CaseRow) => row.userId == uid
  }

  lemma {:induction false} FirstOfOwned(rows: seq<CaseRow>, uid: UserId)
    ensures FirstOf(rows, uid) == FirstOf(Filter(rows, OwnedBy(uid)), uid)
  {
    if rows != [] {
      var front, last := rows[..|rows| - 1], rows[|rows| - 1];
      FirstOfOwned(front, uid);
      FirstOfAppended(front, last, uid);
      FirstOfAppended(Filter(front, OwnedBy(uid)), last, uid);
      assert rows == front + [last];
    }
  }

  lemma {:induction false} OwnRowsSelected(rows: seq<CaseRow>, userIds: seq<UserId>, caseId: Option<nat>, uid: UserId)
    requires uid in userIds
    ensures Filter(Filter(rows, Selecting(userIds, caseId)), OwnedBy(uid))
         == Filter(Filter(rows, Selecting([uid], caseId)), OwnedBy(uid))
  {
    if rows != [] {
      var front, last := rows[..|rows| - 1], rows[|rows| - 1];
      OwnRowsSelected(front, userIds, caseId, uid);
      FilterConcat(Filter(front, Selecting(userIds, caseId)), [last], OwnedBy(uid));
      FilterConcat(Filter(front, Selecting([uid], caseId)), [last], OwnedBy(uid));
      FilterOne(last, OwnedBy(uid));
    }
  }

  lemma CaseForIsPerCustomer(db: Database, userIds: seq<UserId>, caseId: Option<nat>, uid: UserId)
    requires uid in userIds
    ensures CaseFor(db, userIds, caseId, uid) == CaseFor(db, [uid], caseId, uid)
  {
    var many := Filter(db.cases, Selecting(userIds, caseId));
    var one := Filter(db.cases, Selecting([uid], caseId));
    assert TotalPreorder(NewestFirst());
    hide StableSort, Filter, FirstOf, NewestFirst;
    SortThenFilter(many, NewestFirst(), OwnedBy(uid));
    SortThenFilter(one, NewestFirst(), OwnedBy(uid));
    OwnRowsSelected(db.cases, userIds, caseId, uid);
    FirstOfOwned(Query(db, userIds, caseId), uid);
    FirstOfOwned(Query(db, [uid], caseId), uid);
  }

  // ----- Loading everything for everybody -----

  /** The text before substitution: the translated message, or the caller's own words. */
  function BaseText(dto: Input, lang: Lang): Wording {
    match dto.message
    case None => Wording(dto.title, dto.body)
    case Some(m) =>
      var own := if lang == En then m.en else m.it;
      Wording(own.title, OrElse(dto.body, own.body))
  }

  function FullContext(dto: Input, db: Database, uid: UserId): Context {
    Context(LoadedUser(db, uid), CaseFor(db, [uid], dto.caseId, uid))
  }

  /** What one customer reads when language, user and case are all looked up for them. */
  function TextOf(dto: Input, db: Database, uid: UserId): Wording {
    var lang := UserLanguage(db, uid);
    var base := BaseText(dto, lang);
    var ctx := FullContext(dto, db, uid);
    Wording(RenderedText(base.title, ctx, lang), RenderedText(base.body, ctx, lang))
  }

  function UnresolvedFor(dto: Input, db: Database, uid: UserId): seq<string> {
    var lang := UserLanguage(db, uid);
    var base := BaseText(dto, lang);
    Unresolved(base.title, FullContext(dto, db, uid), lang) + Unresolved(base.body, FullContext(dto, db, uid), lang)
  }

  function UnresolvedOf(dto: Input, db: Database, uids: seq<UserId>): seq<string> {
    if uids == [] then [] else UnresolvedOf(dto, db, uids[..|uids| - 1]) + UnresolvedFor(dto, db, uids[|uids| - 1])
  }

  lemma {:induction false} UnresolvedOfIs(dto: Input, db: Database, uids: seq<UserId>, k: string)
    ensures k in UnresolvedOf(dto, db, uids) <==> exists uid :: uid in uids && k in UnresolvedFor(dto, db, uid)
  {
    hide UnresolvedFor;
    if uids != [] {
      UnresolvedOfIs(dto, db, uids[..|uids| - 1], k);
      assert uids == uids[..|uids| - 1] + [uids[|uids| - 1]];
      assert uids[|uids| - 1] in uids;
    }
  }

  lemma UnresolvedStep(dto: Input, db: Database, uids: seq<UserId>, i: nat, title: seq<string>, body: seq<string>)
    requires i < |uids| && UnresolvedFor(dto, db, uids[i]) == title + body
    ensures AddAll([], UnresolvedOf(dto, db, uids[..i + 1]))
         == AddAll(AddAll(AddAll([], UnresolvedOf(dto, db, uids[..i])), title), body)
  {
    hide UnresolvedFor, AddAll;
    var before := UnresolvedOf(dto, db, uids[..i]);
    assert uids[..i + 1][..i] == uids[..i];
    assert UnresolvedOf(dto, db, uids[..i + 1]) == before + (title + body);
    AddAllConcat([], before, title + body);
    AddAllConcat(AddAll([], before), title, body);
  }

  lemma {:induction false} NothingUnresolved(dto: Input, db: Database, uids: seq<UserId>)
    requires forall uid :: uid in uids ==> UnresolvedFor(dto, db, uid) == []
    ensures UnresolvedOf(dto, db, uids) == []
  {
    hide UnresolvedFor;
    if uids != [] {
      assert uids[|uids| - 1] in uids;
      NothingUnresolved(dto, db, uids[..|uids| - 1]);
    }
  }

  // ----- The fast paths -----

  function Lookup<T>(m: map<UserId, T>, uid: UserId, default: T): T {
    if uid in m then m[uid] else default
  }

  method Languages(db: Database, userIds: seq<UserId>) returns (langFor: map<UserId, Lang>)
    ensures forall uid :: uid in langFor <==> uid in userIds
    ensures forall uid :: uid in langFor ==> langFor[uid] == UserLanguage(db, uid)
  {
    langFor := map[];
    for i := 0 to |userIds|
      invariant forall uid :: uid in langFor <==> uid in userIds[..i]
      invariant forall uid :: uid in langFor ==> langFor[uid] == UserLanguage(db, uid)
    {
      langFor := langFor[userIds[i] := UserLanguage(db, userIds[i])];
      assert userIds[..i + 1] == userIds[..i] + [userIds[i]];
    }
    assert userIds[..|userIds|] == userIds;
  }

  method StartingTexts(dto: Input, userIds: seq<UserId>, langFor: map<UserId, Lang>)
    returns (resolved: map<UserId, Wording>)
    ensures forall uid :: uid in resolved <==> uid in userIds
    ensures forall uid :: uid in resolved ==> resolved[uid] == BaseText(dto, Lookup(langFor, uid, It))
  {
    hide BaseText;
    resolved := map[];
    for i := 0 to |userIds|
      invariant forall uid :: uid in resolved <==> uid in userIds[..i]
      invariant forall uid :: uid in resolved ==> resolved[uid] == BaseText(dto, Lookup(langFor, uid, It))
    {
      var uid := userIds[i];
      resolved := resolved[uid := BaseText(dto, Lookup(langFor, uid, It))];
      assert userIds[..i + 1] == userIds[..i] + [uid];
    }
    assert userIds[..|userIds|] == userIds;
  }

  method LoadPlaceholderUsers(db: Database, userIds: seq<UserId>) returns (users: map<UserId, User>)
    ensures forall uid :: uid in userIds ==> (if uid in users then Some(users[uid]) else None) == LoadedUser(db, uid)
  {
    users := if db.usersReachable then map uid | uid in db.users && uid in userIds :: db.users[uid] else map[];
  }

  predicate HasPlaceholder(text: Wording) {
    Opens(text.title) || Opens(text.body)
  }

  predicate NeedsCase(text: Wording) {
    UsesCaseScopedVariables(text.title) || UsesCaseScopedVariables(text.body)
  }

  /** Skipping every lookup is right for a text without placeholders. */
  lemma PlainTextIsSent(dto: Input, db: Database, uid: UserId)
    requires !HasPlaceholder(BaseText(dto, UserLanguage(db, uid)))
    ensures TextOf(dto, db, uid) == BaseText(dto, UserLanguage(db, uid))
    ensures UnresolvedFor(dto, db, uid) == []
  {
    var lang := UserLanguage(db, uid);
    var base := BaseText(dto, lang);
    NothingToRender(base.title, FullContext(dto, db, uid), lang);
    NothingToRender(base.body, FullContext(dto, db, uid), lang);
  }

  /** Skipping the case join is right for a text without case variables. */
  lemma CaselessTextIsSent(dto: Input, db: Database, uid: UserId, about: CaseContext)
    requires NeedsCase(BaseText(dto, UserLanguage(db, uid))) ==> about == CaseFor(db, [uid], dto.caseId, uid)
    ensures
      var lang := UserLanguage(db, uid);
      var base := BaseText(dto, lang);
      var ctx := Context(LoadedUser(db, uid), about);
      && TextOf(dto, db, uid) == Wording(RenderedText(base.title, ctx, lang), RenderedText(base.body, ctx, lang))
      && UnresolvedFor(dto, db, uid) == Unresolved(base.title, ctx, lang) + Unresolved(base.body, ctx, lang)
  {
    var lang := UserLanguage(db, uid);
    var base := BaseText(dto, lang);
    hide BaseText, CaseFor, RenderedText, Unresolved, UsesCaseScopedVariables;
    if !NeedsCase(base) {
      CaseDoesNotMatter(base.title, LoadedUser(db, uid), about, CaseFor(db, [uid], dto.caseId, uid), lang);
      CaseDoesNotMatter(base.body, LoadedUser(db, uid), about, CaseFor(db, [uid], dto.caseId, uid), lang);
    }
  }

  /** What the lookups, made or skipped, amount to for one recipient. */
  predicate Prepared(
    dto: Input, db: Database, uid: UserId, text: Wording, lang: Lang, user: Option<User>, about: CaseContext)
  {
    && lang == UserLanguage(db, uid)
    && text == BaseText(dto, lang)
    && user == LoadedUser(db, uid)
    && (NeedsCase(text) ==> about == CaseFor(db, [uid], dto.caseId, uid))
  }

  lemma PreparedTextIsSent(
    dto: Input, db: Database, uid: UserId, text: Wording, lang: Lang, user: Option<User>, about: CaseContext)
    requires Prepared(dto, db, uid, text, lang, user, about)
    ensures
      var ctx := Context(user, about);
      && TextOf(dto, db, uid) == Wording(RenderedText(text.title, ctx, lang), RenderedText(text.body, ctx, lang))
      && UnresolvedFor(dto, db, uid) == Unresolved(text.title, ctx, lang) + Unresolved(text.body, ctx, lang)
  {
    CaselessTextIsSent(dto, db, uid, about);
  }

  lemma NotYet<T>(order: seq<T>, i: nat)
    requires i < |order| && Distinct(order)
    ensures order[i] in order && order[i] !in order[..i]
    ensures order[..i + 1] == order[..i] + [order[i]]
  {
  }

  function Found<T>(m: map<UserId, T>, uid: UserId): Option<T> {
    if uid in m then Some(m[uid]) else None
  }

  /** The substitution loop, over the recipients in the order their texts were first set. */
  method SubstituteAll(dto: Input, db: Database, resolved: map<UserId, Wording>, order: seq<UserId>,
                       langFor: map<UserId, Lang>, users: map<UserId, User>, cases: map<UserId, CaseContext>)
    returns (texts: map<UserId, Wording>, unresolved: seq<string>)
    requires Distinct(order) && forall uid :: uid in resolved <==> uid in order
    requires forall uid :: uid in order ==>
      Prepared(dto, db, uid, resolved[uid], Lookup(langFor, uid, It), Found(users, uid), Lookup(cases, uid, NO_CASE))
    ensures forall uid :: uid in texts <==> uid in order
    ensures forall uid :: uid in order ==> texts[uid] == TextOf(dto, db, uid)
    ensures unresolved == AddAll([], UnresolvedOf(dto, db, order))
  {
    assert order[..0] == [] && UnresolvedOf(dto, db, []) == [] && AddAll<string>([], []) == [];
    hide TextOf, UnresolvedFor, UnresolvedOf, BaseText, UserLanguage, LoadedUser, CaseFor, NeedsCase, RenderedText,
      Unresolved, AddAll;
    texts, unresolved := resolved, [];
    for i := 0 to |order|
      invariant forall uid :: uid in texts <==> uid in order
      invariant forall uid :: uid in order[..i] ==> texts[uid] == TextOf(dto, db, uid)
      invariant forall uid :: uid in order && uid !in order[..i] ==> texts[uid] == resolved[uid]
      invariant unresolved == AddAll([], UnresolvedOf(dto, db, order[..i]))
    {
      var uid := order[i];
      NotYet(order, i);
      var about, locale := Lookup(cases, uid, NO_CASE), Lookup(langFor, uid, It);
      var ctx := Context(Found(users, uid), about);
      PreparedTextIsSent(dto, db, uid, texts[uid], locale, ctx.user, about);
      var title, missingTitle := RenderTemplateText(texts[uid].title, ctx, locale);
      var body, missingBody := RenderTemplateText(texts[uid].body, ctx, locale);
      UnresolvedStep(dto, db, order, i, missingTitle, missingBody);
      unresolved := AddAll(AddAll(unresolved, missingTitle), missingBody);
      texts := texts[uid := Wording(title, body)];
    }
    assert order[..|order|] == order;
  }

  /** Skipping the users and the cases is right when no text has a placeholder. */
  lemma PlainTextsAreSent(dto: Input, db: Database, userIds: seq<UserId>, resolved: map<UserId, Wording>)
    requires forall uid :: uid in userIds ==>
      uid in resolved && resolved[uid] == BaseText(dto, UserLanguage(db, uid)) && !HasPlaceholder(resolved[uid])
    ensures forall uid :: uid in userIds ==> TextOf(dto, db, uid) == resolved[uid]
    ensures SendUnresolved(dto, db, userIds) == []
  {
    hide TextOf, UnresolvedFor, BaseText, UserLanguage, HasPlaceholder;
    forall uid | uid in userIds ensures TextOf(dto, db, uid) == resolved[uid] && UnresolvedFor(dto, db, uid) == [] {
      PlainTextIsSent(dto, db, uid);
    }
    NothingUnresolved(dto, db, AddAll([], userIds));
  }

  /** Skipping the language is right when nothing reads it. */
  lemma LanguageIsReadWhereItMatters(dto: Input, db: Database, uid: UserId, read: bool)
    requires !read ==> dto.message.None? && !HasPlaceholder(Wording(dto.title, dto.body))
    ensures
      var lang := if read then UserLanguage(db, uid) else It;
      && BaseText(dto, lang) == BaseText(dto, UserLanguage(db, uid))
      && (HasPlaceholder(BaseText(dto, lang)) ==> read)
  {
  }

  /**
   * `resolveTextPerUser`. Every recipient gets the text they would get if their
   * language, account and case had all been loaded, and the same variables are
   * reported, in the same order.
   */
  method ResolveTextPerUser(dto: Input, userIds: seq<UserId>, db: Database)
    returns (texts: map<UserId, Wording>, unresolved: seq<string>)
    ensures forall uid :: uid in texts <==> uid in userIds
    ensures forall uid :: uid in userIds ==> texts[uid] == TextOf(dto, db, uid)
    ensures unresolved == SendUnresolved(dto, db, userIds)
  {
    var needsLanguage := dto.message.Some? || HasPlaceholder(Wording(dto.title, dto.body));
    forall uid
      ensures
        var lang := if needsLanguage then UserLanguage(db, uid) else It;
        && BaseText(dto, lang) == BaseText(dto, UserLanguage(db, uid))
        && (HasPlaceholder(BaseText(dto, lang)) ==> needsLanguage)
    {
      LanguageIsReadWhereItMatters(dto, db, uid, needsLanguage);
    }
    hide TextOf, UnresolvedFor, UnresolvedOf, CaseFor, NeedsCase, HasPlaceholder, BaseText, UserLanguage, LoadedUser;
    var langFor: map<UserId, Lang> := map[];
    if needsLanguage { langFor := Languages(db, userIds); }

    var resolved := StartingTexts(dto, userIds, langFor);
    assert forall uid :: uid in userIds ==> resolved[uid] == BaseText(dto, UserLanguage(db, uid));

    if forall uid :: uid in resolved ==> !HasPlaceholder(resolved[uid]) {
      PlainTextsAreSent(dto, db, userIds, resolved);
      return resolved, [];
    }
    assert needsLanguage;

    var users := LoadPlaceholderUsers(db, userIds);
    var cases: map<UserId, CaseContext> := map[];
    if exists uid :: uid in resolved && NeedsCase(resolved[uid]) {
      cases := LoadCaseContexts(db, userIds, dto.caseId);
    }
    forall uid | uid in userIds
      ensures Prepared(dto, db, uid, resolved[uid], Lookup(langFor, uid, It), Found(users, uid), Lookup(cases, uid, NO_CASE))
    {
      CaseForIsPerCustomer(db, userIds, dto.caseId, uid);
    }
    assert SendUnresolved(dto, db, userIds) == AddAll([], UnresolvedOf(dto, db, AddAll([], userIds)));
    hide *;
    // The map is walked in the order its keys were first set.
    var order := AddAll([], userIds);
    NothingRepeats<UserId>();
    AddAllDistinct([], userIds);
    texts, unresolved := SubstituteAll(dto, db, resolved, order, langFor, users, cases);
  }

  // ----- Preview against send -----

  /** What a send of `dto` to `userIds` is refused for; it goes out when there is nothing. */
  function SendUnresolved(dto: Input, db: Database, userIds: seq<UserId>): seq<string> {
    AddAll([], UnresolvedOf(dto, db, AddAll([], userIds)))
  }

  /** A send to many is refused exactly when a send to one of them would be. */
  lemma BatchIsRefusedForOne(dto: Input, db: Database, userIds: seq<UserId>)
    ensures SendUnresolved(dto, db, userIds) != [] <==>
            exists uid :: uid in userIds && SendUnresolved(dto, db, [uid]) != []
  {
    hide AddAll, UnresolvedOf, UnresolvedFor;
    forall uid: UserId | uid in userIds
      ensures SendUnresolved(dto, db, [uid]) != [] ==> SendUnresolved(dto, db, userIds) != []
    {
      if SendUnresolved(dto, db, [uid]) != [] {
        var k := SendUnresolved(dto, db, [uid])[0];
        SendUnresolvedIs(dto, db, [uid], k);
        SendUnresolvedIs(dto, db, userIds, k);
      }
    }
    if SendUnresolved(dto, db, userIds) != [] {
      var k := SendUnresolved(dto, db, userIds)[0];
      SendUnresolvedIs(dto, db, userIds, k);
      var uid :| uid in userIds && k in UnresolvedFor(dto, db, uid);
      SendUnresolvedIs(dto, db, [uid], k);
    }
  }

  lemma SendUnresolvedIs(dto: Input, db: Database, userIds: seq<UserId>, k: string)
    ensures k in SendUnresolved(dto, db, userIds) <==> exists uid :: uid in userIds && k in UnresolvedFor(dto, db, uid)
  {
    hide UnresolvedFor;
    UnresolvedOfIs(dto, db, AddAll([], userIds), k);
  }

  /** Exactly why a send to one customer is refused. */
  lemma RefusedBecause(dto: Input, db: Database, uid: UserId, k: string)
    ensures
      var lang := UserLanguage(db, uid);
      var base := BaseText(dto, lang);
      k in SendUnresolved(dto, db, [uid]) <==>
      (k in Variables(base.title) || k in Variables(base.body)) && IsMissing(k, FullContext(dto, db, uid), lang)
  {
    hide BaseText, FullContext, IsMissing, Unresolved, Variables;
    var lang := UserLanguage(db, uid);
    var base := BaseText(dto, lang);
    SendUnresolvedIs(dto, db, [uid], k);
    UnresolvedIs(base.title, FullContext(dto, db, uid), lang, k);
    UnresolvedIs(base.body, FullContext(dto, db, uid), lang, k);
  }

  datatype PreviewError = CustomerNotFound

  datatype PreviewResult = PreviewResult(text: Wording, unresolved: seq<string>)

  /** `buildRenderContext`: the same lookups, for one customer, all of them made. */
  method BuildRenderContext(db: Database, uid: UserId, caseId: Option<nat>)
    returns (r: Result<(Context, Lang), PreviewError>)
    ensures r.Err? <==> LoadedUser(db, uid).None?
    ensures r.Ok? ==> r.value == (Context(LoadedUser(db, uid), CaseFor(db, [uid], caseId, uid)), UserLanguage(db, uid))
  {
    hide CaseFor;
    var users := LoadPlaceholderUsers(db, [uid]);
    var cases := LoadCaseContexts(db, [uid], caseId);
    if uid !in users { return Err(CustomerNotFound); }
    return Ok((Context(Some(users[uid]), if uid in cases then cases[uid] else NO_CASE), UserLanguage(db, uid)));
  }

  /**
   * `preview` of a hand-written message: it shows the customer exactly the text a
   * send would store, and names exactly the variables a send would be refused for.
   */
  method Preview(title: string, body: string, uid: UserId, caseId: Option<nat>, db: Database)
    returns (r: Result<PreviewResult, PreviewError>)
    ensures r.Err? <==> LoadedUser(db, uid).None?
    ensures r.Ok? ==> r.value.text == TextOf(Input(None, title, body, caseId), db, uid)
    ensures r.Ok? ==> r.value.unresolved == SendUnresolved(Input(None, title, body, caseId), db, [uid])
  {
    hide RenderedText, Unresolved, CaseFor, LoadedUser, UserLanguage;
    var built := BuildRenderContext(db, uid, caseId);
    if built.Err? { return Err(built.error); }
    var (ctx, locale) := built.value;
    var renderedTitle, missingTitle := RenderTemplateText(title, ctx, locale);
    var renderedBody, missingBody := RenderTemplateText(body, ctx, locale);
    ghost var dto := Input(None, title, body, caseId);
    assert [uid][..0] == [] && [uid][..1] == [uid] && AddAll([], [uid]) == [uid];
    assert UnresolvedFor(dto, db, uid) == missingTitle + missingBody;
    UnresolvedStep(dto, db, [uid], 0, missingTitle, missingBody);
    AddAllConcat([], missingTitle, missingBody);
    return Ok(PreviewResult(Wording(renderedTitle, renderedBody), AddAll([], missingTitle + missingBody)));
  }
}
