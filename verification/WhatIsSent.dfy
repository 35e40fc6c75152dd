/**
 * What a customer reads in a notification, said from the rows the send looks
 * up: whose words, in which language, with whose case in them.
 * src/modules/notifications/notifications.service.ts.
 */
module WhatIsSent {
  import opened Wrappers
  import opened Text
  import opened Placeholders
  import opened RecipientText
  import opened VariableValues

  // ----- Which rows are read -----

  /** A live case of the customer, and the one the send names if it names one. */
  predicate CouldBeRead(row: CaseRow, uid: UserId, caseId: Option<nat>) {
    !row.deleted && row.userId == uid && (caseId.Some? ==> row.id == caseId.value)
  }

  /** Every other case that could be read is older. */
  predicate NewestCase(db: Database, uid: UserId, caseId: Option<nat>, row: CaseRow) {
    && db.casesReachable && row in db.cases && CouldBeRead(row, uid, caseId)
    && forall other :: other in db.cases && CouldBeRead(other, uid, caseId) && other != row ==>
         other.createdAt < row.createdAt
  }

  /** The columns of the customer's newest case are the ones its variables read. */
  lemma NewestCaseIsShown(dto: Input, db: Database, uid: UserId, row: CaseRow)
    requires NewestCase(db, uid, dto.caseId, row)
    ensures
      var about := FullContext(dto, db, uid).about;
      about.provider == row.provider && about.offerName == row.offerName && about.utilityType == row.utilityType
  {
    NewestCaseIsRead(db, [uid], dto.caseId, uid);
    var read := FirstOf(Query(db, [uid], dto.caseId), uid);
    assert Selected(row, [uid], dto.caseId);
    assert read.Some? ==> CouldBeRead(read.value, uid, dto.caseId);
    hide Query, FirstOf;
  }

  /** With no case to read, or when they cannot be read, every case variable is without a value. */
  lemma NoCaseIsShown(dto: Input, db: Database, uid: UserId)
    requires !db.casesReachable || forall row :: row in db.cases ==> !CouldBeRead(row, uid, dto.caseId)
    ensures
      var about := FullContext(dto, db, uid).about;
      about.provider.None? && about.offerName.None? && about.utilityType.None?
  {
    if db.casesReachable {
      NewestCaseIsRead(db, [uid], dto.caseId, uid);
      var read := FirstOf(Query(db, [uid], dto.caseId), uid);
      assert read.Some? ==> CouldBeRead(read.value, uid, dto.caseId);
      hide Query, FirstOf;
    }
  }

  lemma AccountIsShown(dto: Input, db: Database, uid: UserId)
    ensures db.usersReachable && uid in db.users ==> FullContext(dto, db, uid).user == Some(db.users[uid])
    ensures !db.usersReachable || uid !in db.users ==> FullContext(dto, db, uid).user == None
  {
    hide CaseFor;
  }

  // ----- Whose words -----

  /** The caller's words, or the translated ones in the customer's language; a body of the caller's own goes before. */
  lemma PlainWordsAreSent(dto: Input, db: Database, uid: UserId)
    ensures dto.message.None? && '{' !in dto.title && '{' !in dto.body ==>
      TextOf(dto, db, uid) == Wording(dto.title, dto.body)
    ensures dto.message.Some? ==>
      var own := if uid in db.english then dto.message.value.en else dto.message.value.it;
      && ('{' !in own.title ==> TextOf(dto, db, uid).title == own.title)
      && (dto.body != "" && '{' !in dto.body ==> TextOf(dto, db, uid).body == dto.body)
      && (dto.body == "" && '{' !in own.body ==> TextOf(dto, db, uid).body == own.body)
  {
    var lang := UserLanguage(db, uid);
    var base := BaseText(dto, lang);
    var ctx := FullContext(dto, db, uid);
    BracelessStays(base.title, ctx, lang);
    BracelessStays(base.body, ctx, lang);
    hide FullContext, RenderedText;
  }

  lemma BracelessStays(t: string, ctx: Context, locale: Lang)
    ensures '{' !in t ==> RenderedText(t, ctx, locale) == t
  {
    if '{' !in t {
      assert !Opens(t);
      NothingToRender(t, ctx, locale);
    }
  }

  // ----- A variable in the text -----

  /** One variable among plain words: the words stand and the value stands between them. */
  lemma ValueStandsBetween(a: string, key: string, t: string, ctx: Context, locale: Lang)
    requires '{' !in a && '{' !in t && IsWord(key)
    ensures RenderedText(a + Spelled("", key, "") + t, ctx, locale) == a + ValueOf(key, ctx, locale) + t
  {
    assert Space.Covers("");
    hide *;
    VariableIsReplaced(a, "", key, "", t, ctx, locale);
    LoneValue(key, ctx, locale);
    BracelessStays(t, ctx, locale);
  }

  lemma BodyIsFilled(dto: Input, db: Database, uid: UserId, a: string, key: string, t: string)
    requires dto.message.None? && '{' !in a && '{' !in t && IsWord(key)
    ensures dto.body == a + Spelled("", key, "") + t ==>
      TextOf(dto, db, uid).body == a + ValueOf(key, FullContext(dto, db, uid), UserLanguage(db, uid)) + t
  {
    hide FullContext, IsWord, ValueOf, RenderedText, Spelled, UserLanguage;
    ValueStandsBetween(a, key, t, FullContext(dto, db, uid), UserLanguage(db, uid));
  }

  /** The word for the utility, in the customer's language. */
  function UtilityWord(value: BillType, english: bool): string {
    if value == Gas then "Gas" else if english then "Electricity" else "Luce"
  }

  lemma UtilityIs(ctx: Context, lang: Lang)
    ensures ctx.about.utilityType.Some? ==>
      ValueOf("utility_type", ctx, lang) == UtilityWord(ctx.about.utilityType.value, lang == En)
  {
    CaseValues(ctx, lang);
    hide ValueOf;
  }

  /** The supplier, the offer and the utility of the newest case, in the places the text gives them. */
  lemma SupplierIsNamedInTheBody(dto: Input, db: Database, uid: UserId, row: CaseRow, a: string, t: string)
    requires NewestCase(db, uid, dto.caseId, row) && row.provider.Some?
    requires dto.message.None? && '{' !in a && '{' !in t && dto.body == a + Spelled("", "provider", "") + t
    ensures TextOf(dto, db, uid).body == a + Trim(row.provider.value) + t
  {
    hide *;
    Words();
    NewestCaseIsShown(dto, db, uid, row);
    CaseValues(FullContext(dto, db, uid), UserLanguage(db, uid));
    BodyIsFilled(dto, db, uid, a, "provider", t);
  }

  lemma OfferIsNamedInTheBody(dto: Input, db: Database, uid: UserId, row: CaseRow, a: string, t: string)
    requires NewestCase(db, uid, dto.caseId, row) && row.offerName.Some?
    requires dto.message.None? && '{' !in a && '{' !in t && dto.body == a + Spelled("", "offer_name", "") + t
    ensures TextOf(dto, db, uid).body == a + Trim(row.offerName.value) + t
  {
    hide *;
    Words();
    NewestCaseIsShown(dto, db, uid, row);
    CaseValues(FullContext(dto, db, uid), UserLanguage(db, uid));
    BodyIsFilled(dto, db, uid, a, "offer_name", t);
  }

  lemma UtilityIsNamedInTheBody(dto: Input, db: Database, uid: UserId, row: CaseRow, a: string, t: string)
    requires NewestCase(db, uid, dto.caseId, row) && row.utilityType.Some?
    requires dto.message.None? && '{' !in a && '{' !in t && dto.body == a + Spelled("", "utility_type", "") + t
    ensures TextOf(dto, db, uid).body == a + UtilityWord(row.utilityType.value, uid in db.english) + t
  {
    assert (UserLanguage(db, uid) == En) == (uid in db.english);
    hide *;
    Words();
    NewestCaseIsShown(dto, db, uid, row);
    UtilityIs(FullContext(dto, db, uid), UserLanguage(db, uid));
    BodyIsFilled(dto, db, uid, a, "utility_type", t);
  }

  /** The names and the address of the recipient's own account. */
  lemma RecipientIsNamedInTheBody(dto: Input, db: Database, uid: UserId, a: string, t: string)
    requires db.usersReachable && uid in db.users
    requires dto.message.None? && '{' !in a && '{' !in t
    ensures
      var user := db.users[uid];
      var f := if user.firstName.Some? then Trim(user.firstName.value) else "";
      var l := if user.lastName.Some? then Trim(user.lastName.value) else "";
      && (dto.body == a + Spelled("", "email", "") + t ==> TextOf(dto, db, uid).body == a + user.email + t)
      && (dto.body == a + Spelled("", "lastName", "") + t ==> TextOf(dto, db, uid).body == a + l + t)
      && (dto.body == a + Spelled("", "firstName", "") + t ==>
            TextOf(dto, db, uid).body == a + (if f != "" then f else if l != "" then l else user.email) + t)
  {
    AccountIsShown(dto, db, uid);
    var ctx := FullContext(dto, db, uid);
    var lang := UserLanguage(db, uid);
    Words();
    hide FullContext, IsWord, ValueOf, TextOf, Spelled, Trim;
    AccountValues(db.users[uid], ctx.about, lang);
    BodyIsFilled(dto, db, uid, a, "email", t);
    BodyIsFilled(dto, db, uid, a, "lastName", t);
    BodyIsFilled(dto, db, uid, a, "firstName", t);
  }
}
