/** What every call makes of the accounts, and what a password serves for afterwards. */
module AuthAccounts {
  import opened Wrappers
  import opened AuthDesk
  import opened AuthInvariants

  // ----- Signing in -----

  /** An address, its password, and an account that is neither pending nor suspended. */
  lemma SignsInIff(db: Db, email: string, password: string, code: string, now: int, mailOk: bool)
    ensures Login(db, email, password, code, now, mailOk).r.Ok? <==>
      && email in db.byEmail && db.byEmail[email] in db.users
      && var account := db.users[db.byEmail[email]];
         account.password == Some(password) && account.status in {UserActive, UserInactive}
  {
    hide CoolingDown, GenerateAndSaveOtp;
  }

  /** A sign-in opens one session, good for seven days and no longer. */
  lemma SessionLastsAWeek(db: Db, email: string, password: string, code: string, now: int, mailOk: bool, later: int)
    requires Numbered(db)
    requires Login(db, email, password, code, now, mailOk).r.Ok?
    ensures
      var s := Login(db, email, password, code, now, mailOk);
      && s.r == Ok(Session(db.nextId))
      && (RefreshToken(s.db, db.nextId, later).r.Ok? <==> later < now + 604_800)
  {
    hide CoolingDown, GenerateAndSaveOtp;
  }

  // ----- What each call does to an account -----

  /** The call goes through and gives `u` this password. */
  predicate GivesPassword(db: Db, call: Call, now: int, u: UserId, password: string) {
    && Perform(db, call, now).r.Ok?
    && match call
       case CallResetByToken(token, newPassword) => token.Payload? && token.sub == Some(u) && password == newPassword
       case CallResetByCode(email, _, newPassword) =>
         email in db.byEmail && db.byEmail[email] == u && password == newPassword
       case CallChangePassword(user, _, newPassword, _) => user == u && password == newPassword
       case CallAdminResetPassword(user, newPassword) => user == u && password == newPassword
       case _ => false
  }

  /** The call goes through and shows that `u` reads their mail. */
  predicate ProvesEmail(db: Db, call: Call, now: int, u: UserId) {
    && Perform(db, call, now).r.Ok?
    && match call
       case CallVerifyOtp(email, kind, _) =>
         kind == EmailVerification && email in db.byEmail && db.byEmail[email] == u
       case CallResetByToken(token, _) => token.Payload? && token.sub == Some(u)
       case CallResetByCode(email, _, _) => email in db.byEmail && db.byEmail[email] == u
       case _ => false
  }

  predicate ProvesPhone(db: Db, call: Call, now: int, u: UserId) {
    && Perform(db, call, now).r.Ok? && call.CallVerifyOtp? && call.kind == PhoneVerification
    && call.email in db.byEmail && db.byEmail[call.email] == u
  }

  /** Column by column: an account changes by what a call gives it or proves of it, and by nothing else. */
  predicate AccountFollows(db: Db, call: Call, now: int, u: UserId)
    requires u in db.users && u in Perform(db, call, now).db.users
  {
    var before, after := db.users[u], Perform(db, call, now).db.users[u];
    && (if call.CallResetByToken? || call.CallResetByCode? || call.CallChangePassword? || call.CallAdminResetPassword?
        then after.password ==
          (if GivesPassword(db, call, now, u, call.newPassword) then Some(call.newPassword) else before.password)
        else after.password == before.password)
    && after.emailVerified == (before.emailVerified || ProvesEmail(db, call, now, u))
    && after.phoneVerified == (before.phoneVerified || ProvesPhone(db, call, now, u))
    && after.status ==
         (if before.status == PendingVerification && ProvesEmail(db, call, now, u) then UserActive else before.status)
  }

  lemma ConsumingLeavesAccounts(db: Db, u: UserId, kind: OtpType, code: string, now: int)
    ensures var s := ConsumeOtp(db, u, kind, code, now);
      s.db.users == db.users && s.db.byEmail == db.byEmail && (s.r.Ok? <==> s.guess.Right?)
  {
    hide NewestLive;
  }

  lemma GeneratingLeavesAccounts(db: Db, u: UserId, kind: OtpType, code: string, now: int, mailOk: bool)
    ensures var s := GenerateAndSaveOtp(db, u, kind, code, now, mailOk);
      s.db.users == db.users && s.db.byEmail == db.byEmail
  {
    hide WithCodesUsed;
  }

  lemma SendingLeavesAccounts(db: Db, call: Call, now: int)
    requires call.CallForgotPassword? || call.CallResendOtp? || call.CallLogin?
    ensures Perform(db, call, now).db.users == db.users && Perform(db, call, now).db.byEmail == db.byEmail
  {
    var found := FindByEmail(db, call.email);
    hide CoolingDown;
    if found.Some? {
      match call
      case CallForgotPassword(_, code, mailOk) =>
        GeneratingLeavesAccounts(db, found.value, PasswordReset, code, now, mailOk);
      case CallResendOtp(_, kind, code, mailOk) =>
        GeneratingLeavesAccounts(db, found.value, kind, code, now, mailOk);
      case CallLogin(_, _, code, mailOk) =>
        GeneratingLeavesAccounts(db, found.value, EmailVerification, code, now, mailOk);
    }
    hide GenerateAndSaveOtp;
  }

  lemma VerifyingMovesAccounts(db: Db, call: Call, now: int, u: UserId)
    requires call.CallVerifyOtp? && u in db.users
    ensures Perform(db, call, now).db.users.Keys == db.users.Keys && Perform(db, call, now).db.byEmail == db.byEmail
    ensures AccountFollows(db, call, now, u)
  {
    var found := FindByEmail(db, call.email);
    if found.Some? { ConsumingLeavesAccounts(db, found.value, call.kind, call.code, now); }
    hide ConsumeOtp;
  }

  lemma ResettingMovesAccounts(db: Db, call: Call, now: int, u: UserId)
    requires (call.CallResetByToken? || call.CallResetByCode?) && u in db.users
    ensures Perform(db, call, now).db.users.Keys == db.users.Keys && Perform(db, call, now).db.byEmail == db.byEmail
    ensures AccountFollows(db, call, now, u)
  {
    if call.CallResetByCode? {
      var found := FindByEmail(db, call.email);
      if found.Some? { ConsumingLeavesAccounts(db, found.value, PasswordReset, call.code, now); }
    }
    hide ConsumeOtp, WithoutCodes, WithTokensRevoked;
  }

  /** For every call and every account; no call adds or drops one. */
  lemma StepMovesAccounts(db: Db, call: Call, now: int, u: UserId)
    requires u in db.users
    ensures Perform(db, call, now).db.users.Keys == db.users.Keys && Perform(db, call, now).db.byEmail == db.byEmail
    ensures AccountFollows(db, call, now, u)
  {
    if call.CallForgotPassword? || call.CallResendOtp? || call.CallLogin? {
      SendingLeavesAccounts(db, call, now);
      hide Perform;
    } else if call.CallVerifyOtp? {
      VerifyingMovesAccounts(db, call, now, u);
    } else if call.CallResetByToken? || call.CallResetByCode? {
      ResettingMovesAccounts(db, call, now, u);
    } else {
      hide WithTokensRevoked, WithCodesUsed;
    }
  }

  // ----- A password once it is changed -----

  /** A change goes through exactly for who knows the password and names another, the same twice. */
  lemma ChangesPasswordIff(db: Db, u: UserId, current: string, newPassword: string, confirm: string, now: int)
    ensures ChangePassword(db, u, current, newPassword, confirm, now).r.Ok? <==>
      newPassword == confirm && u in db.users && db.users[u].password == Some(current) && current != newPassword
  {
  }

  /**
   * After an accepted change, or an admin's reset, an account that may sign in does so
   * with the new password and no other, and the old one no longer serves to change it.
   */
  lemma NewPasswordSignsIn(db: Db, call: Call, now: int, email: string, password: string, code: string, later: int,
      mailOk: bool)
    requires call.CallChangePassword? || call.CallAdminResetPassword?
    requires Perform(db, call, now).r.Ok? && email in db.byEmail && db.byEmail[email] == call.user
    ensures
      var after := Perform(db, call, now).db;
      && (Login(after, email, password, code, later, mailOk).r.Ok? <==>
            password == call.newPassword && db.users[call.user].status in {UserActive, UserInactive})
      && (forall other, next :: other != call.newPassword ==>
            ChangePassword(after, call.user, other, next, next, later).r == Err(WrongPassword))
  {
    assert call.user in db.users;
    StepMovesAccounts(db, call, now, call.user);
    SignsInIff(Perform(db, call, now).db, email, password, code, later, mailOk);
    hide Perform, Login;
  }

  /** Nobody else's sign-in is affected. */
  lemma OthersSignInAsBefore(db: Db, call: Call, now: int, email: string, password: string, code: string, later: int,
      mailOk: bool)
    requires call.CallChangePassword? || call.CallAdminResetPassword?
    requires email in db.byEmail && db.byEmail[email] != call.user
    ensures Login(Perform(db, call, now).db, email, password, code, later, mailOk).r.Ok? <==>
      Login(db, email, password, code, later, mailOk).r.Ok?
  {
    var u := db.byEmail[email];
    SignsInIff(db, email, password, code, later, mailOk);
    SignsInIff(Perform(db, call, now).db, email, password, code, later, mailOk);
    if u in db.users { StepMovesAccounts(db, call, now, u); }
    hide Login, WithTokensRevoked, WithCodesUsed;
  }

  /** An account changes its password: the new one signs in, the old one does not. */
  lemma ChangedOnce(db: Db, now: int, later: int)
    requires db.byEmail == map["a@b.it" := 0]
    requires db.users == map[0 := Account(Some("old"), UserActive, true, false)]
    ensures
      var s := ChangePassword(db, 0, "old", "new1", "new1", now);
      && s.r == Ok(Session(db.nextId))
      && Login(s.db, "a@b.it", "new1", "", later, true).r.Ok?
      && Login(s.db, "a@b.it", "old", "", later, true).r == Err(Unauthorized)
  {
    assert |"old"| != |"new1"|;
    hide WithTokensRevoked;
  }

  // ----- When a code is sent -----

  /** Only a code that goes by mail can fail to go out, and one that fails is not kept. */
  lemma CodeGoesOut(db: Db, u: UserId, kind: OtpType, code: string, now: int, mailOk: bool)
    requires Numbered(db)
    ensures
      var s := GenerateAndSaveOtp(db, u, kind, code, now, mailOk);
      && (s.r == Ok(Done) <==> mailOk || kind == PhoneVerification)
      && (s.r == Ok(Done) || s.r == Err(MailUnavailable))
      && (db.nextId in s.db.otps <==> s.r.Ok?)
  {
    hide WithCodesUsed;
  }

  /** Whom a call would send a code to, and of which kind. */
  predicate WritesTo(db: Db, call: Call, u: UserId, kind: OtpType)
    requires u in db.users
  {
    match call
    case CallForgotPassword(_, _, _) => kind == PasswordReset && db.users[u].status != UserSuspended
    case CallResendOtp(email, asked, _, _) =>
      && kind == asked && email != ""
      && ((kind == EmailVerification && db.users[u].status == PendingVerification)
          || (kind == PasswordReset && db.users[u].status != UserSuspended))
    case CallLogin(_, password, _, _) =>
      kind == EmailVerification && db.users[u].status == PendingVerification && db.users[u].password == Some(password)
    case _ => false
  }

  /**
   * A call leaves a new code exactly when it would write to the account of its
   * address, none was sent there within the minute, and the mail goes out. To
   * every other address a request for a code is answered alike.
   */
  lemma CodeIsSentIff(db: Db, call: Call, now: int)
    requires Numbered(db) && (call.CallForgotPassword? || call.CallResendOtp? || call.CallLogin?)
    ensures
      var s := Perform(db, call, now);
      var u := if call.email in db.byEmail then db.byEmail[call.email] else 0;
      && (db.nextId in s.db.otps <==>
            && call.mailOk && call.email in db.byEmail && u in db.users
            && exists kind :: WritesTo(db, call, u, kind) && !CoolingDown(db, u, kind, now))
      && (call.CallForgotPassword? && call.mailOk ==> s.r == Ok(Done))
      && (call.CallForgotPassword? && (call.email !in db.byEmail || u !in db.users) ==> s.r == Ok(Done))
      && (call.CallResendOtp? && call.kind != PhoneVerification && call.email != "" && call.mailOk ==> s.r == Ok(Done))
  {
    var found := FindByEmail(db, call.email);
    hide CoolingDown;
    if found.Some? {
      CodeGoesOut(db, found.value, EmailVerification, call.code, now, call.mailOk);
      CodeGoesOut(db, found.value, PasswordReset, call.code, now, call.mailOk);
      assert call.CallForgotPassword? ==>
          (WritesTo(db, call, found.value, PasswordReset) <==> db.users[found.value].status != UserSuspended);
      assert call.CallResendOtp? && call.kind == PhoneVerification ==>
          !WritesTo(db, call, found.value, PhoneVerification);
    }
    hide GenerateAndSaveOtp;
  }

  // ----- The wait between two codes -----

  /** A code that is mailed keeps the next one back for sixty seconds, and no longer. */
  lemma CooldownLastsAMinute(db: Db, u: UserId, kind: OtpType, code: string, now: int, later: int)
    requires Numbered(db)
    ensures CoolingDown(GenerateAndSaveOtp(db, u, kind, code, now, true).db, u, kind, later) <==> later < now + 60
  {
    hide WithCodesUsed;
  }
}
