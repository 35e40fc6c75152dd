/**
 * What the calls of src/modules/auth/auth.service.ts (and adminResetPassword of
 * src/modules/users/users.service.ts) make of the accounts, the one-time codes
 * and the refresh tokens, each call as one step.
 *
 * A hash is the string it was made from, uuids are fresh numbers, and times are
 * seconds. Code rows are numbered in the order they were created.
 */
module AuthDesk {
  import opened Wrappers

  type UserId = nat

  datatype UserStatus = UserActive | UserInactive | UserSuspended | PendingVerification

  datatype OtpType = EmailVerification | PhoneVerification | PasswordReset

  const MAX_OTP_ATTEMPTS := 5
  const OTP_TTL := 10 * 60
  const OTP_COOLDOWN_SECONDS := 60
  const REFRESH_TTL := 7 * 24 * 60 * 60
  const RESET_TOKEN_PURPOSE := "password_reset"

  datatype Account = Account(password: Option<string>, status: UserStatus, emailVerified: bool, phoneVerified: bool)

  datatype Otp = Otp(userId: UserId, kind: OtpType, code: string, used: bool, attempts: nat, createdAt: int, expiresAt: int)

  datatype Refresh = Refresh(userId: UserId, expiresAt: int, revoked: bool)

  datatype Db = Db(
    byEmail: map<string, UserId>, users: map<UserId, Account>,
    otps: map<nat, Otp>, refresh: map<nat, Refresh>, nextId: nat)

  /** What `jwtService.verify` makes of a presented token. */
  datatype Jwt = Unverifiable | Payload(purpose: string, sub: Option<UserId>, otp: Option<nat>)

  datatype Error =
    | InvalidCode | TooManyAttempts | MissingEmail | PhoneNotResendable | MailUnavailable
    | Suspended | SamePassword | InvalidResetToken | InvalidRefreshToken | NotVerified
    | WrongPassword | Unauthorized | NotFound | Mismatch | SocialAccount

  datatype Reply = Done | Session(refresh: nat) | ResetToken(token: Jwt)

  /** The code row a guess was compared with, and how that went. */
  datatype Guess = NoGuess | Wrong(id: nat) | Right(id: nat)

  datatype Step = Step(db: Db, r: Result<Reply, Error>, guess: Guess)

  function Failed(db: Db, error: Error): Step {
    Step(db, Err(error), NoGuess)
  }

  function FindByEmail(db: Db, email: string): Option<UserId> {
    if email in db.byEmail && db.byEmail[email] in db.users then Some(db.byEmail[email]) else None
  }

  // ----- One-time codes -----

  predicate IsLive(otp: Otp, u: UserId, kind: OtpType, now: int) {
    otp.userId == u && otp.kind == kind && !otp.used && otp.expiresAt > now
  }

  /** The newest live code: ORDER BY created_at DESC over the rows numbered below `n`. */
  function NewestLive(otps: map<nat, Otp>, n: nat, u: UserId, kind: OtpType, now: int): Option<nat> {
    if n == 0 then None
    else if n - 1 in otps && IsLive(otps[n - 1], u, kind, now) then Some(n - 1)
    else NewestLive(otps, n - 1, u, kind, now)
  }

  function NewestSent(otps: map<nat, Otp>, n: nat, u: UserId, kind: OtpType): Option<nat> {
    if n == 0 then None
    else if n - 1 in otps && otps[n - 1].userId == u && otps[n - 1].kind == kind then Some(n - 1)
    else NewestSent(otps, n - 1, u, kind)
  }

  /** `otpCooldownRemaining(...) > 0` */
  predicate CoolingDown(db: Db, u: UserId, kind: OtpType, now: int) {
    var last := NewestSent(db.otps, db.nextId, u, kind);
    last.Some? && last.value in db.otps && now - db.otps[last.value].createdAt < OTP_COOLDOWN_SECONDS
  }

  /** UPDATE otp_codes SET used = true WHERE user, type, NOT used */
  function WithCodesUsed(otps: map<nat, Otp>, u: UserId, kind: OtpType): map<nat, Otp> {
    map id | id in otps ::
      if otps[id].userId == u && otps[id].kind == kind && !otps[id].used then otps[id].(used := true) else otps[id]
  }

  function WithoutCodes(otps: map<nat, Otp>, u: UserId, kind: OtpType): map<nat, Otp> {
    map id | id in otps && !(otps[id].userId == u && otps[id].kind == kind) :: otps[id]
  }

  predicate IsMailed(kind: OtpType) {
    kind == EmailVerification || kind == PasswordReset
  }

  /** `generateAndSaveOtp`: the row is written first, and deleted again when the mail fails. */
  function GenerateAndSaveOtp(db: Db, u: UserId, kind: OtpType, code: string, now: int, mailOk: bool): Step {
    var used := WithCodesUsed(db.otps, u, kind);
    var saved := used[db.nextId := Otp(u, kind, code, false, 0, now, now + OTP_TTL)];
    var next := db.(otps := saved, nextId := db.nextId + 1);
    if IsMailed(kind) && !mailOk then Failed(next.(otps := saved - {db.nextId}), MailUnavailable)
    else Step(next, Ok(Done), NoGuess)
  }

  /** `consumeOtp`: `Ok` exactly when the guess is right. */
  function ConsumeOtp(db: Db, u: UserId, kind: OtpType, code: string, now: int): Step {
    var live := NewestLive(db.otps, db.nextId, u, kind, now);
    if live.None? || live.value !in db.otps then Failed(db, InvalidCode)
    else
      var id := live.value;
      var otp := db.otps[id];
      if otp.attempts >= MAX_OTP_ATTEMPTS then
        Failed(db.(otps := db.otps[id := otp.(used := true)]), TooManyAttempts)
      else if code != otp.code then
        Step(db.(otps := db.otps[id := otp.(attempts := otp.attempts + 1)]), Err(InvalidCode), Wrong(id))
      else
        Step(db.(otps := db.otps[id := otp.(used := true)]), Ok(Done), Right(id))
  }

  // ----- Refresh tokens -----

  predicate IsOpen(t: Refresh, u: UserId) {
    t.userId == u && !t.revoked
  }

  function WithTokensRevoked(refresh: map<nat, Refresh>, u: UserId): map<nat, Refresh> {
    map id | id in refresh :: if IsOpen(refresh[id], u) then refresh[id].(revoked := true) else refresh[id]
  }

  function WithSession(db: Db, u: UserId, now: int): Db {
    db.(refresh := db.refresh[db.nextId := Refresh(u, now + REFRESH_TTL, false)], nextId := db.nextId + 1)
  }

  /** `generateTokens` */
  function GenerateTokens(db: Db, u: UserId, now: int): (Db, Result<Reply, Error>) {
    (WithSession(db, u, now), Ok(Session(db.nextId)))
  }

  // ----- The calls -----

  function ForgotPassword(db: Db, email: string, code: string, now: int, mailOk: bool): Step {
    var found := FindByEmail(db, email);
    if found.None? || db.users[found.value].status == UserSuspended then Step(db, Ok(Done), NoGuess)
    else if CoolingDown(db, found.value, PasswordReset, now) then Step(db, Ok(Done), NoGuess)
    else GenerateAndSaveOtp(db, found.value, PasswordReset, code, now, mailOk)
  }

  function ResendOtp(db: Db, email: string, kind: OtpType, code: string, now: int, mailOk: bool): Step {
    if kind == PhoneVerification then Failed(db, PhoneNotResendable)
    else if email == "" then Failed(db, MissingEmail)
    else
      var found := FindByEmail(db, email);
      if found.None? || db.users[found.value].status == UserSuspended then Step(db, Ok(Done), NoGuess)
      else if kind == EmailVerification && db.users[found.value].status != PendingVerification then
        Step(db, Ok(Done), NoGuess)
      else if CoolingDown(db, found.value, kind, now) then Step(db, Ok(Done), NoGuess)
      else GenerateAndSaveOtp(db, found.value, kind, code, now, mailOk)
  }

  function VerifyOtp(db: Db, email: string, kind: OtpType, code: string, now: int): Step {
    if email == "" then Failed(db, MissingEmail)
    else
      var found := FindByEmail(db, email);
      if found.None? || db.users[found.value].status == UserSuspended then Failed(db, InvalidCode)
      else
        var u := found.value;
        var s := ConsumeOtp(db, u, kind, code, now);
        if !s.guess.Right? then s
        else
          var account := db.users[u];
          match kind
          case EmailVerification =>
            var status := if account.status == PendingVerification then UserActive else account.status;
            var verified := s.db.(users := s.db.users[u := account.(emailVerified := true, status := status)]);
            var (next, r) := GenerateTokens(verified, u, now);
            Step(next, r, s.guess)
          case PhoneVerification =>
            Step(s.db.(users := s.db.users[u := account.(phoneVerified := true)]), Ok(Done), s.guess)
          case PasswordReset =>
            Step(s.db, Ok(ResetToken(Payload(RESET_TOKEN_PURPOSE, Some(u), Some(s.guess.id)))), s.guess)
  }

  /** `userFromResetToken` */
  function UserFromResetToken(db: Db, token: Jwt): Option<UserId> {
    if token.Unverifiable? || token.purpose != RESET_TOKEN_PURPOSE || token.sub.None? || token.otp.None? then None
    else
      var (u, id) := (token.sub.value, token.otp.value);
      if id !in db.otps then None
      else
        var otp := db.otps[id];
        if otp.userId == u && otp.kind == PasswordReset && otp.used && u in db.users then Some(u) else None
  }

  /** The rest of `resetPassword`, once either path has named the account. */
  function SetNewPassword(db: Db, u: UserId, newPassword: string): (Db, Result<Reply, Error>)
    requires u in db.users
  {
    var account := db.users[u];
    if account.status == UserSuspended then (db, Err(Suspended))
    else if account.password == Some(newPassword) then (db, Err(SamePassword))
    else
      var status := if account.status == PendingVerification then UserActive else account.status;
      (db.(users := db.users[u := account.(password := Some(newPassword), emailVerified := true, status := status)],
           otps := WithoutCodes(db.otps, u, PasswordReset),
           refresh := WithTokensRevoked(db.refresh, u)),
       Ok(Done))
  }

  function ResetByToken(db: Db, token: Jwt, newPassword: string): Step {
    var found := UserFromResetToken(db, token);
    if found.None? then Failed(db, InvalidResetToken)
    else
      var (next, r) := SetNewPassword(db, found.value, newPassword);
      Step(next, r, NoGuess)
  }

  function ResetByCode(db: Db, email: string, code: string, newPassword: string, now: int): Step {
    if email == "" || code == "" then Failed(db, MissingEmail)
    else
      var found := FindByEmail(db, email);
      if found.None? || db.users[found.value].status == UserSuspended then Failed(db, InvalidCode)
      else
        var s := ConsumeOtp(db, found.value, PasswordReset, code, now);
        if !s.guess.Right? then s
        else
          var (next, r) := SetNewPassword(s.db, found.value, newPassword);
          Step(next, r, s.guess)
  }

  /** `validateUser` and then `login`; a pending account is sent a code and turned away. */
  function Login(db: Db, email: string, password: string, code: string, now: int, mailOk: bool): Step {
    var found := FindByEmail(db, email);
    if found.None? || db.users[found.value].password != Some(password) then Failed(db, Unauthorized)
    else
      var u := found.value;
      if db.users[u].status == PendingVerification then
        var sent := if CoolingDown(db, u, EmailVerification, now) then db
                    else GenerateAndSaveOtp(db, u, EmailVerification, code, now, mailOk).db;
        Failed(sent, NotVerified)
      else if db.users[u].status == UserSuspended then Failed(db, Suspended)
      else
        var (next, r) := GenerateTokens(db, u, now);
        Step(next, r, NoGuess)
  }

  /** `refreshToken`: a new token is written and the presented one revoked, in one transaction. */
  function RefreshToken(db: Db, token: nat, now: int): Step {
    if token !in db.refresh || db.refresh[token].revoked || db.refresh[token].expiresAt <= now then
      Failed(db, InvalidRefreshToken)
    else
      var (next, r) := GenerateTokens(db, db.refresh[token].userId, now);
      Step(next.(refresh := next.refresh[token := db.refresh[token].(revoked := true)]), r, NoGuess)
  }

  function Logout(db: Db, token: nat): Step {
    if token in db.refresh && !db.refresh[token].revoked then
      Step(db.(refresh := db.refresh[token := db.refresh[token].(revoked := true)]), Ok(Done), NoGuess)
    else Step(db, Ok(Done), NoGuess)
  }

  function ChangePassword(db: Db, u: UserId, current: string, newPassword: string, confirm: string, now: int): Step {
    if newPassword != confirm then Failed(db, Mismatch)
    else if u !in db.users then Failed(db, NotFound)
    else
      var account := db.users[u];
      if account.password.None? then Failed(db, SocialAccount)
      else if account.password.value != current then Failed(db, WrongPassword)
      else if account.password.value == newPassword then Failed(db, SamePassword)
      else
        var changed := db.(users := db.users[u := account.(password := Some(newPassword))],
                           refresh := WithTokensRevoked(db.refresh, u));
        var (next, r) := GenerateTokens(changed, u, now);
        Step(next, r, NoGuess)
  }

  function AdminResetPassword(db: Db, u: UserId, newPassword: string): Step {
    if u !in db.users then Failed(db, NotFound)
    else
      Step(db.(users := db.users[u := db.users[u].(password := Some(newPassword))],
               refresh := WithTokensRevoked(db.refresh, u),
               otps := WithCodesUsed(db.otps, u, PasswordReset)),
           Ok(Done), NoGuess)
  }

  // ----- Any call -----

  datatype Call =
    | CallForgotPassword(email: string, code: string, mailOk: bool)
    | CallResendOtp(email: string, kind: OtpType, code: string, mailOk: bool)
    | CallVerifyOtp(email: string, kind: OtpType, code: string)
    | CallResetByToken(token: Jwt, newPassword: string)
    | CallResetByCode(email: string, code: string, newPassword: string)
    | CallLogin(email: string, password: string, code: string, mailOk: bool)
    | CallRefreshToken(refresh: nat)
    | CallLogout(refresh: nat)
    | CallChangePassword(user: UserId, current: string, newPassword: string, confirm: string)
    | CallAdminResetPassword(user: UserId, newPassword: string)

  function Perform(db: Db, call: Call, now: int): Step {
    match call
    case CallForgotPassword(email, code, mailOk) => ForgotPassword(db, email, code, now, mailOk)
    case CallResendOtp(email, kind, code, mailOk) => ResendOtp(db, email, kind, code, now, mailOk)
    case CallVerifyOtp(email, kind, code) => VerifyOtp(db, email, kind, code, now)
    case CallResetByToken(token, newPassword) => ResetByToken(db, token, newPassword)
    case CallResetByCode(email, code, newPassword) => ResetByCode(db, email, code, newPassword, now)
    case CallLogin(email, password, code, mailOk) => Login(db, email, password, code, now, mailOk)
    case CallRefreshToken(token) => RefreshToken(db, token, now)
    case CallLogout(token) => Logout(db, token)
    case CallChangePassword(u, current, newPassword, confirm) => ChangePassword(db, u, current, newPassword, confirm, now)
    case CallAdminResetPassword(u, newPassword) => AdminResetPassword(db, u, newPassword)
  }
}
