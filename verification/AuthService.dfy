/**
 * The calls of AuthDesk as they are carried out: checks in the order of the
 * source, then updates of the rows in place.
 */
module AuthService {
  import opened Wrappers
  import opened AuthDesk
  import AuthSessions

  class Service {
    var byEmail: map<string, UserId>
    var users: map<UserId, Account>
    var otps: map<nat, Otp>
    var refresh: map<nat, Refresh>
    var nextId: nat

    constructor ()
      ensures Tables() == Db(map[], map[], map[], map[], 0)
    {
      byEmail, users, otps, refresh, nextId := map[], map[], map[], map[], 0;
    }

    ghost function Tables(): Db
      reads this
    {
      Db(byEmail, users, otps, refresh, nextId)
    }

    /** The tables and the answer are those of the step. */
    ghost predicate Did(r: Result<Reply, Error>, step: Step)
      reads this
    {
      Tables() == step.db && r == step.r
    }

    method FindUser(email: string) returns (found: Option<UserId>)
      ensures found == FindByEmail(Tables(), email)
    {
      if email !in byEmail || byEmail[email] !in users { return None; }
      return Some(byEmail[email]);
    }

    // ----- One-time codes -----

    method OtpCooldownRemaining(u: UserId, kind: OtpType, now: int) returns (cooling: bool)
      ensures cooling == CoolingDown(Tables(), u, kind, now)
    {
      var n: nat := nextId;
      while n > 0
        invariant n <= nextId
        invariant NewestSent(otps, n, u, kind) == NewestSent(otps, nextId, u, kind)
      {
        if n - 1 in otps && otps[n - 1].userId == u && otps[n - 1].kind == kind {
          return now - otps[n - 1].createdAt < OTP_COOLDOWN_SECONDS;
        }
        n := n - 1;
      }
      return false;
    }

    method FindLiveOtp(u: UserId, kind: OtpType, now: int) returns (live: Option<nat>)
      ensures live == NewestLive(otps, nextId, u, kind, now)
      ensures live.Some? ==> live.value in otps
    {
      hide IsLive;
      var n: nat := nextId;
      while n > 0
        invariant n <= nextId
        invariant NewestLive(otps, n, u, kind, now) == NewestLive(otps, nextId, u, kind, now)
      {
        if n - 1 in otps && IsLive(otps[n - 1], u, kind, now) { return Some(n - 1); }
        n := n - 1;
      }
      return None;
    }

    method GenerateAndSaveOtp(u: UserId, kind: OtpType, code: string, now: int, mailOk: bool)
      returns (r: Result<Reply, Error>)
      modifies this
      ensures Did(r, AuthDesk.GenerateAndSaveOtp(old(Tables()), u, kind, code, now, mailOk))
    {
      hide WithCodesUsed;
      otps := WithCodesUsed(otps, u, kind);
      var id := nextId;
      nextId := nextId + 1;
      otps := otps[id := Otp(u, kind, code, false, 0, now, now + OTP_TTL)];
      if IsMailed(kind) && !mailOk {
        otps := otps - {id};
        return Err(MailUnavailable);
      }
      return Ok(Done);
    }

    method ConsumeOtp(u: UserId, kind: OtpType, code: string, now: int) returns (r: Result<nat, Error>)
      modifies this
      ensures
        var step := AuthDesk.ConsumeOtp(old(Tables()), u, kind, code, now);
        && Tables() == step.db
        && (r.Ok? <==> step.guess.Right?)
        && (r.Ok? ==> step.guess == Right(r.value))
        && (r.Err? ==> step.r == Err(r.error))
    {
      hide NewestLive;
      var live := FindLiveOtp(u, kind, now);
      if live.None? { return Err(InvalidCode); }
      var id := live.value;
      var otp := otps[id];
      if otp.attempts >= MAX_OTP_ATTEMPTS {
        otps := otps[id := otp.(used := true)];
        return Err(TooManyAttempts);
      }
      if code != otp.code {
        otps := otps[id := otp.(attempts := otp.attempts + 1)];
        return Err(InvalidCode);
      }
      otps := otps[id := otp.(used := true)];
      return Ok(id);
    }

    // ----- Refresh tokens -----

    method GenerateTokens(u: UserId, now: int) returns (r: Result<Reply, Error>)
      modifies this
      ensures (Tables(), r) == AuthDesk.GenerateTokens(old(Tables()), u, now)
    {
      var token := nextId;
      nextId := nextId + 1;
      refresh := refresh[token := Refresh(u, now + REFRESH_TTL, false)];
      return Ok(Session(token));
    }

    method RefreshToken(token: nat, now: int) returns (r: Result<Reply, Error>)
      modifies this
      ensures Did(r, AuthDesk.RefreshToken(old(Tables()), token, now))
    {
      if token !in refresh || refresh[token].revoked || refresh[token].expiresAt <= now { return Err(InvalidRefreshToken); }
      var existing := refresh[token];
      r := GenerateTokens(existing.userId, now);
      refresh := refresh[token := existing.(revoked := true)];
    }

    method Logout(token: nat) returns (r: Result<Reply, Error>)
      modifies this
      ensures Did(r, AuthDesk.Logout(old(Tables()), token))
    {
      if token in refresh && !refresh[token].revoked {
        refresh := refresh[token := refresh[token].(revoked := true)];
      }
      return Ok(Done);
    }

    // ----- Accounts -----

    method ForgotPassword(email: string, code: string, now: int, mailOk: bool) returns (r: Result<Reply, Error>)
      modifies this
      ensures Did(r, AuthDesk.ForgotPassword(old(Tables()), email, code, now, mailOk))
    {
      hide AuthDesk.GenerateAndSaveOtp, CoolingDown;
      var found := FindUser(email);
      if found.None? || users[found.value].status == UserSuspended { return Ok(Done); }
      var cooling := OtpCooldownRemaining(found.value, PasswordReset, now);
      if cooling { return Ok(Done); }
      r := GenerateAndSaveOtp(found.value, PasswordReset, code, now, mailOk);
    }

    method ResendOtp(email: string, kind: OtpType, code: string, now: int, mailOk: bool)
      returns (r: Result<Reply, Error>)
      modifies this
      ensures Did(r, AuthDesk.ResendOtp(old(Tables()), email, kind, code, now, mailOk))
    {
      hide AuthDesk.GenerateAndSaveOtp, CoolingDown;
      if kind == PhoneVerification { return Err(PhoneNotResendable); }
      if email == "" { return Err(MissingEmail); }
      var found := FindUser(email);
      if found.None? || users[found.value].status == UserSuspended { return Ok(Done); }
      if kind == EmailVerification && users[found.value].status != PendingVerification { return Ok(Done); }
      var cooling := OtpCooldownRemaining(found.value, kind, now);
      if cooling { return Ok(Done); }
      r := GenerateAndSaveOtp(found.value, kind, code, now, mailOk);
    }

    method VerifyOtp(email: string, kind: OtpType, code: string, now: int) returns (r: Result<Reply, Error>)
      modifies this
      ensures Did(r, AuthDesk.VerifyOtp(old(Tables()), email, kind, code, now))
    {
      hide AuthDesk.ConsumeOtp;
      if email == "" { return Err(MissingEmail); }
      var found := FindUser(email);
      if found.None? || users[found.value].status == UserSuspended { return Err(InvalidCode); }
      var u := found.value;
      var account := users[u];
      AuthSessions.ConsumeKeepsRefresh(Tables(), u, kind, code, now);
      var consumed := ConsumeOtp(u, kind, code, now);
      if consumed.Err? { return Err(consumed.error); }
      match kind {
        case EmailVerification =>
          var status := if account.status == PendingVerification then UserActive else account.status;
          users := users[u := account.(emailVerified := true, status := status)];
          r := GenerateTokens(u, now);
        case PhoneVerification =>
          users := users[u := account.(phoneVerified := true)];
          r := Ok(Done);
        case PasswordReset =>
          r := Ok(ResetToken(Payload(RESET_TOKEN_PURPOSE, Some(u), Some(consumed.value))));
      }
    }

    method UserFromResetToken(token: Jwt) returns (found: Option<UserId>)
      ensures found == AuthDesk.UserFromResetToken(Tables(), token)
    {
      if token.Unverifiable? || token.purpose != RESET_TOKEN_PURPOSE || token.sub.None? || token.otp.None? { return None; }
      if token.otp.value !in otps { return None; }
      var otp := otps[token.otp.value];
      if otp.userId != token.sub.value || otp.kind != PasswordReset || !otp.used { return None; }
      if token.sub.value !in users { return None; }
      return token.sub;
    }

    /** The rest of `resetPassword`: the new hash, no reset codes left, no session left. */
    method SetNewPassword(u: UserId, newPassword: string) returns (r: Result<Reply, Error>)
      requires u in users
      modifies this
      ensures (Tables(), r) == AuthDesk.SetNewPassword(old(Tables()), u, newPassword)
    {
      hide WithTokensRevoked, WithoutCodes;
      var account := users[u];
      if account.status == UserSuspended { return Err(Suspended); }
      if account.password == Some(newPassword) { return Err(SamePassword); }
      var status := if account.status == PendingVerification then UserActive else account.status;
      users := users[u := account.(password := Some(newPassword), emailVerified := true, status := status)];
      otps := WithoutCodes(otps, u, PasswordReset);
      refresh := WithTokensRevoked(refresh, u);
      return Ok(Done);
    }

    method ResetByToken(token: Jwt, newPassword: string) returns (r: Result<Reply, Error>)
      modifies this
      ensures Did(r, AuthDesk.ResetByToken(old(Tables()), token, newPassword))
    {
      hide AuthDesk.SetNewPassword;
      var found := UserFromResetToken(token);
      if found.None? { return Err(InvalidResetToken); }
      r := SetNewPassword(found.value, newPassword);
    }

    method ResetByCode(email: string, code: string, newPassword: string, now: int) returns (r: Result<Reply, Error>)
      modifies this
      ensures Did(r, AuthDesk.ResetByCode(old(Tables()), email, code, newPassword, now))
    {
      hide AuthDesk.ConsumeOtp, AuthDesk.SetNewPassword;
      if email == "" || code == "" { return Err(MissingEmail); }
      var found := FindUser(email);
      if found.None? || users[found.value].status == UserSuspended { return Err(InvalidCode); }
      AuthSessions.ConsumeKeepsRefresh(Tables(), found.value, PasswordReset, code, now);
      var consumed := ConsumeOtp(found.value, PasswordReset, code, now);
      if consumed.Err? { return Err(consumed.error); }
      r := SetNewPassword(found.value, newPassword);
    }

    method Login(email: string, password: string, code: string, now: int, mailOk: bool)
      returns (r: Result<Reply, Error>)
      modifies this
      ensures Did(r, AuthDesk.Login(old(Tables()), email, password, code, now, mailOk))
    {
      hide AuthDesk.GenerateAndSaveOtp, CoolingDown;
      var found := FindUser(email);
      if found.None? || users[found.value].password != Some(password) { return Err(Unauthorized); }
      var u := found.value;
      if users[u].status == PendingVerification {
        var cooling := OtpCooldownRemaining(u, EmailVerification, now);
        if !cooling { var _ := GenerateAndSaveOtp(u, EmailVerification, code, now, mailOk); }
        return Err(NotVerified);
      }
      if users[u].status == UserSuspended { return Err(Suspended); }
      r := GenerateTokens(u, now);
    }

    method ChangePassword(u: UserId, current: string, newPassword: string, confirm: string, now: int)
      returns (r: Result<Reply, Error>)
      modifies this
      ensures Did(r, AuthDesk.ChangePassword(old(Tables()), u, current, newPassword, confirm, now))
    {
      hide WithTokensRevoked;
      if newPassword != confirm { return Err(Mismatch); }
      if u !in users { return Err(NotFound); }
      var account := users[u];
      if account.password.None? { return Err(SocialAccount); }
      if account.password.value != current { return Err(WrongPassword); }
      if account.password.value == newPassword { return Err(SamePassword); }
      users := users[u := account.(password := Some(newPassword))];
      refresh := WithTokensRevoked(refresh, u);
      r := GenerateTokens(u, now);
    }

    method AdminResetPassword(u: UserId, newPassword: string) returns (r: Result<Reply, Error>)
      modifies this
      ensures Did(r, AuthDesk.AdminResetPassword(old(Tables()), u, newPassword))
    {
      hide WithTokensRevoked, WithCodesUsed;
      if u !in users { return Err(NotFound); }
      users := users[u := users[u].(password := Some(newPassword))];
      refresh := WithTokensRevoked(refresh, u);
      otps := WithCodesUsed(otps, u, PasswordReset);
      return Ok(Done);
    }
  }
}
