/** What every run of the calls in AuthDesk keeps: one-time codes, reset tokens and refresh tokens. */
module AuthInvariants {
  import opened Wrappers
  import opened AuthDesk

  // ----- Runs -----

  datatype Timed = Timed(call: Call, now: int)

  function After(db: Db, run: seq<Timed>): Db {
    if run == [] then db
    else Perform(After(db, run[..|run| - 1]), run[|run| - 1].call, run[|run| - 1].now).db
  }

  // ----- How one step moves the code rows -----

  /** At most one unused code per user and type. */
  ghost predicate OnePending(otps: map<nat, Otp>) {
    forall i, j :: i in otps && j in otps && SameSlot(otps[i], otps[j]) ==> i == j
  }

  predicate SameSlot(a: Otp, b: Otp) {
    !a.used && !b.used && a.userId == b.userId && a.kind == b.kind
  }

  ghost predicate Numbered(db: Db) {
    && (forall id :: id in db.otps ==> id < db.nextId)
    && (forall id :: id in db.refresh ==> id < db.nextId)
  }

  ghost predicate Valid(db: Db) {
    OnePending(db.otps) && Numbered(db)
  }

  /** The same row later: counted once more if it was guessed wrong, and used for good once it is used. */
  predicate Continues(before: Otp, after: Otp, guess: Guess, id: nat) {
    && after == before.(used := after.used, attempts := after.attempts)
    && after.attempts == before.attempts + (if guess == Wrong(id) then 1 else 0)
    && (before.used ==> after.used)
    && (guess == Right(id) ==> after.used)
  }

  /** A guess is only ever compared with an unused row that has attempts left. */
  predicate FairGuess(otps: map<nat, Otp>, guess: Guess) {
    guess != NoGuess ==> guess.id in otps && !otps[guess.id].used && otps[guess.id].attempts < MAX_OTP_ATTEMPTS
  }

  ghost predicate MovesCodes(db: Db, next: Db, guess: Guess) {
    && db.nextId <= next.nextId
    && FairGuess(db.otps, guess)
    && (forall id :: id in next.otps && id in db.otps ==> Continues(db.otps[id], next.otps[id], guess, id))
    && (forall id :: id in next.otps && id !in db.otps ==> id >= db.nextId && next.otps[id].attempts == 0 && guess == NoGuess)
  }

  lemma {:induction false} NewestLiveIs(otps: map<nat, Otp>, n: nat, u: UserId, kind: OtpType, now: int)
    ensures
      var found := NewestLive(otps, n, u, kind, now);
      found.Some? ==> found.value < n && found.value in otps && IsLive(otps[found.value], u, kind, now)
    ensures
      var found := NewestLive(otps, n, u, kind, now);
      forall id :: id in otps && id < n && (found.None? || id > found.value) ==> !IsLive(otps[id], u, kind, now)
  {
    hide IsLive;
    if n > 0 && !(n - 1 in otps && IsLive(otps[n - 1], u, kind, now)) { NewestLiveIs(otps, n - 1, u, kind, now); }
  }

  /** Every unused row of `after` was already that in `before`. */
  ghost predicate PendingWas(before: map<nat, Otp>, after: map<nat, Otp>) {
    forall id :: id in after && !after[id].used ==> id in before && SameSlot(before[id], after[id])
  }

  lemma NoNewPending(before: map<nat, Otp>, after: map<nat, Otp>)
    requires OnePending(before) && PendingWas(before, after)
    ensures OnePending(after)
  {
    forall i, j | i in after && j in after && SameSlot(after[i], after[j]) ensures i == j {
      assert SameSlot(before[i], before[j]);
    }
  }

  lemma OneNewPending(otps: map<nat, Otp>, id: nat, otp: Otp)
    requires OnePending(otps) && id !in otps
    requires forall i :: i in otps ==> !SameSlot(otps[i], otp)
    ensures OnePending(otps[id := otp])
  {
  }

  lemma ConsumeMovesCodes(db: Db, u: UserId, kind: OtpType, code: string, now: int)
    requires Valid(db)
    ensures
      var s := ConsumeOtp(db, u, kind, code, now);
      && MovesCodes(db, s.db, s.guess) && Valid(s.db)
      && s.db == db.(otps := s.db.otps) && s.db.otps.Keys == db.otps.Keys
      && (s.guess.Right? <==> s.r.Ok?)
      && (s.guess.Right? ==> s.guess.id in s.db.otps && IsLive(db.otps[s.guess.id], u, kind, now))
  {
    var live := NewestLive(db.otps, db.nextId, u, kind, now);
    NewestLiveIs(db.otps, db.nextId, u, kind, now);
    NothingMoves(db);
    if live.Some? {
      var id := live.value;
      var otp := db.otps[id];
      RowMoves(db, id, otp.(used := true), NoGuess);
      RowMoves(db, id, otp.(attempts := otp.attempts + 1), Wrong(id));
      RowMoves(db, id, otp.(used := true), Right(id));
    }
    hide NewestLive, MovesCodes, Valid;
  }

  /** One row of the table is rewritten. */
  lemma RowMoves(db: Db, id: nat, row: Otp, guess: Guess)
    requires Valid(db) && id in db.otps && Continues(db.otps[id], row, guess, id)
    requires guess == NoGuess || guess == Wrong(id) || guess == Right(id)
    ensures FairGuess(db.otps, guess) ==> MovesCodes(db, db.(otps := db.otps[id := row]), guess)
    ensures Valid(db.(otps := db.otps[id := row]))
    ensures db.otps[id := row].Keys == db.otps.Keys
  {
    assert PendingWas(db.otps, db.otps[id := row]);
    hide OnePending;
    NoNewPending(db.otps, db.otps[id := row]);
  }

  lemma CodesUsed(otps: map<nat, Otp>, u: UserId, kind: OtpType)
    requires OnePending(otps)
    ensures OnePending(WithCodesUsed(otps, u, kind))
    ensures forall id :: id in WithCodesUsed(otps, u, kind) <==> id in otps
    ensures forall id :: id in otps ==> Continues(otps[id], WithCodesUsed(otps, u, kind)[id], NoGuess, id)
    ensures forall id :: id in otps && otps[id].userId == u && otps[id].kind == kind ==>
        WithCodesUsed(otps, u, kind)[id].used
  {
    var after := WithCodesUsed(otps, u, kind);
    assert PendingWas(otps, after);
    hide OnePending;
    NoNewPending(otps, after);
  }

  lemma GenerateMovesCodes(db: Db, u: UserId, kind: OtpType, code: string, now: int, mailOk: bool)
    requires Valid(db)
    ensures
      var s := GenerateAndSaveOtp(db, u, kind, code, now, mailOk);
      && MovesCodes(db, s.db, s.guess) && Valid(s.db)
      && s.db == db.(otps := s.db.otps, nextId := s.db.nextId)
      && (forall id :: id in db.otps ==> id in s.db.otps)
  {
    CodesUsed(db.otps, u, kind);
    hide WithCodesUsed;
    var used := WithCodesUsed(db.otps, u, kind);
    var otp := Otp(u, kind, code, false, 0, now, now + OTP_TTL);
    UsedCodesAndOneMore(db, used, otp);
    hide MovesCodes, Valid;
  }

  lemma UsedCodesAndOneMore(db: Db, used: map<nat, Otp>, otp: Otp)
    requires Valid(db) && OnePending(used) && otp.attempts == 0
    requires forall id :: id in used <==> id in db.otps
    requires forall id :: id in used ==> Continues(db.otps[id], used[id], NoGuess, id)
    requires forall id :: id in used && used[id].userId == otp.userId && used[id].kind == otp.kind ==> used[id].used
    ensures
      var saved := used[db.nextId := otp];
      && saved - {db.nextId} == used
      && Valid(db.(otps := used, nextId := db.nextId + 1))
      && Valid(db.(otps := saved, nextId := db.nextId + 1))
      && MovesCodes(db, db.(otps := used, nextId := db.nextId + 1), NoGuess)
      && MovesCodes(db, db.(otps := saved, nextId := db.nextId + 1), NoGuess)
  {
    assert db.nextId !in used;
    hide OnePending, Continues;
    OneNewPending(used, db.nextId, otp);
  }

  lemma RetiringMovesCodes(db: Db, next: Db, u: UserId)
    requires Valid(db) && db.nextId <= next.nextId
    requires next.otps == WithoutCodes(db.otps, u, PasswordReset) || next.otps == WithCodesUsed(db.otps, u, PasswordReset)
    requires forall id :: id in next.refresh ==> id < next.nextId
    ensures MovesCodes(db, next, NoGuess) && Valid(next)
  {
    assert PendingWas(db.otps, next.otps);
    hide OnePending;
    NoNewPending(db.otps, next.otps);
  }

  lemma SessionKeepsNumbering(db: Db, u: UserId, now: int)
    requires Valid(db)
    ensures Valid(WithSession(db, u, now))
  {
  }

  /** A redeemed code row, and then whatever the rest of the call does to the codes. */
  lemma MovesCodesThen(db: Db, mid: Db, next: Db, guess: Guess)
    requires MovesCodes(db, mid, guess) && mid.otps.Keys == db.otps.Keys
    requires MovesCodes(mid, next, NoGuess) && forall id :: id in next.otps ==> id in mid.otps
    ensures MovesCodes(db, next, guess)
  {
    forall id | id in next.otps ensures id in db.otps && Continues(db.otps[id], next.otps[id], guess, id) {
      assert id in mid.otps.Keys;
      assert Continues(db.otps[id], mid.otps[id], guess, id);
      assert Continues(mid.otps[id], next.otps[id], NoGuess, id);
    }
  }

  lemma VerifyMovesCodes(db: Db, email: string, kind: OtpType, code: string, now: int)
    requires Valid(db)
    ensures
      var s := VerifyOtp(db, email, kind, code, now);
      MovesCodes(db, s.db, s.guess) && Valid(s.db)
  {
    var found := FindByEmail(db, email);
    if found.Some? {
      ConsumeMovesCodes(db, found.value, kind, code, now);
      hide ConsumeOtp;
    }
  }

  lemma SettingMovesCodes(db: Db, u: UserId, newPassword: string)
    requires Valid(db) && u in db.users
    ensures
      var (next, _) := SetNewPassword(db, u, newPassword);
      && MovesCodes(db, next, NoGuess) && Valid(next)
      && forall id :: id in next.otps ==> id in db.otps
  {
    var (next, r) := SetNewPassword(db, u, newPassword);
    if r.Ok? {
      RetiringMovesCodes(db, next, u);
    }
  }

  lemma ResetByCodeMovesCodes(db: Db, email: string, code: string, newPassword: string, now: int)
    requires Valid(db)
    ensures
      var s := ResetByCode(db, email, code, newPassword, now);
      MovesCodes(db, s.db, s.guess) && Valid(s.db)
  {
    var found := FindByEmail(db, email);
    if found.Some? {
      ConsumeMovesCodes(db, found.value, PasswordReset, code, now);
      var s := ConsumeOtp(db, found.value, PasswordReset, code, now);
      SettingMovesCodes(s.db, found.value, newPassword);
      hide ConsumeOtp, SetNewPassword, MovesCodes;
      var (next, _) := SetNewPassword(s.db, found.value, newPassword);
      MovesCodesThenIf(db, s.db, next, s.guess);
      assert MovesCodes(db, db, NoGuess) by { NothingMoves(db); }
    } else {
      NothingMoves(db);
    }
  }

  lemma MovesCodesThenIf(db: Db, mid: Db, next: Db, guess: Guess)
    ensures MovesCodes(db, mid, guess) && mid.otps.Keys == db.otps.Keys
         && MovesCodes(mid, next, NoGuess) && (forall id :: id in next.otps ==> id in mid.otps)
         ==> MovesCodes(db, next, guess)
  {
    if MovesCodes(db, mid, guess) && mid.otps.Keys == db.otps.Keys
       && MovesCodes(mid, next, NoGuess) && forall id :: id in next.otps ==> id in mid.otps
    {
      MovesCodesThen(db, mid, next, guess);
    }
  }

  lemma NothingMoves(db: Db)
    ensures MovesCodes(db, db, NoGuess)
  {
  }

  /** Every call moves the codes by these rules and keeps at most one unused code per user and type. */
  lemma PerformMovesCodes(db: Db, call: Call, now: int)
    requires Valid(db)
    ensures
      var s := Perform(db, call, now);
      MovesCodes(db, s.db, s.guess) && Valid(s.db)
  {
    NothingMoves(db);
    match call
    case CallForgotPassword(email, code, mailOk) =>
      var found := FindByEmail(db, email);
      if found.Some? { GenerateMovesCodes(db, found.value, PasswordReset, code, now, mailOk); }
      hide GenerateAndSaveOtp, MovesCodes, Valid, CoolingDown;
    case CallResendOtp(email, kind, code, mailOk) =>
      var found := FindByEmail(db, email);
      if found.Some? { GenerateMovesCodes(db, found.value, kind, code, now, mailOk); }
      hide GenerateAndSaveOtp, MovesCodes, Valid, CoolingDown;
    case CallVerifyOtp(email, kind, code) =>
      VerifyMovesCodes(db, email, kind, code, now);
      hide VerifyOtp, MovesCodes, Valid;
    case CallResetByToken(token, newPassword) =>
      var found := UserFromResetToken(db, token);
      if found.Some? { SettingMovesCodes(db, found.value, newPassword); }
      hide UserFromResetToken, SetNewPassword, MovesCodes, Valid;
    case CallResetByCode(email, code, newPassword) =>
      ResetByCodeMovesCodes(db, email, code, newPassword, now);
      hide ResetByCode, MovesCodes, Valid;
    case CallLogin(email, password, code, mailOk) =>
      var found := FindByEmail(db, email);
      if found.Some? {
        GenerateMovesCodes(db, found.value, EmailVerification, code, now, mailOk);
        SessionKeepsNumbering(db, found.value, now);
        assert MovesCodes(db, WithSession(db, found.value, now), NoGuess);
      }
      hide GenerateAndSaveOtp, MovesCodes, Valid, CoolingDown, WithSession;
    case CallRefreshToken(token) =>
      if token in db.refresh { SessionKeepsNumbering(db, db.refresh[token].userId, now); }
      SessionCallMovesNothing(db, call, now);
    case CallLogout(token) => SessionCallMovesNothing(db, call, now);
    case CallChangePassword(u, current, newPassword, confirm) => SessionCallMovesNothing(db, call, now);
    case CallAdminResetPassword(u, newPassword) =>
      if u in db.users { RetiringMovesCodes(db, Perform(db, call, now).db, u); }
  }

  lemma SessionCallMovesNothing(db: Db, call: Call, now: int)
    requires Valid(db)
    requires call.CallRefreshToken? || call.CallLogout? || call.CallChangePassword?
    ensures
      var s := Perform(db, call, now);
      MovesCodes(db, s.db, s.guess) && Valid(s.db)
  {
    hide OnePending;
  }

  lemma {:induction false} RunKeepsValid(db: Db, run: seq<Timed>)
    requires Valid(db)
    ensures Valid(After(db, run))
    ensures db.nextId <= After(db, run).nextId
  {
    hide Valid, Perform;
    if run != [] {
      var front, last := run[..|run| - 1], run[|run| - 1];
      RunKeepsValid(db, front);
      PerformMovesCodes(After(db, front), last.call, last.now);
    }
  }

  // ----- Guesses over a run -----

  function Count(db: Db, run: seq<Timed>, guess: Guess): nat {
    if run == [] then 0
    else
      Count(db, run[..|run| - 1], guess)
      + if Perform(After(db, run[..|run| - 1]), run[|run| - 1].call, run[|run| - 1].now).guess == guess then 1 else 0
  }

  /**
   * In every run from an empty code table at most five wrong guesses are ever
   * compared with one code, the row counts them exactly, and the code is
   * redeemed at most once.
   */
  lemma {:induction false} CodesAreGuessedAndRedeemedSparingly(db: Db, run: seq<Timed>, id: nat)
    requires Valid(db) && db.otps == map[]
    ensures Count(db, run, Wrong(id)) <= MAX_OTP_ATTEMPTS
    ensures Count(db, run, Right(id)) <= 1
    ensures var otps := After(db, run).otps;
            id in otps ==>
              && Count(db, run, Wrong(id)) == otps[id].attempts
              && (Count(db, run, Right(id)) == 1 ==> otps[id].used)
    ensures id >= After(db, run).nextId ==> Count(db, run, Wrong(id)) == 0 && Count(db, run, Right(id)) == 0
  {
    if run != [] {
      var front, last := run[..|run| - 1], run[|run| - 1];
      var before := After(db, front);
      CodesAreGuessedAndRedeemedSparingly(db, front, id);
      RunKeepsValid(db, front);
      PerformMovesCodes(before, last.call, last.now);
      assert id in before.otps ==> id < before.nextId;
      hide Perform, OnePending;
    }
  }

  /** In every run at most one unused code exists per user and type. */
  lemma OneUnusedCode(db: Db, run: seq<Timed>, i: nat, j: nat)
    requires Valid(db)
    requires
      var otps := After(db, run).otps;
      && i in otps && j in otps && !otps[i].used && !otps[j].used
      && otps[i].userId == otps[j].userId && otps[i].kind == otps[j].kind
    ensures i == j
  {
    RunKeepsValid(db, run);
    assert SameSlot(After(db, run).otps[i], After(db, run).otps[j]);
    hide After;
  }

  /** A code the user could redeem right now. */
  predicate IsRedeemable(otp: Otp, u: UserId, kind: OtpType, code: string, now: int) {
    && otp.userId == u && otp.kind == kind && otp.code == code
    && !otp.used && otp.expiresAt > now && otp.attempts < MAX_OTP_ATTEMPTS
  }

  /**
   * Whatever rows the search looks at, a guess succeeds exactly when the user's one
   * pending code is that code, in time and with tries left.
   */
  lemma RedeemsIff(db: Db, u: UserId, kind: OtpType, code: string, now: int)
    requires Valid(db)
    ensures ConsumeOtp(db, u, kind, code, now).r.Ok? <==>
            exists id :: id in db.otps && IsRedeemable(db.otps[id], u, kind, code, now)
  {
    var live := NewestLive(db.otps, db.nextId, u, kind, now);
    NewestLiveIs(db.otps, db.nextId, u, kind, now);
    hide NewestLive;
    forall id | id in db.otps && IsRedeemable(db.otps[id], u, kind, code, now) ensures live == Some(id) {
      assert IsLive(db.otps[id], u, kind, now);
      assert live.Some? && SameSlot(db.otps[live.value], db.otps[id]);
    }
    if live.Some? && ConsumeOtp(db, u, kind, code, now).r.Ok? {
      assert IsRedeemable(db.otps[live.value], u, kind, code, now);
    }
  }

  /** A code that was mailed is good for ten minutes, and is then the only one that is. */
  lemma MailedCodeIsGoodForTenMinutes(db: Db, u: UserId, kind: OtpType, code: string, now: int, guess: string,
      later: int)
    requires Valid(db) && now <= later
    ensures
      var next := GenerateAndSaveOtp(db, u, kind, code, now, true).db;
      ConsumeOtp(next, u, kind, guess, later).r.Ok? <==> guess == code && later < now + OTP_TTL
  {
    var next := GenerateAndSaveOtp(db, u, kind, code, now, true).db;
    GenerateMovesCodes(db, u, kind, code, now, true);
    RedeemsIff(next, u, kind, guess, later);
    CodesUsed(db.otps, u, kind);
    hide ConsumeOtp, WithCodesUsed, OnePending, MovesCodes;
    assert db.nextId in next.otps && next.otps[db.nextId] == Otp(u, kind, code, false, 0, now, now + OTP_TTL);
    assert forall id :: id in next.otps && id != db.nextId && next.otps[id].userId == u && next.otps[id].kind == kind ==>
        next.otps[id].used;
  }

  /** A code that could not be mailed leaves no usable code behind and does not start the cooldown. */
  lemma FailedMailLeavesNothing(db: Db, u: UserId, kind: OtpType, code: string, now: int, later: int)
    requires Valid(db) && IsMailed(kind)
    ensures
      var next := GenerateAndSaveOtp(db, u, kind, code, now, false).db;
      && NewestLive(next.otps, next.nextId, u, kind, later).None?
      && (CoolingDown(next, u, kind, later) <==> CoolingDown(db, u, kind, later))
  {
    var next := GenerateAndSaveOtp(db, u, kind, code, now, false).db;
    CodesUsed(db.otps, u, kind);
    NewestLiveIs(next.otps, next.nextId, u, kind, later);
    SameNewestSent(db.otps, next.otps, db.nextId, u, kind);
    assert db.nextId !in next.otps;
    hide WithCodesUsed, OnePending, NewestLive;
    assert NewestSent(next.otps, next.nextId, u, kind) == NewestSent(next.otps, db.nextId, u, kind);
  }

  lemma {:induction false} SameNewestSent(before: map<nat, Otp>, after: map<nat, Otp>, n: nat, u: UserId, kind: OtpType)
    requires forall id :: id in before <==> id in after
    requires forall id :: id in before ==>
        after[id] == before[id].(used := after[id].used, attempts := after[id].attempts)
    ensures NewestSent(before, n, u, kind) == NewestSent(after, n, u, kind)
    ensures NewestSent(before, n, u, kind).Some? ==> NewestSent(before, n, u, kind).value in before
  {
    if n > 0 { SameNewestSent(before, after, n - 1, u, kind); }
  }

  // ----- Reset tokens -----

  /** The account a successful reset-password call changes. */
  function ResetOf(db: Db, call: Call, now: int): Option<UserId> {
    if Perform(db, call, now).r.Err? then None
    else
      match call
      case CallResetByToken(token, _) => UserFromResetToken(db, token)
      case CallResetByCode(email, _, _) => FindByEmail(db, email)
      case _ => None
  }

  /** The rows a reset token of `u` can name. */
  predicate IsResetRow(otp: Otp, u: UserId) {
    otp.userId == u && otp.kind == PasswordReset
  }

  lemma ResetClearsTheRows(db: Db, call: Call, now: int, u: UserId)
    requires Valid(db) && ResetOf(db, call, now) == Some(u)
    ensures forall id :: id in Perform(db, call, now).db.otps ==> !IsResetRow(Perform(db, call, now).db.otps[id], u)
  {
    if call.CallResetByCode? {
      ConsumeMovesCodes(db, u, PasswordReset, call.code, now);
    }
    hide ConsumeOtp, MovesCodes, Valid;
  }

  /** A row numbered below `n` of a user with none left is never seen again. */
  lemma {:induction false} ClearedStaysCleared(db: Db, run: seq<Timed>, u: UserId, n: nat, id: nat)
    requires Valid(db) && n <= db.nextId && id < n
    requires id in db.otps ==> !IsResetRow(db.otps[id], u)
    ensures id in After(db, run).otps ==> !IsResetRow(After(db, run).otps[id], u)
  {
    if run != [] {
      var front, last := run[..|run| - 1], run[|run| - 1];
      ClearedStaysCleared(db, front, u, n, id);
      RunKeepsValid(db, front);
      PerformMovesCodes(After(db, front), last.call, last.now);
      hide Perform, Valid;
    }
  }

  lemma {:induction false} AfterConcat(db: Db, a: seq<Timed>, b: seq<Timed>)
    ensures After(db, a + b) == After(After(db, a), b)
  {
    hide Perform;
    if b == [] {
      assert a + b == a;
    } else {
      assert (a + b)[..|a + b| - 1] == a + b[..|b| - 1];
      AfterConcat(db, a, b[..|b| - 1]);
    }
  }

  /** A successful reset, by token or by code, voids every reset token of the user that was minted before it. */
  lemma ResetVoidsEarlierTokens(db: Db, run: seq<Timed>, call: Call, now: int, later: seq<Timed>, token: Jwt, u: UserId)
    requires Valid(db)
    requires ResetOf(After(db, run), call, now) == Some(u)
    requires token.Payload? && token.sub == Some(u) && token.otp.Some?
    requires token.otp.value < After(db, run).nextId
    ensures UserFromResetToken(After(db, run + [Timed(call, now)] + later), token).None?
  {
    var at := After(db, run);
    var done := Perform(at, call, now).db;
    RunKeepsValid(db, run);
    ResetClearsTheRows(at, call, now, u);
    PerformMovesCodes(at, call, now);
    var here := run + [Timed(call, now)];
    assert here[..|here| - 1] == run;
    assert After(db, here) == done;
    ClearedStaysCleared(done, later, u, done.nextId, token.otp.value);
    AfterConcat(db, here, later);
    hide After, Perform, ResetOf, Valid;
  }

  /** Each reset token yields at most one successful reset. */
  lemma TokenResetsOnce(db: Db, run: seq<Timed>, token: Jwt, first: string, now: int, later: seq<Timed>,
      second: string, retry: int)
    requires Valid(db)
    requires Perform(After(db, run), CallResetByToken(token, first), now).r.Ok?
    ensures
      var reached := After(db, run + [Timed(CallResetByToken(token, first), now)] + later);
      Perform(reached, CallResetByToken(token, second), retry).r == Err(InvalidResetToken)
  {
    var at := After(db, run);
    RunKeepsValid(db, run);
    var u := UserFromResetToken(at, token).value;
    assert token.otp.value in at.otps;
    ResetVoidsEarlierTokens(db, run, CallResetByToken(token, first), now, later, token, u);
  }

  /**
   * After a reset the account signs in with the new password, even if it had never been
   * verified, and with no other.
   */
  lemma ResetAccountSignsIn(db: Db, call: Call, now: int, email: string, password: string, code: string, later: int,
      mailOk: bool)
    requires Valid(db) && FindByEmail(db, email).Some?
    requires ResetOf(db, call, now) == FindByEmail(db, email)
    ensures
      var newPassword := if call.CallResetByToken? || call.CallResetByCode? then call.newPassword else "";
      Login(Perform(db, call, now).db, email, password, code, later, mailOk).r.Ok? <==> password == newPassword
  {
    hide GenerateAndSaveOtp, CoolingDown;
    if call.CallResetByCode? {
      ConsumeMovesCodes(db, FindByEmail(db, call.email).GetOr(0), PasswordReset, call.code, now);
    }
    hide ConsumeOtp, MovesCodes, Valid, WithoutCodes, WithTokensRevoked;
  }

  // ----- A minted token works until the next reset -----

  /** A redeemed reset row of `u`. */
  predicate Backs(db: Db, u: UserId, id: nat) {
    id in db.otps && IsResetRow(db.otps[id], u) && db.otps[id].used && u in db.users
  }

  lemma OnlyAResetUnbacks(db: Db, call: Call, now: int, u: UserId, id: nat)
    requires Valid(db) && Backs(db, u, id)
    requires ResetOf(db, call, now) != Some(u)
    ensures Backs(Perform(db, call, now).db, u, id)
  {
    PerformMovesCodes(db, call, now);
    KeepsTheRows(db, call, now, u, id);
    hide Perform, ResetOf;
  }

  lemma ResetOfAnother(db: Db, call: Call, now: int, u: UserId, id: nat)
    requires Valid(db) && id in db.otps && IsResetRow(db.otps[id], u) && u in db.users
    requires call.CallResetByToken? || call.CallResetByCode?
    requires ResetOf(db, call, now) != Some(u)
    ensures id in Perform(db, call, now).db.otps && u in Perform(db, call, now).db.users
  {
    if call.CallResetByCode? {
      var found := FindByEmail(db, call.email);
      if found.Some? { ConsumeMovesCodes(db, found.value, PasswordReset, call.code, now); }
    }
    hide ConsumeOtp, Valid, UserFromResetToken, WithTokensRevoked;
  }

  /** Issuing a code leaves the accounts and the sessions alone, and deletes no row. */
  lemma GeneratingKeeps(db: Db, u: UserId, kind: OtpType, code: string, now: int, mailOk: bool, id: nat)
    requires id in db.otps && id < db.nextId
    ensures
      var next := GenerateAndSaveOtp(db, u, kind, code, now, mailOk).db;
      id in next.otps && next.users == db.users && next.refresh == db.refresh
  {
  }

  lemma SendingKeepsTheRows(db: Db, call: Call, now: int, u: UserId, id: nat)
    requires id in db.otps && id < db.nextId && u in db.users
    requires call.CallForgotPassword? || call.CallResendOtp? || call.CallLogin?
    ensures id in Perform(db, call, now).db.otps && u in Perform(db, call, now).db.users
  {
    var found := FindByEmail(db, call.email);
    hide CoolingDown;
    if found.Some? {
      match call
      case CallForgotPassword(_, code, mailOk) => GeneratingKeeps(db, found.value, PasswordReset, code, now, mailOk, id);
      case CallResendOtp(_, kind, code, mailOk) => GeneratingKeeps(db, found.value, kind, code, now, mailOk, id);
      case CallLogin(_, _, code, mailOk) => GeneratingKeeps(db, found.value, EmailVerification, code, now, mailOk, id);
    }
    hide GenerateAndSaveOtp;
  }

  lemma VerifyingKeepsTheRows(db: Db, email: string, kind: OtpType, code: string, now: int, u: UserId, id: nat)
    requires Valid(db) && id in db.otps && u in db.users
    ensures id in VerifyOtp(db, email, kind, code, now).db.otps && u in VerifyOtp(db, email, kind, code, now).db.users
  {
    var found := FindByEmail(db, email);
    if found.Some? { ConsumeMovesCodes(db, found.value, kind, code, now); }
    hide ConsumeOtp, Valid, MovesCodes;
  }

  lemma KeepsTheRows(db: Db, call: Call, now: int, u: UserId, id: nat)
    requires Valid(db) && id in db.otps && IsResetRow(db.otps[id], u) && u in db.users
    requires ResetOf(db, call, now) != Some(u)
    ensures id in Perform(db, call, now).db.otps && u in Perform(db, call, now).db.users
  {
    match call
    case CallForgotPassword(_, _, _) => SendingKeepsTheRows(db, call, now, u, id);
    case CallResendOtp(_, _, _, _) => SendingKeepsTheRows(db, call, now, u, id);
    case CallLogin(_, _, _, _) => SendingKeepsTheRows(db, call, now, u, id);
    case CallVerifyOtp(email, kind, code) => VerifyingKeepsTheRows(db, email, kind, code, now, u, id);
    case CallResetByToken(_, _) => ResetOfAnother(db, call, now, u, id);
    case CallResetByCode(_, _, _) => ResetOfAnother(db, call, now, u, id);
    case CallRefreshToken(_) =>
      hide ResetOf, Valid;
    case CallLogout(_) =>
      hide ResetOf, Valid;
    case CallChangePassword(_, _, _, _) =>
      hide ResetOf, Valid, WithTokensRevoked;
    case CallAdminResetPassword(_, _) =>
      hide ResetOf, Valid, WithTokensRevoked;
  }

  /** Some step of the run is a successful reset of `u`. */
  predicate ResetDuring(db: Db, run: seq<Timed>, u: UserId) {
    run != [] &&
    (ResetDuring(db, run[..|run| - 1], u)
     || ResetOf(After(db, run[..|run| - 1]), run[|run| - 1].call, run[|run| - 1].now) == Some(u))
  }

  lemma {:induction false} BackedUntilReset(db: Db, run: seq<Timed>, u: UserId, id: nat)
    requires Valid(db) && Backs(db, u, id)
    ensures Backs(After(db, run), u, id) <==> !ResetDuring(db, run, u)
    ensures var otps := After(db, run).otps; ResetDuring(db, run, u) && id in otps ==> !IsResetRow(otps[id], u)
  {
    assert id < db.nextId;
    hide Perform, ResetOf, Valid;
    if run != [] {
      var front, last := run[..|run| - 1], run[|run| - 1];
      var before := After(db, front);
      BackedUntilReset(db, front, u, id);
      RunKeepsValid(db, front);
      PerformMovesCodes(before, last.call, last.now);
      if ResetOf(before, last.call, last.now) == Some(u) {
        ResetClearsTheRows(before, last.call, last.now, u);
      } else if Backs(before, u, id) {
        OnlyAResetUnbacks(before, last.call, last.now, u, id);
      }
    }
  }

  /**
   * The token verify-otp hands back names the user until that user's next
   * successful reset, and nobody afterwards.
   */
  lemma MintedTokenWorksUntilReset(db: Db, email: string, code: string, now: int, run: seq<Timed>, token: Jwt)
    requires Valid(db)
    requires VerifyOtp(db, email, PasswordReset, code, now).r == Ok(ResetToken(token))
    ensures
      var minted := VerifyOtp(db, email, PasswordReset, code, now).db;
      var u := FindByEmail(db, email).value;
      UserFromResetToken(After(minted, run), token) == if ResetDuring(minted, run, u) then None else Some(u)
  {
    var u := FindByEmail(db, email).value;
    var minted := VerifyOtp(db, email, PasswordReset, code, now).db;
    ConsumeMovesCodes(db, u, PasswordReset, code, now);
    VerifyMovesCodes(db, email, PasswordReset, code, now);
    assert Backs(minted, u, token.otp.value);
    BackedUntilReset(minted, run, u, token.otp.value);
    hide VerifyOtp, ResetDuring, After, Valid;
  }

  /**
   * An admin reset ends every session and uses up every pending reset code of the
   * account; a token already handed back is not a pending code and names its user still.
   */
  lemma AdminResetLeavesTheToken(db: Db, email: string, code: string, now: int, token: Jwt, newPassword: string)
    requires Valid(db)
    requires VerifyOtp(db, email, PasswordReset, code, now).r == Ok(ResetToken(token))
    ensures
      var u := FindByEmail(db, email).value;
      var after := AdminResetPassword(VerifyOtp(db, email, PasswordReset, code, now).db, u, newPassword).db;
      && (forall id :: id in after.refresh ==> !IsOpen(after.refresh[id], u))
      && (forall id :: id in after.otps && IsResetRow(after.otps[id], u) ==> after.otps[id].used)
      && UserFromResetToken(after, token) == Some(u)
  {
    var u := FindByEmail(db, email).value;
    var minted := VerifyOtp(db, email, PasswordReset, code, now).db;
    var byAdmin := Timed(CallAdminResetPassword(u, newPassword), now);
    assert [byAdmin][..0] == [] && After(minted, []) == minted && !ResetDuring(minted, [], u);
    assert After(minted, [byAdmin]) == AdminResetPassword(minted, u, newPassword).db;
    assert !ResetDuring(minted, [byAdmin], u);
    MintedTokenWorksUntilReset(db, email, code, now, [byAdmin], token);
    hide VerifyOtp, Valid, ResetDuring, After;
  }

  /** One account, one reset code, answered at second 5. */
  lemma AdminResetLeavesThisToken(newPassword: string)
    ensures
      var account := Account(Some("old"), UserActive, true, false);
      var db := Db(map["a@b.it" := 0], map[0 := account], map[0 := Otp(0, PasswordReset, "123456", false, 0, 0, 600)],
        map[], 1);
      var token := Payload(RESET_TOKEN_PURPOSE, Some(0), Some(0));
      var minted := VerifyOtp(db, "a@b.it", PasswordReset, "123456", 5);
      && minted.r == Ok(ResetToken(token))
      && UserFromResetToken(AdminResetPassword(minted.db, 0, newPassword).db, token) == Some(0)
  {
    var account := Account(Some("old"), UserActive, true, false);
    var db := Db(map["a@b.it" := 0], map[0 := account], map[0 := Otp(0, PasswordReset, "123456", false, 0, 0, 600)],
      map[], 1);
    assert NewestLive(db.otps, 1, 0, PasswordReset, 5) == Some(0);
    AdminResetLeavesTheToken(db, "a@b.it", "123456", 5, Payload(RESET_TOKEN_PURPOSE, Some(0), Some(0)), newPassword);
  }
}
