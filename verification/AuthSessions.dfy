/** The refresh tokens over every run: what an exchange conserves and what a password change evicts. */
module AuthSessions {
  import opened Wrappers
  import opened AuthDesk
  import opened AuthInvariants

  /** What a call means for the refresh tokens. */
  datatype Effect =
    | Keeps
    | Opens(owner: UserId)
    | Exchanges(token: nat, owner: UserId)
    | Closes(token: nat)
    | Evicts(owner: UserId)
    | Renews(owner: UserId)

  function EffectOf(db: Db, call: Call, now: int): Effect {
    if Perform(db, call, now).r.Err? then Keeps
    else
      match call
      case CallLogin(email, _, _, _) => Opens(FindByEmail(db, email).GetOr(0))
      case CallVerifyOtp(email, kind, _) =>
        if kind == EmailVerification then Opens(FindByEmail(db, email).GetOr(0)) else Keeps
      case CallRefreshToken(t) => if t in db.refresh then Exchanges(t, db.refresh[t].userId) else Keeps
      case CallLogout(t) => if t in db.refresh && !db.refresh[t].revoked then Closes(t) else Keeps
      case CallResetByToken(_, _) => Evicts(ResetOf(db, call, now).GetOr(0))
      case CallResetByCode(_, _, _) => Evicts(ResetOf(db, call, now).GetOr(0))
      case CallAdminResetPassword(u, _) => Evicts(u)
      case CallChangePassword(u, _, _, _) => Renews(u)
      case _ => Keeps
  }

  function Revoked(refresh: map<nat, Refresh>, token: nat): map<nat, Refresh> {
    if token in refresh then refresh[token := refresh[token].(revoked := true)] else refresh
  }

  /** The table after the effect; a new token is numbered `id`. */
  function Applied(refresh: map<nat, Refresh>, id: nat, now: int, e: Effect): map<nat, Refresh> {
    match e
    case Keeps => refresh
    case Opens(owner) => refresh[id := Refresh(owner, now + REFRESH_TTL, false)]
    case Exchanges(token, owner) => Revoked(refresh[id := Refresh(owner, now + REFRESH_TTL, false)], token)
    case Closes(token) => Revoked(refresh, token)
    case Evicts(owner) => WithTokensRevoked(refresh, owner)
    case Renews(owner) => WithTokensRevoked(refresh, owner)[id := Refresh(owner, now + REFRESH_TTL, false)]
  }

  lemma ConsumeKeepsRefresh(db: Db, u: UserId, kind: OtpType, code: string, now: int)
    ensures
      var s := ConsumeOtp(db, u, kind, code, now);
      s.db.refresh == db.refresh && s.db.nextId == db.nextId && s.db.users == db.users && (s.guess.Right? <==> s.r.Ok?)
  {
    hide NewestLive;
  }

  lemma GenerateKeepsRefresh(db: Db, u: UserId, kind: OtpType, code: string, now: int, mailOk: bool)
    ensures GenerateAndSaveOtp(db, u, kind, code, now, mailOk).db.refresh == db.refresh
  {
    hide WithCodesUsed;
  }

  lemma RefreshMovesByEffect(db: Db, call: Call, now: int)
    requires Numbered(db)
    ensures Perform(db, call, now).db.refresh == Applied(db.refresh, db.nextId, now, EffectOf(db, call, now))
  {
    hide WithTokensRevoked, CoolingDown;
    match call
    case CallForgotPassword(email, code, mailOk) =>
      var found := FindByEmail(db, email);
      if found.Some? { GenerateKeepsRefresh(db, found.value, PasswordReset, code, now, mailOk); }
      hide GenerateAndSaveOtp;
    case CallResendOtp(email, kind, code, mailOk) =>
      var found := FindByEmail(db, email);
      if found.Some? { GenerateKeepsRefresh(db, found.value, kind, code, now, mailOk); }
      hide GenerateAndSaveOtp;
    case CallVerifyOtp(email, kind, code) =>
      var found := FindByEmail(db, email);
      if found.Some? { ConsumeKeepsRefresh(db, found.value, kind, code, now); }
      hide ConsumeOtp;
    case CallResetByToken(token, newPassword) =>
    case CallResetByCode(email, code, newPassword) =>
      var found := FindByEmail(db, email);
      if found.Some? { ConsumeKeepsRefresh(db, found.value, PasswordReset, code, now); }
      hide ConsumeOtp;
    case CallLogin(email, password, code, mailOk) =>
      var found := FindByEmail(db, email);
      if found.Some? { GenerateKeepsRefresh(db, found.value, EmailVerification, code, now, mailOk); }
      hide GenerateAndSaveOtp;
    case CallRefreshToken(token) =>
    case CallLogout(token) =>
    case CallChangePassword(u, current, newPassword, confirm) =>
    case CallAdminResetPassword(u, newPassword) =>
  }

  // ----- Counting open tokens -----

  function OpenIn(refresh: map<nat, Refresh>, u: UserId): set<nat> {
    set id | id in refresh && IsOpen(refresh[id], u)
  }

  /** How many open tokens `u` has after an effect, given how many before. */
  function Remaining(refresh: map<nat, Refresh>, u: UserId, e: Effect): int {
    var n := |OpenIn(refresh, u)|;
    match e
    case Keeps => n
    case Opens(owner) => if owner == u then n + 1 else n
    case Exchanges(_, _) => n
    case Closes(token) => if token in OpenIn(refresh, u) then n - 1 else n
    case Evicts(owner) => if owner == u then 0 else n
    case Renews(owner) => if owner == u then 1 else n
  }

  lemma AddingOne(refresh: map<nat, Refresh>, id: nat, owner: UserId, expiresAt: int, u: UserId)
    requires id !in refresh
    ensures var next := refresh[id := Refresh(owner, expiresAt, false)];
            OpenIn(next, u) == OpenIn(refresh, u) + if owner == u then {id} else {}
    ensures id !in OpenIn(refresh, u)
  {
  }

  lemma RevokingOne(refresh: map<nat, Refresh>, token: nat, u: UserId)
    ensures OpenIn(Revoked(refresh, token), u) == OpenIn(refresh, u) - {token}
  {
  }

  lemma RevokingAll(refresh: map<nat, Refresh>, owner: UserId, u: UserId)
    ensures OpenIn(WithTokensRevoked(refresh, owner), u) == if owner == u then {} else OpenIn(refresh, u)
    ensures WithTokensRevoked(refresh, owner).Keys == refresh.Keys
  {
    var next := WithTokensRevoked(refresh, owner);
    forall id | id in refresh && owner != u && IsOpen(refresh[id], u) ensures next[id] == refresh[id] {
    }
  }

  /** A token is only exchanged while it is open, and for its own owner. */
  predicate Applies(refresh: map<nat, Refresh>, e: Effect) {
    e.Exchanges? ==> e.token in refresh && IsOpen(refresh[e.token], e.owner)
  }

  /**
   * The exchange conserves the count; sign-in adds one, sign-out takes one, a reset
   * leaves none, a change leaves one.
   */
  lemma EffectsCount(refresh: map<nat, Refresh>, id: nat, now: int, e: Effect, u: UserId)
    requires id !in refresh && Applies(refresh, e)
    ensures |OpenIn(Applied(refresh, id, now, e), u)| == Remaining(refresh, u, e)
  {
    match e
    case Keeps =>
    case Opens(owner) =>
      AddingOne(refresh, id, owner, now + REFRESH_TTL, u);
    case Exchanges(token, owner) =>
      AddingOne(refresh, id, owner, now + REFRESH_TTL, u);
      var added := refresh[id := Refresh(owner, now + REFRESH_TTL, false)];
      RevokingOne(added, token, u);
      assert token in OpenIn(refresh, u) <==> owner == u;
      hide OpenIn, Revoked;
    case Closes(token) =>
      RevokingOne(refresh, token, u);
      hide OpenIn, Revoked;
    case Evicts(owner) =>
      RevokingAll(refresh, owner, u);
    case Renews(owner) =>
      RevokingAll(refresh, owner, u);
      AddingOne(WithTokensRevoked(refresh, owner), id, owner, now + REFRESH_TTL, u);
      hide OpenIn, WithTokensRevoked;
  }

  lemma EffectApplies(db: Db, call: Call, now: int)
    ensures Applies(db.refresh, EffectOf(db, call, now))
  {
    match call
    case CallRefreshToken(t) =>
    case _ =>
      hide Perform, ResetOf;
  }

  /** One call, any account: the ledger of open sessions. */
  lemma CallsCount(db: Db, call: Call, now: int, u: UserId)
    requires Numbered(db)
    ensures |OpenIn(Perform(db, call, now).db.refresh, u)| == Remaining(db.refresh, u, EffectOf(db, call, now))
  {
    assert db.nextId !in db.refresh;
    RefreshMovesByEffect(db, call, now);
    EffectApplies(db, call, now);
    hide Perform, EffectOf, Applied, Remaining, Applies, OpenIn;
    EffectsCount(db.refresh, db.nextId, now, EffectOf(db, call, now), u);
  }

  // ----- Whole runs -----

  function EffectAt(db: Db, run: seq<Timed>): Effect
    requires run != []
  {
    EffectOf(After(db, run[..|run| - 1]), run[|run| - 1].call, run[|run| - 1].now)
  }

  /** Sessions opened for `u` and closed by `u` over a run, and whether anything evicted `u` meanwhile. */
  function SignIns(db: Db, run: seq<Timed>, u: UserId): nat {
    if run == [] then 0
    else SignIns(db, run[..|run| - 1], u) + if EffectAt(db, run) == Opens(u) then 1 else 0
  }

  function SignOuts(db: Db, run: seq<Timed>, u: UserId): nat {
    if run == [] then 0
    else
      var e := EffectAt(db, run);
      SignOuts(db, run[..|run| - 1], u)
      + if e.Closes? && e.token in OpenIn(After(db, run[..|run| - 1]).refresh, u) then 1 else 0
  }

  predicate NeverEvicted(db: Db, run: seq<Timed>, u: UserId) {
    run == []
    || (NeverEvicted(db, run[..|run| - 1], u) && EffectAt(db, run) != Evicts(u) && EffectAt(db, run) != Renews(u))
  }

  /** However many exchanges a run makes, the open sessions are those signed in less those signed out. */
  lemma {:induction false} SessionsAreConserved(db: Db, run: seq<Timed>, u: UserId)
    requires Valid(db) && NeverEvicted(db, run, u)
    ensures |OpenIn(After(db, run).refresh, u)| == |OpenIn(db.refresh, u)| + SignIns(db, run, u) - SignOuts(db, run, u)
  {
    if run != [] {
      var front, last := run[..|run| - 1], run[|run| - 1];
      SessionsAreConserved(db, front, u);
      RunKeepsValid(db, front);
      CallsCount(After(db, front), last.call, last.now, u);
      hide Perform, EffectOf, OpenIn;
    }
  }

  // ----- Revocation is for good -----

  lemma EffectsKeepRevoked(refresh: map<nat, Refresh>, id: nat, now: int, e: Effect, t: nat)
    requires id !in refresh && t in refresh
    ensures t in Applied(refresh, id, now, e)
    ensures refresh[t].revoked ==> Applied(refresh, id, now, e)[t] == refresh[t]
  {
  }

  lemma {:induction false} RevokedStaysRevoked(db: Db, run: seq<Timed>, t: nat)
    requires Valid(db) && t in db.refresh
    ensures t in After(db, run).refresh
    ensures db.refresh[t].revoked ==> After(db, run).refresh[t] == db.refresh[t]
  {
    if run != [] {
      var front, last := run[..|run| - 1], run[|run| - 1];
      var before := After(db, front);
      RevokedStaysRevoked(db, front, t);
      RunKeepsValid(db, front);
      RefreshMovesByEffect(before, last.call, last.now);
      EffectsKeepRevoked(before.refresh, before.nextId, last.now, EffectOf(before, last.call, last.now), t);
      hide Perform, EffectOf, Applied, OnePending;
    }
  }

  /** Each refresh token is exchanged at most once, whatever happens in between. */
  lemma ExchangedOnce(db: Db, token: nat, now: int, run: seq<Timed>, later: int)
    requires Valid(db) && RefreshToken(db, token, now).r.Ok?
    ensures RefreshToken(After(RefreshToken(db, token, now).db, run), token, later).r == Err(InvalidRefreshToken)
  {
    var next := RefreshToken(db, token, now).db;
    SessionCallMovesNothing(db, CallRefreshToken(token), now);
    RevokedStaysRevoked(next, run, token);
  }

  /** A sign-out closes its own session and no other, and what it closed is never exchanged again. */
  lemma SignedOutStaysOut(db: Db, token: nat, u: UserId, run: seq<Timed>, later: int)
    requires Valid(db) && token in db.refresh
    ensures OpenIn(Logout(db, token).db.refresh, u) == OpenIn(db.refresh, u) - {token}
    ensures RefreshToken(After(Logout(db, token).db, run), token, later).r == Err(InvalidRefreshToken)
  {
    var next := Logout(db, token).db;
    RevokingOne(db.refresh, token, u);
    assert next.refresh == if db.refresh[token].revoked then db.refresh else Revoked(db.refresh, token);
    SessionCallMovesNothing(db, CallLogout(token), 0);
    RevokedStaysRevoked(next, run, token);
  }

  /** Evicted sessions stay out: no token open before a reset is ever exchanged after it. */
  lemma EvictedSessionsNeverReturn(db: Db, call: Call, now: int, u: UserId, run: seq<Timed>, token: nat, later: int)
    requires Valid(db) && token in OpenIn(db.refresh, u)
    requires EffectOf(db, call, now) == Evicts(u) || EffectOf(db, call, now) == Renews(u)
    ensures RefreshToken(After(Perform(db, call, now).db, run), token, later).r == Err(InvalidRefreshToken)
  {
    var next := Perform(db, call, now).db;
    RefreshMovesByEffect(db, call, now);
    PerformMovesCodes(db, call, now);
    assert next.refresh[token].revoked;
    hide Perform, EffectOf;
    RevokedStaysRevoked(next, run, token);
  }
}
