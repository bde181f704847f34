/** End-to-end runs of the services and the gate over one shared storage:
    the behaviour the design promises across several calls. */
module Scenarios {
  import opened Common
  import opened Uuids
  import opened Times
  import opened Security
  import opened Stores
  import opened Auth
  import opened Gate
  import opened Profile

  const NoFaults := Faults(false, false)

  /** A new user registers and logs in; the token admits requests, carrying
      the user's and the session's ids, until the user logs out, after which
      the very same token is refused as an expired session. The creation time
      the next handler sees is the zero time, not the time of the login. */
  method RevocationScenario(auth: AuthService, input: RegisterInput, userId: Uuid, sessionId: Uuid,
                            registeredAt: Time, loggedInAt: Time, salt: nat, ctx: Context)
      returns (before: Outcome, after: Outcome)
    requires auth.Valid()
    requires !LoginTaken(auth.st.users.rows, input.login) && userId !in auth.st.users.rows
    requires sessionId !in auth.st.sessions.rows
    requires auth.hasher.generate(input.password, salt).Some?
    requires auth.signer.jwt.sign(auth.signer.secret, EncodeClaimsAsWritten(Claims(userId, sessionId, loggedInAt))).Some?
    modifies auth.st.users, auth.st.sessions
    ensures before == Proceed(SetClaims(ctx, Claims(userId, sessionId, ZeroTime)))
    ensures GetClaims(before.ctx) == Some(Claims(userId, sessionId, ZeroTime))
    ensures after == Reject(StatusUnauthorized, SessionExpired)
  {
    var registered := auth.Register(input, userId, registeredAt, salt, NoFaults);
    assert auth.st.users.rows[userId].login == input.login;
    var loggedIn := auth.Login(LoginInput(input.login, input.password, None), sessionId, loggedInAt, NoFaults);
    var token := loggedIn.value.accessToken;
    IssuedTokenAdmittedAsWritten(auth.signer, Claims(userId, sessionId, loggedInAt), auth.st.sessions.rows, ctx);
    before := Serve(auth.signer, Bearer + token, auth.st.sessions, false, ctx);
    var loggedOut := auth.Logout(sessionId, NoFaults);
    TokenRoundTripAsWritten(auth.signer, Claims(userId, sessionId, loggedInAt));
    RevokedSessionRejected(auth.signer, token, auth.st.sessions.rows, ctx);
    after := Serve(auth.signer, Bearer + token, auth.st.sessions, false, ctx);
  }

  /** After a password change the old password no longer logs in and the
      new one does; sessions opened before the change stay valid. */
  method PasswordChangeScenario(auth: AuthService, login: string, oldPassword: string, newPassword: string,
                                salt: nat, sessionId: Uuid, now: Time)
      returns (withOld: Result<LoginOutput>, withNew: Result<LoginOutput>)
    requires auth.Valid() && LoginTaken(auth.st.users.rows, login)
    requires auth.hasher.compare(FindByLogin(auth.st.users.rows, login).value.passwordHash, oldPassword)
    requires auth.hasher.generate(newPassword, salt).Some? && newPassword != oldPassword
    requires sessionId !in auth.st.sessions.rows
    modifies auth.st.users, auth.st.sessions
    ensures withOld == Err(InvalidPassword)
    ensures withNew.Ok?
    ensures old(auth.st.sessions.rows).Keys <= auth.st.sessions.rows.Keys
  {
    var userId := FindByLogin(auth.st.users.rows, login).value.id;
    var changed := auth.ChangePassword(ChangePasswordInput(userId, oldPassword, newPassword), salt, NoFaults);
    assert FindByLogin(auth.st.users.rows, login).value.id == userId;
    withOld := auth.Login(LoginInput(login, oldPassword, None), sessionId, now, NoFaults);
    withNew := auth.Login(LoginInput(login, newPassword, None), sessionId, now, NoFaults);
  }

  /** Registering the same login twice leaves one user: the second call is
      refused and writes nothing. */
  method DuplicateRegistration(auth: AuthService, input: RegisterInput, first: Uuid, second: Uuid,
                               now: Time, salt: nat)
      returns (r1: Result<()>, r2: Result<()>)
    requires auth.Valid() && !LoginTaken(auth.st.users.rows, input.login) && first !in auth.st.users.rows
    requires auth.hasher.generate(input.password, salt).Some?
    modifies auth.st.users
    ensures r1 == Ok(()) && r2 == Err(LoginAlreadyExists)
    ensures auth.st.users.rows == old(auth.st.users.rows)[first := NewUser(first, input, auth.hasher.generate(input.password, salt).value, now)]
  {
    r1 := auth.Register(input, first, now, salt, NoFaults);
    assert auth.st.users.rows[first].login == input.login;
    r2 := auth.Register(input, second, now, salt, NoFaults);
  }

  /** A user deletes their profile while logged in. The sessions stay, so
      the same token still passes the gate with the deleted user's id: the
      next handler runs for a user that is gone, where `GetProfile`,
      `UpdateProfile` and `ChangePassword` dereference the missing user.
      The checked lookup answers `ErrUserNotFound` instead. */
  method DeletedUserAdmitted(profile: ProfileService, signer: Signer, header: string, c: Claims, ctx: Context)
      returns (after: Outcome, shown: Result<ProfileOutput>)
    requires UsersValid(profile.st.users.rows) && c.userId in profile.st.users.rows
    requires Decide(signer, header, profile.st.sessions.rows, false, ctx) == Proceed(SetClaims(ctx, c))
    modifies profile.st.users
    ensures after == Proceed(SetClaims(ctx, c)) && GetClaims(after.ctx) == Some(c)
    ensures c.userId !in profile.st.users.rows
    ensures shown == Err(Wrapped(GetProfileOp, UserNotFound))
  {
    var deleted := profile.DeleteProfile(c.userId, NoFaults);
    after := Serve(signer, header, profile.st.sessions, false, ctx);
    shown := profile.GetProfileChecked(c.userId, NoFaults);
  }
}
