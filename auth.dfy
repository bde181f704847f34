/** The authentication service of `internal/services/auth`: registration,
    login, logout and password change over the users and sessions tables.
    The identifiers and timestamps that `uuid.New` and `time.Now` would
    produce, and the salt bcrypt would draw, are arguments. */
module Auth {
  import opened Common
  import opened Uuids
  import opened Times
  import opened Security
  import opened Stores

  /** bcrypt. `generate(password, salt)` is `GenerateFromPassword`, which can
      fail (a password longer than 72 bytes, a failing random source; the salt
      stands for the random draw); `compare(hash, password)` is
      `CompareHashAndPassword` returning no error. */
  datatype Bcrypt = Bcrypt(generate: (string, nat) -> Option<string>,
                           compare: (string, string) -> bool)

  /** What bcrypt provides: a hash verifies the password it was made from, is
      not that password, and verifies no other password. */
  ghost predicate BcryptSound(b: Bcrypt) {
    && (forall p, salt :: b.generate(p, salt).Some? ==>
          b.compare(b.generate(p, salt).value, p) && b.generate(p, salt).value != p)
    && (forall p, q, salt :: b.generate(p, salt).Some? && b.compare(b.generate(p, salt).value, q) ==> q == p)
  }

  /** `auth.RegisterInput`. */
  datatype RegisterInput = RegisterInput(login: string, password: string, firstName: string, timezone: string)

  /** `auth.LoginInput`. */
  datatype LoginInput = LoginInput(login: string, password: string, userAgent: Option<string>)

  /** `auth.LoginOutput`. */
  datatype LoginOutput = LoginOutput(accessToken: string)

  /** `auth.ChangePasswordInput`. */
  datatype ChangePasswordInput = ChangePasswordInput(userId: Uuid, oldPassword: string, newPassword: string)

  const RegisterOp := "services.auth.Register"
  const LoginOp := "services.auth.Login"
  const LogoutOp := "services.auth.Logout"
  const ChangePasswordOp := "services.auth.ChangePassword"

  /** The user row a registration writes. */
  function NewUser(id: Uuid, input: RegisterInput, hash: string, now: Time): User {
    User(id, input.login, hash, input.firstName, input.timezone, Active, now)
  }

  class AuthService {
    const st: Storage
    const signer: Signer
    const hasher: Bcrypt

    /** The collaborators behave as specified and the users table is well formed. */
    ghost predicate Valid()
      reads this, st, st.users
    {
      JwtSound(signer.jwt) && BcryptSound(hasher) && UsersValid(st.users.rows)
    }

    constructor (st: Storage, signer: Signer, hasher: Bcrypt)
      requires JwtSound(signer.jwt) && BcryptSound(hasher) && UsersValid(st.users.rows)
      ensures this.st == st && this.signer == signer && this.hasher == hasher
      ensures Valid()
    {
      this.st := st;
      this.signer := signer;
      this.hasher := hasher;
    }

    /** `Register`: a taken login is refused before anything is hashed; a
        new user is stored active, with the bcrypt hash of the password. */
    method Register(input: RegisterInput, id: Uuid, now: Time, salt: nat, faults: Faults) returns (r: Result<()>)
      requires Valid()
      modifies st.users
      ensures Valid()
      ensures faults.read ==> r == Err(Wrapped(RegisterOp, StoreError("storage.users.GetByLogin")))
      ensures !faults.read && LoginTaken(old(st.users.rows), input.login) ==> r == Err(LoginAlreadyExists)
      ensures !faults.read && !LoginTaken(old(st.users.rows), input.login) ==>
        r == if hasher.generate(input.password, salt).None? then Err(Wrapped(RegisterOp, HashError))
             else if faults.write || id in old(st.users.rows) then Err(Wrapped(RegisterOp, StoreError("storage.users.Create")))
             else Ok(())
      ensures r.Ok? ==>
        st.users.rows == old(st.users.rows)[id := NewUser(id, input, hasher.generate(input.password, salt).value, now)]
      ensures r.Ok? ==>
        hasher.compare(st.users.rows[id].passwordHash, input.password) && st.users.rows[id].passwordHash != input.password
      ensures r.Err? ==> st.users.rows == old(st.users.rows)
    {
      var found := st.users.GetByLogin(input.login, faults.read);
      if found.Err? {
        return Err(Wrapped(RegisterOp, found.error));
      }
      if found.value.Some? {
        return Err(LoginAlreadyExists);
      }
      var hash := hasher.generate(input.password, salt);
      if hash.None? {
        return Err(Wrapped(RegisterOp, HashError));
      }
      var created := st.users.Create(NewUser(id, input, hash.value, now), faults.write);
      if created.Err? {
        return Err(Wrapped(RegisterOp, created.error));
      }
      return Ok(());
    }

    /** `Login`: an unknown login and a wrong password are refused; otherwise
        a session is stored and a token for it returned. The token is made
        before the session is stored, and dropped if storing fails. */
    method Login(input: LoginInput, sessionId: Uuid, now: Time, faults: Faults) returns (r: Result<LoginOutput>)
      requires Valid()
      modifies st.sessions
      ensures faults.read ==> r == Err(Wrapped(LoginOp, StoreError("storage.users.GetByLogin")))
      ensures !faults.read && !LoginTaken(st.users.rows, input.login) ==> r == Err(UserNotFound)
      ensures !faults.read && LoginTaken(st.users.rows, input.login) ==>
        var u := FindByLogin(st.users.rows, input.login).value;
        r == if !hasher.compare(u.passwordHash, input.password) then Err(InvalidPassword)
             else if faults.write || sessionId in old(st.sessions.rows) then Err(Wrapped(LoginOp, StoreError("storage.sessions.Create")))
             else Ok(LoginOutput(GenerateAccessTokenAsWritten(signer, Claims(u.id, sessionId, now))))
      ensures r.Ok? ==>
        && LoginTaken(st.users.rows, input.login)
        && var u := FindByLogin(st.users.rows, input.login).value;
           st.sessions.rows == old(st.sessions.rows)[sessionId := Session(sessionId, u.id, input.userAgent, now)]
      ensures r.Err? ==> st.sessions.rows == old(st.sessions.rows)
    {
      var found := st.users.GetByLogin(input.login, faults.read);
      if found.Err? {
        return Err(Wrapped(LoginOp, found.error));
      }
      if found.value.None? {
        return Err(UserNotFound);
      }
      var user := found.value.value;
      if !hasher.compare(user.passwordHash, input.password) {
        return Err(InvalidPassword);
      }
      var session := Session(sessionId, user.id, input.userAgent, now);
      var token := GenerateAccessTokenAsWritten(signer, Claims(user.id, session.id, session.createdAt));
      var created := st.sessions.Create(session, faults.write);
      if created.Err? {
        return Err(Wrapped(LoginOp, created.error));
      }
      return Ok(LoginOutput(token));
    }

    /** `Logout`: the session is deleted, whether or not it existed. */
    method Logout(sessionId: Uuid, faults: Faults) returns (r: Result<()>)
      modifies st.sessions
      ensures r.Ok? <==> !faults.write
      ensures r.Ok? ==> st.sessions.rows == old(st.sessions.rows) - {sessionId}
      ensures r.Err? ==>
        r.error == Wrapped(LogoutOp, StoreError("storage.sessions.Delete")) && st.sessions.rows == old(st.sessions.rows)
    {
      var deleted := st.sessions.Delete(sessionId, faults.write);
      if deleted.Err? {
        return Err(Wrapped(LogoutOp, deleted.error));
      }
      return Ok(());
    }

    /** `ChangePassword`: the old password must verify; then only the stored
        hash changes, to the hash of the new password. The looked-up user is
        dereferenced without a nil check, so the user must exist unless the
        lookup fails. */
    method ChangePassword(input: ChangePasswordInput, salt: nat, faults: Faults) returns (r: Result<()>)
      requires Valid()
      requires faults.read || input.userId in st.users.rows
      modifies st.users
      ensures Valid()
      ensures faults.read ==> r == Err(Wrapped(ChangePasswordOp, StoreError("storage.users.GetByID")))
      ensures !faults.read ==>
        var u := old(st.users.rows)[input.userId];
        r == if !hasher.compare(u.passwordHash, input.oldPassword) then Err(InvalidPassword)
             else if hasher.generate(input.newPassword, salt).None? then Err(Wrapped(ChangePasswordOp, HashError))
             else if faults.write then Err(Wrapped(ChangePasswordOp, StoreError("storage.users.Update")))
             else Ok(())
      ensures r.Ok? ==>
        st.users.rows == old(st.users.rows)[input.userId :=
          old(st.users.rows)[input.userId].(passwordHash := hasher.generate(input.newPassword, salt).value)]
      ensures r.Ok? ==> hasher.compare(st.users.rows[input.userId].passwordHash, input.newPassword)
      ensures r.Err? ==> st.users.rows == old(st.users.rows)
    {
      var found := st.users.GetByID(input.userId, faults.read);
      if found.Err? {
        return Err(Wrapped(ChangePasswordOp, found.error));
      }
      var user := found.value.value;
      if !hasher.compare(user.passwordHash, input.oldPassword) {
        return Err(InvalidPassword);
      }
      var hash := hasher.generate(input.newPassword, salt);
      if hash.None? {
        return Err(Wrapped(ChangePasswordOp, HashError));
      }
      user := user.(passwordHash := hash.value);
      var updated := st.users.Update(user, faults.write);
      if updated.Err? {
        return Err(Wrapped(ChangePasswordOp, updated.error));
      }
      return Ok(());
    }
  }
}
