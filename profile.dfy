/** The profile service of `internal/services/user`: read, update and delete
    of the caller's own user row. Each operation uses the looked-up user
    without checking that one was found, so each requires the user to exist
    unless the lookup itself fails. */
module Profile {
  import opened Common
  import opened Uuids
  import opened Times
  import opened Stores

  /** `GetProfileOutput`: neither the password hash nor the status. */
  datatype ProfileOutput = ProfileOutput(login: string, firstName: string, timezone: string, createdAt: Time)

  datatype UpdateProfileInput = UpdateProfileInput(userId: Uuid, firstName: string, timezone: string)

  const GetProfileOp := "services.user.GetProfile"
  const UpdateProfileOp := "services.user.UpdateProfile"
  const DeleteProfileOp := "services.user.DeleteProfile"

  /** The profile shown for a user. */
  function ProfileOf(u: User): (p: ProfileOutput)
    ensures p.login == u.login && p.firstName == u.firstName
    ensures p.timezone == u.timezone && p.createdAt == u.createdAt
  {
    ProfileOutput(u.login, u.firstName, u.timezone, u.createdAt)
  }

  /** The row a profile update writes: new name and timezone, all else kept. */
  function WithProfile(u: User, input: UpdateProfileInput): (v: User)
    ensures v.firstName == input.firstName && v.timezone == input.timezone
    ensures v.id == u.id && v.login == u.login && v.passwordHash == u.passwordHash
    ensures v.status == u.status && v.createdAt == u.createdAt
  {
    u.(firstName := input.firstName, timezone := input.timezone)
  }

  /** Two users with the same login, name, timezone and creation time show
      the same profile, whatever their hashes and statuses. */
  lemma ProfileHidesSecrets(u: User, v: User)
    requires u.login == v.login && u.firstName == v.firstName
    requires u.timezone == v.timezone && u.createdAt == v.createdAt
    ensures ProfileOf(u) == ProfileOf(v)
  {
  }

  class ProfileService {
    const st: Storage

    constructor (st: Storage)
      ensures this.st == st
    {
      this.st := st;
    }

    method GetProfile(userId: Uuid, faults: Faults) returns (r: Result<ProfileOutput>)
      requires faults.read || userId in st.users.rows
      ensures r.Ok? <==> !faults.read
      ensures r.Err? ==> r.error == Wrapped(GetProfileOp, StoreError("storage.users.GetByID"))
      ensures r.Ok? ==> r.value == ProfileOf(st.users.rows[userId])
    {
      var found := st.users.GetByID(userId, faults.read);
      if found.Err? {
        return Err(Wrapped(GetProfileOp, found.error));
      }
      var user := found.value.value;
      return Ok(ProfileOf(user));
    }

    /** `GetProfile` with the missing check on the looked-up user added: a
        user that no longer exists is `ErrUserNotFound`, as in `Login`,
        rather than a nil dereference. It answers every input. */
    method GetProfileChecked(userId: Uuid, faults: Faults) returns (r: Result<ProfileOutput>)
      ensures r ==
        if faults.read then Err(Wrapped(GetProfileOp, StoreError("storage.users.GetByID")))
        else if userId !in st.users.rows then Err(Wrapped(GetProfileOp, UserNotFound))
        else Ok(ProfileOf(st.users.rows[userId]))
    {
      var found := st.users.GetByID(userId, faults.read);
      if found.Err? {
        return Err(Wrapped(GetProfileOp, found.error));
      }
      if found.value.None? {
        return Err(Wrapped(GetProfileOp, UserNotFound));
      }
      var user := found.value.value;
      return Ok(ProfileOf(user));
    }

    /** `UpdateProfile`: only the name and the timezone of the user change. */
    method UpdateProfile(input: UpdateProfileInput, faults: Faults) returns (r: Result<()>)
      requires UsersValid(st.users.rows)
      requires faults.read || input.userId in st.users.rows
      modifies st.users
      ensures UsersValid(st.users.rows)
      ensures r ==
        if faults.read then Err(Wrapped(UpdateProfileOp, StoreError("storage.users.GetByID")))
        else if faults.write then Err(Wrapped(UpdateProfileOp, StoreError("storage.users.Update")))
        else Ok(())
      ensures r.Ok? ==>
        st.users.rows == old(st.users.rows)[input.userId := WithProfile(old(st.users.rows)[input.userId], input)]
      ensures r.Err? ==> st.users.rows == old(st.users.rows)
    {
      var found := st.users.GetByID(input.userId, faults.read);
      if found.Err? {
        return Err(Wrapped(UpdateProfileOp, found.error));
      }
      var user := found.value.value;
      user := user.(firstName := input.firstName, timezone := input.timezone);
      var updated := st.users.Update(user, faults.write);
      if updated.Err? {
        return Err(Wrapped(UpdateProfileOp, updated.error));
      }
      return Ok(());
    }

    /** `DeleteProfile`: the user row is removed; sessions and notes are not
        touched. */
    method DeleteProfile(userId: Uuid, faults: Faults) returns (r: Result<()>)
      requires UsersValid(st.users.rows)
      requires faults.read || userId in st.users.rows
      modifies st.users
      ensures UsersValid(st.users.rows)
      ensures r ==
        if faults.read then Err(Wrapped(DeleteProfileOp, StoreError("storage.users.GetByID")))
        else if faults.write then Err(Wrapped(DeleteProfileOp, StoreError("storage.users.Delete")))
        else Ok(())
      ensures r.Ok? ==> st.users.rows == old(st.users.rows) - {userId}
      ensures r.Err? ==> st.users.rows == old(st.users.rows)
      ensures st.sessions.rows == old(st.sessions.rows) && st.notes.rows == old(st.notes.rows)
    {
      var found := st.users.GetByID(userId, faults.read);
      if found.Err? {
        return Err(Wrapped(DeleteProfileOp, found.error));
      }
      var user := found.value.value;
      var deleted := st.users.Delete(user.id, faults.write);
      if deleted.Err? {
        return Err(Wrapped(DeleteProfileOp, deleted.error));
      }
      return Ok(());
    }
  }
}
