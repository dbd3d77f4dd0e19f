/** The custom `User` model and its manager: the validation chain of
    `create_user`, the flags `create_superuser` raises, and the unique
    username the table enforces. */
module UserModels {
  import opened Common
  import opened Api

  /** The minimum age, counted in days rather than calendar years. */
  const MinAgeDays := 15 * 365

  /** `(today - birth_date).days >= 15 * 365` */
  predicate OldEnough(birthDate: Day, today: Day)
  {
    today - birthDate >= MinAgeDays
  }

  /** The stored password, with the one-way hash left opaque: only which raw
      password was last set is recorded. */
  datatype Credential =
    | Blank                      // the column's value before any `set_password`
    | Unusable                   // `set_password(None)`
    | PasswordSetTo(raw: string)

  /** `set_password(raw)` */
  function SetPassword(raw: Option<string>): Credential
  {
    if raw.Some? then PasswordSetTo(raw.value) else Unusable
  }

  /** A user account; its key is the key of the users table. */
  datatype User = User(
    username: string,
    birthDate: Day,
    canBeContacted: bool,
    canDataBeShared: bool,
    isStaff: bool,
    isActive: bool,
    isSuperuser: bool,
    password: Credential)

  /** Why a user cannot be created: the three `ValueError`s of `create_user`,
      and the table's unique constraint on the username. */
  datatype UserError = MissingUsername | MissingBirthDate | UnderAge | UsernameTaken

  /** The checks of `create_user`, in order; the first that fails decides the
      error. An empty username stands for any falsy username. */
  function CheckNewUser(username: string, birthDate: Option<Day>, today: Day): (r: Outcome<UserError>)
    ensures username == "" ==> r == Fail(MissingUsername)
    ensures username != "" && birthDate.None? ==> r == Fail(MissingBirthDate)
    ensures username != "" && birthDate.Some? ==>
              (r.Pass? <==> OldEnough(birthDate.value, today)) && (r.Fail? ==> r.error == UnderAge)
  {
    if username == "" then Fail(MissingUsername)
    else if birthDate.None? then Fail(MissingBirthDate)
    else if today - birthDate.value < 15 * 365 then Fail(UnderAge)
    else Pass
  }

  /** Exactly the well-formed, old-enough inputs pass. */
  lemma CheckNewUserPasses(username: string, birthDate: Option<Day>, today: Day)
    ensures CheckNewUser(username, birthDate, today).Pass?
            <==> username != "" && birthDate.Some? && OldEnough(birthDate.value, today)
  {
  }

  /** The account `create_user` builds from valid arguments: the model's
      defaults (`is_staff` false, `is_active` true, `is_superuser` false) and
      the given password. */
  function NewUser(username: string, birthDate: Day, canBeContacted: bool, canDataBeShared: bool,
                   password: Option<string>): User
  {
    User(username, birthDate, canBeContacted, canDataBeShared, false, true, false, SetPassword(password))
  }

  /** No two accounts share a username. */
  ghost predicate UsernamesUnique(users: map<UserId, User>)
  {
    forall a, b :: a in users && b in users && users[a].username == users[b].username ==> a == b
  }

  function IsActiveUser(users: map<UserId, User>, id: UserId): bool
  {
    id in users && users[id].isActive
  }

  /** The users table together with `UserManager`; `nextId` is the next key
      the table hands out. */
  class UserManager {
    var users: map<UserId, User>
    var nextId: UserId

    ghost predicate Valid()
      reads this
    {
      && (forall id :: id in users ==> id < nextId)
      && UsernamesUnique(users)
    }

    constructor ()
      ensures Valid() && users == map[] && nextId == 1
    {
      users := map[];
      nextId := 1;
    }

    /** Some account other than `except` already has this username. */
    function TakenByOther(name: string, except: Option<UserId>): bool
      reads this
    {
      exists id :: id in users && users[id].username == name && Some(id) != except
    }

    /** `save()` of a new account: the unique constraint on the username may refuse it. */
    method Insert(u: User) returns (r: Result<UserId, UserError>)
      requires Valid()
      modifies this
      ensures Valid()
      ensures old(TakenByOther(u.username, None)) ==> r == Err(UsernameTaken) && unchanged(this)
      ensures !old(TakenByOther(u.username, None)) ==>
                && r == Ok(old(nextId))
                && users == old(users)[old(nextId) := u]
                && nextId == old(nextId) + 1
    {
      if TakenByOther(u.username, None) {
        return Err(UsernameTaken);
      }
      r := Ok(nextId);
      users := users[nextId := u];
      nextId := nextId + 1;
    }

    /** `save()` of an existing account. */
    method Put(id: UserId, u: User) returns (ok: bool)
      requires Valid() && id in users
      modifies this
      ensures Valid() && nextId == old(nextId)
      ensures ok == !old(TakenByOther(u.username, Some(id)))
      ensures users == if ok then old(users)[id := u] else old(users)
    {
      ok := !TakenByOther(u.username, Some(id));
      if ok {
        users := users[id := u];
      }
    }

    /** `create_user`: validates, builds the account, sets its password and saves it. */
    method CreateUser(username: string, birthDate: Option<Day>, canBeContacted: bool,
                      canDataBeShared: bool, password: Option<string>, today: Day)
      returns (r: Result<UserId, UserError>)
      requires Valid()
      modifies this
      ensures Valid()
      ensures CheckNewUser(username, birthDate, today).Fail? ==>
                r == Err(CheckNewUser(username, birthDate, today).error) && unchanged(this)
      ensures CheckNewUser(username, birthDate, today).Pass? && old(TakenByOther(username, None)) ==>
                r == Err(UsernameTaken) && unchanged(this)
      ensures CheckNewUser(username, birthDate, today).Pass? && !old(TakenByOther(username, None)) ==>
                && r == Ok(old(nextId))
                && users == old(users)[old(nextId) := NewUser(username, birthDate.value, canBeContacted,
                                                                canDataBeShared, password)]
                && nextId == old(nextId) + 1
    {
      if username == "" {
        return Err(MissingUsername);
      }
      if birthDate.None? {
        return Err(MissingBirthDate);
      }
      if today - birthDate.value < 15 * 365 {
        return Err(UnderAge);
      }
      var user := User(username, birthDate.value, canBeContacted, canDataBeShared, false, true, false, Blank);
      user := user.(password := SetPassword(password));
      r := Insert(user);
    }

    /** `create_superuser`: `create_user`, then both role flags raised and saved again. */
    method CreateSuperuser(username: string, birthDate: Option<Day>, canBeContacted: bool,
                           canDataBeShared: bool, password: Option<string>, today: Day)
      returns (r: Result<UserId, UserError>)
      requires Valid()
      modifies this
      ensures Valid()
      ensures CheckNewUser(username, birthDate, today).Fail? ==>
                r == Err(CheckNewUser(username, birthDate, today).error) && unchanged(this)
      ensures CheckNewUser(username, birthDate, today).Pass? && old(TakenByOther(username, None)) ==>
                r == Err(UsernameTaken) && unchanged(this)
      ensures CheckNewUser(username, birthDate, today).Pass? && !old(TakenByOther(username, None)) ==>
                && r == Ok(old(nextId))
                && users == old(users)[old(nextId) := NewUser(username, birthDate.value, canBeContacted,
                                                                canDataBeShared, password)
                                                        .(isStaff := true, isSuperuser := true)]
                && nextId == old(nextId) + 1
    {
      r := CreateUser(username, birthDate, canBeContacted, canDataBeShared, password, today);
      if r.Ok? {
        var id := r.value;
        var user := users[id];
        user := user.(isStaff := true, isSuperuser := true);
        var saved := Put(id, user);
        assert saved;
      }
    }
  }
}
