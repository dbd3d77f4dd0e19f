/** `UserSerializer`: the age check on the birth date, the password
    confirmation rule, and how create and update treat the two password
    fields. */
module UserSerializers {
  import opened Common
  import opened Api
  import opened UserModels
  import UserPermissions

  /** A user payload; a missing key is `None`. */
  datatype UserPayload = UserPayload(
    username: Option<string>,
    password: Option<string>,
    passwordConfirmation: Option<string>,
    birthDate: Option<Day>,
    isStaff: Option<bool>,
    canBeContacted: Option<bool>,
    canDataBeShared: Option<bool>,
    isActive: Option<bool>)

  /** `validate_birth_date`: the same day-count rule as `create_user`. */
  function ValidateBirthDate(value: Day, today: Day): (r: Result<Day, ApiError>)
    ensures r.Ok? <==> OldEnough(value, today)
    ensures r.Ok? ==> r.value == value
    ensures r.Err? ==> r.error == ValidationError({"birth_date"})
  {
    if today - value < 15 * 365 then Err(ValidationError({"birth_date"})) else Ok(value)
  }

  /** The serializer and the manager accept the same birth dates. */
  lemma BirthDateRuleMatchesCreateUser(username: string, value: Day, today: Day)
    requires username != ""
    ensures ValidateBirthDate(value, today).Ok? <==> CheckNewUser(username, Some(value), today).Pass?
  {
  }

  /** `validate`: a payload carrying a password must carry the same password
      as its confirmation; a payload without a password passes unchanged. */
  function Validate(data: UserPayload): (r: Result<UserPayload, ApiError>)
    ensures data.password.None? ==> r == Ok(data)
    ensures data.password.Some? && data.passwordConfirmation.None? ==> r.Err?
    ensures data.password.Some? && data.passwordConfirmation.Some? ==>
              (r.Ok? <==> data.password.value == data.passwordConfirmation.value)
    ensures r.Ok? ==> r.value == data
    ensures r.Err? ==> r.error == ValidationError({})
  {
    if data.password.Some? then
      if data.passwordConfirmation.None? then Err(ValidationError({}))
      else if data.password.value != data.passwordConfirmation.value then Err(ValidationError({}))
      else Ok(data)
    else Ok(data)
  }

  /** The two `pop`s: both password fields leave the attribute data, and
      nothing else changes. */
  function WithoutPasswords(data: UserPayload): (r: UserPayload)
    ensures r.password.None? && r.passwordConfirmation.None?
    ensures r.(password := data.password, passwordConfirmation := data.passwordConfirmation) == data
  {
    data.(password := None, passwordConfirmation := None)
  }

  /** Why the serializer's `create` fails: the remaining attributes do not fit
      `create_user`'s parameters (a Python `TypeError`), or `create_user` raises. */
  datatype CreateFailure = BadArguments | Raised(error: UserError)

  /** `create_user(password=..., **attrs)` binds: each of its four parameters
      is supplied and no other keyword is. */
  predicate BindsToCreateUser(attrs: UserPayload)
  {
    && attrs.username.Some? && attrs.birthDate.Some?
    && attrs.canBeContacted.Some? && attrs.canDataBeShared.Some?
    && attrs.isStaff.None? && attrs.isActive.None?
  }

  /** `create`: the password is taken out of the attributes and handed to
      `create_user` on its own; the confirmation is dropped. The password is
      a required field, so it is always present here. */
  method Create(manager: UserManager, data: UserPayload, today: Day) returns (r: Result<UserId, CreateFailure>)
    requires manager.Valid()
    requires data.password.Some?
    modifies manager
    ensures manager.Valid()
    ensures !BindsToCreateUser(WithoutPasswords(data)) ==> r == Err(BadArguments) && unchanged(manager)
    ensures BindsToCreateUser(WithoutPasswords(data)) ==>
              var check := CheckNewUser(data.username.value, data.birthDate, today);
              && (check.Fail? ==> r == Err(Raised(check.error)) && unchanged(manager))
              && (check.Pass? && old(manager.TakenByOther(data.username.value, None)) ==>
                    r == Err(Raised(UsernameTaken)) && unchanged(manager))
              && (check.Pass? && !old(manager.TakenByOther(data.username.value, None)) ==>
                    && r == Ok(old(manager.nextId))
                    && manager.users == old(manager.users)[old(manager.nextId) :=
                         NewUser(data.username.value, data.birthDate.value, data.canBeContacted.value,
                                 data.canDataBeShared.value, data.password)])
  {
    var password := data.password;
    var attrs := WithoutPasswords(data);
    if !BindsToCreateUser(attrs) {
      return Err(BadArguments);
    }
    var created := manager.CreateUser(attrs.username.value, attrs.birthDate, attrs.canBeContacted.value,
                                      attrs.canDataBeShared.value, password, today);
    r := match created
      case Ok(id) => Ok(id)
      case Err(e) => Err(Raised(e));
  }

  /** `super().update`: the attributes present are written as they are. */
  function AssignAttributes(u: User, attrs: UserPayload): User
  {
    u.(username := if attrs.username.Some? then attrs.username.value else u.username,
       birthDate := if attrs.birthDate.Some? then attrs.birthDate.value else u.birthDate,
       isStaff := if attrs.isStaff.Some? then attrs.isStaff.value else u.isStaff,
       canBeContacted := if attrs.canBeContacted.Some? then attrs.canBeContacted.value else u.canBeContacted,
       canDataBeShared := if attrs.canDataBeShared.Some? then attrs.canDataBeShared.value else u.canDataBeShared,
       isActive := if attrs.isActive.Some? then attrs.isActive.value else u.isActive)
  }

  /** The account after `update`: a new password only when both password
      fields are truthy, then the remaining attributes. */
  function UpdatedUser(u: User, data: UserPayload): User
  {
    var withPassword := if Truthy(data.password) && Truthy(data.passwordConfirmation)
                        then u.(password := SetPassword(data.password)) else u;
    AssignAttributes(withPassword, WithoutPasswords(data))
  }

  /** The password changes only through `set_password`, and only when both
      fields are truthy; `is_superuser` is never written. */
  lemma UpdateTouchesPasswordOnlyWhenConfirmed(u: User, data: UserPayload)
    ensures UpdatedUser(u, data).password
            == if Truthy(data.password) && Truthy(data.passwordConfirmation)
               then PasswordSetTo(data.password.value) else u.password
    ensures UpdatedUser(u, data).isSuperuser == u.isSuperuser
  {
  }

  /** After `validate`, a non-empty password always becomes the new password. */
  lemma ValidatedPasswordIsSet(u: User, data: UserPayload)
    requires Validate(data).Ok? && Truthy(data.password)
    ensures UpdatedUser(u, data).password == PasswordSetTo(data.password.value)
  {
  }

  /** `is_staff` is a writable field, and `IsSelfOrAdmin` lets any account
      update itself: a plain account can raise its own staff flag and with it
      its elevation. */
  lemma SelfUpdateCanRaiseStaff(id: UserId, u: User)
    requires !u.isStaff && !u.isSuperuser
    ensures var who := Authenticated(id, u.isStaff, u.isSuperuser);
            var data := UserPayload(None, None, None, None, Some(true), None, None, None);
            && UserPermissions.IsSelfOrAdminHasObjectPermission(who, id)
            && !IsElevated(who)
            && UpdatedUser(u, data).isStaff
            && IsElevated(Authenticated(id, UpdatedUser(u, data).isStaff, UpdatedUser(u, data).isSuperuser))
  {
  }

  /** `update`: writes the password first when both fields are truthy, then
      the other attributes, and saves the account. */
  method Update(manager: UserManager, id: UserId, data: UserPayload) returns (ok: bool)
    requires manager.Valid() && id in manager.users
    modifies manager
    ensures manager.Valid() && manager.nextId == old(manager.nextId)
    ensures ok == !old(manager.TakenByOther(UpdatedUser(manager.users[id], data).username, Some(id)))
    ensures manager.users == if ok then old(manager.users)[id := UpdatedUser(old(manager.users[id]), data)]
                             else old(manager.users)
  {
    var password := data.password;
    var confirmation := data.passwordConfirmation;
    var attrs := WithoutPasswords(data);
    var instance := manager.users[id];
    if Truthy(password) && Truthy(confirmation) {
      instance := instance.(password := SetPassword(password));
    }
    instance := AssignAttributes(instance, attrs);
    ok := manager.Put(id, instance);
  }
}
