/** `UserCreationForm` of the admin site: the repeated-password check and how
    the form saves the account. The form does not go through `create_user`,
    so no age check runs on this path. */
module UserAdmin {
  import opened Common
  import opened Api
  import opened UserModels

  /** The two messages `clean_password2` can raise. */
  datatype FormError = PleaseConfirm | MustMatch

  /** `clean_password2`: both entries must be truthy, then equal; the
      confirmation is returned. */
  function CleanPassword2(password1: Option<string>, password2: Option<string>): (r: Result<string, FormError>)
    ensures !Truthy(password1) || !Truthy(password2) ==> r == Err(PleaseConfirm)
    ensures Truthy(password1) && Truthy(password2) && password1 != password2 ==> r == Err(MustMatch)
    ensures r.Ok? <==> Truthy(password1) && Truthy(password2) && password1 == password2
    ensures r.Ok? ==> r.value == password2.value
  {
    if !Truthy(password1) || !Truthy(password2) then Err(PleaseConfirm)
    else if password1 != password2 then Err(MustMatch)
    else Ok(password2.value)
  }

  /** Once the form is clean, `password1` is the password that was returned. */
  lemma CleanedPasswordsAgree(password1: Option<string>, password2: Option<string>)
    requires CleanPassword2(password1, password2).Ok?
    ensures password1 == Some(CleanPassword2(password1, password2).value)
  {
  }

  /** The model fields the form edits. */
  datatype CreationForm = CreationForm(username: string, birthDate: Day, canBeContacted: bool, canDataBeShared: bool)

  /** `super().save(commit=False)`: an unsaved account with the model's defaults. */
  function FormInstance(form: CreationForm): User
  {
    User(form.username, form.birthDate, form.canBeContacted, form.canDataBeShared, false, true, false, Blank)
  }

  /** `save`: the password comes from `password1`, and the account is stored
      only when `commit` is set (and the username is free). */
  method Save(manager: UserManager, form: CreationForm, password1: string, commit: bool)
    returns (user: User, saved: Option<UserId>)
    requires manager.Valid()
    modifies manager
    ensures manager.Valid()
    ensures user == FormInstance(form).(password := PasswordSetTo(password1))
    ensures !commit ==> saved == None && unchanged(manager)
    ensures commit && old(manager.TakenByOther(form.username, None)) ==> saved == None && unchanged(manager)
    ensures commit && !old(manager.TakenByOther(form.username, None)) ==>
              && saved == Some(old(manager.nextId))
              && manager.users == old(manager.users)[old(manager.nextId) := user]
  {
    user := FormInstance(form);
    user := user.(password := SetPassword(Some(password1)));
    saved := None;
    if commit {
      var r := manager.Insert(user);
      if r.Ok? {
        saved := Some(r.value);
      }
    }
  }
}
