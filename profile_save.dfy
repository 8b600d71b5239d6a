/**
 * The profile page and `PUT /api/profile` together: what the page sends after
 * its own checks, and how it shows what the route answers.
 */
module ProfileSave {
  import opened Wrappers
  import opened Text
  import opened Json
  import opened Users
  import ProfilePage
  import opened ProfileRoute

  /** The page's body as the route destructures it: an omitted key reads as `undefined`, and no image is sent. */
  function AsPutBody(b: ProfilePage.SaveBody): PutBody {
    PutBody(Str(b.name),
            if b.currentPassword.Some? then Str(b.currentPassword.value) else Undefined,
            if b.newPassword.Some? then Str(b.newPassword.value) else Undefined,
            Undefined)
  }

  /**
   * A form the page lets through passes every check of the route except the
   * one only the server can make, the current password's hash: for a signed-in,
   * stored user whose password matches (or who changes no password) the update
   * goes through, and the stored name is the one the page then shows.
   */
  lemma ValidFormIsAccepted(name: string, current: string, newPassword: string, confirm: string,
                            store: Store, sessionUserId: Option<string>, compare: Compare, hash: Hash)
    requires ProfilePage.FormErrors(name, current, newPassword, confirm) == map[]
    requires Authorized(sessionUserId) && sessionUserId.value in store
    requires newPassword != "" ==> compare(current, StoredHash(store[sessionUserId.value]))
    ensures var body := AsPutBody(ProfilePage.RequestBody(name, current, newPassword));
      && PutSucceeds(store, sessionUserId, Some(body), compare, true)
      && ApplyUpdate(store[sessionUserId.value], UpdateOf(body, hash)).name == Some(Trim(name))
      && (newPassword == "" ==> ApplyUpdate(store[sessionUserId.value], UpdateOf(body, hash)).password
                                == store[sessionUserId.value].password)
  {
    ProfilePage.ValidFormBody(name, current, newPassword, confirm);
    var body := AsPutBody(ProfilePage.RequestBody(name, current, newPassword));
    assert !IsBlank(body.name.s);
  }

  /**
   * Each 400 answer of the password block mentions "пароль", so the page puts
   * it under the current-password field rather than in a notification.
   */
  lemma PasswordErrorsGoToField()
    ensures Includes(CurrentRequired, "пароль")
    ensures Includes(WrongCurrent, "пароль")
    ensures Includes(NewTooShort, "пароль")
  {
    MentionsPassword(CurrentRequired, 8);
    MentionsPassword(WrongCurrent, 8);
    MentionsPassword(NewTooShort, 6);
  }

  lemma MentionsPassword(s: string, i: nat)
    requires i + 6 <= |s| && s[i..i + 6] == "пароль"
    ensures Includes(s, "пароль")
  {
    assert OccursAt(s, "пароль", i);
    IncludesIff(s, "пароль");
  }

  /** In particular a wrong current password ends up as the field's error text. */
  lemma WrongPasswordShownAtField(errors: map<string, string>, notice: Option<ProfilePage.Notice>,
                                  before: Option<ProfilePage.Notice>)
    requires ProfilePage.ServerErrorShown(ProfilePage.Answered(false, Str(WrongCurrent)), errors, notice, before)
    ensures errors == map["currentPassword" := WrongCurrent] && notice == before
  {
    PasswordErrorsGoToField();
  }
}
