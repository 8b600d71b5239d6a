/**
 * The profile page (src/app/profile/page.tsx): the client-side rules of the
 * save form, the request it sends, what an answer does to the page, and the
 * avatar initials.
 */
module ProfilePage {
  import opened Wrappers
  import opened Text
  import opened Json

  /** The profile as `GET /api/profile` returns it. */
  datatype Profile = Profile(id: string, name: Option<string>, email: string, image: Option<string>, createdAt: string)

  datatype NoticeKind = Success | Failure

  /** The notification modal's contents while it is open. */
  datatype Notice = Notice(kind: NoticeKind, title: string, message: string)

  const Saved := Notice(Success, "Успех", "Профиль успешно обновлен")
  const LoadFailed := Notice(Failure, "Ошибка", "Ошибка при загрузке профиля")
  const SaveFailedText := "Ошибка при сохранении профиля"

  const NameRequired := "Имя обязательно"
  const CurrentRequired := "Текущий пароль обязателен для смены пароля"
  const TooShort := "Пароль должен содержать минимум 6 символов"
  const Mismatch := "Пароли не совпадают"

  // ---------------------------------------------------------------------------
  // Validation and the request body
  // ---------------------------------------------------------------------------

  /**
   * The errors the form reports, all together, keyed by field: a blank name;
   * and, only when a new password is typed, a missing current password, a new
   * password shorter than 6 and a confirmation that differs.
   */
  function FormErrors(name: string, current: string, newPassword: string, confirm: string): (r: map<string, string>)
    ensures r.Keys <= {"name", "currentPassword", "newPassword", "confirmPassword"}
  {
    var e := if IsBlank(name) then map["name" := NameRequired] else map[];
    if newPassword == "" then e
    else
      var e := if current == "" then e["currentPassword" := CurrentRequired] else e;
      var e := if |newPassword| < 6 then e["newPassword" := TooShort] else e;
      if newPassword != confirm then e["confirmPassword" := Mismatch] else e
  }

  lemma FormErrorsSpec(name: string, current: string, newPassword: string, confirm: string)
    ensures var r := FormErrors(name, current, newPassword, confirm);
    && ("name" in r <==> IsBlank(name))
    && ("currentPassword" in r <==> newPassword != "" && current == "")
    && ("newPassword" in r <==> newPassword != "" && |newPassword| < 6)
    && ("confirmPassword" in r <==> newPassword != "" && newPassword != confirm)
    && (r.Keys <= {"name", "currentPassword", "newPassword", "confirmPassword"})
    && ("name" in r ==> r["name"] == NameRequired)
    && ("currentPassword" in r ==> r["currentPassword"] == CurrentRequired)
    && ("newPassword" in r ==> r["newPassword"] == TooShort)
    && ("confirmPassword" in r ==> r["confirmPassword"] == Mismatch)
  {
  }

  /** Without a new password only the name is checked: the password fields cannot block a save. */
  lemma PasswordRulesNeedNewPassword(name: string, current: string, confirm: string)
    ensures FormErrors(name, current, "", confirm) == map[] <==> !IsBlank(name)
  {
    var r := FormErrors(name, current, "", confirm);
    FormErrorsSpec(name, current, "", confirm);
    if !IsBlank(name) {
      assert r.Keys == {};
    }
  }

  /** The JSON body of the PUT; `None` is a key `JSON.stringify` leaves out (its value was `undefined`). */
  datatype SaveBody = SaveBody(name: string, currentPassword: Option<string>, newPassword: Option<string>)

  function RequestBody(name: string, current: string, newPassword: string): (r: SaveBody)
    ensures r.currentPassword.Some? <==> r.newPassword.Some?
    ensures r.newPassword.Some? ==> r.newPassword.value != ""
  {
    SaveBody(Trim(name),
             if newPassword != "" then Some(current) else None,
             if newPassword != "" then Some(newPassword) else None)
  }

  /**
   * A body the form lets through already meets the rules it checked: a
   * non-blank trimmed name, and a new password, when there is one, of at least
   * 6 characters sent together with a non-empty current password. With no new
   * password neither password key is sent.
   */
  lemma ValidFormBody(name: string, current: string, newPassword: string, confirm: string)
    requires FormErrors(name, current, newPassword, confirm) == map[]
    ensures var b := RequestBody(name, current, newPassword);
      && b.name != "" && Trim(b.name) == b.name
      && (b.newPassword.Some? <==> b.currentPassword.Some?)
      && (b.newPassword.Some? ==> |b.newPassword.value| >= 6 && b.currentPassword.value != ""
                                  && b.newPassword.value == confirm)
      && (b.newPassword.None? <==> newPassword == "")
  {
    var r := FormErrors(name, current, newPassword, confirm);
    FormErrorsSpec(name, current, newPassword, confirm);
    assert "name" !in r && "currentPassword" !in r && "newPassword" !in r && "confirmPassword" !in r;
    TrimIdempotent(name);
  }

  // ---------------------------------------------------------------------------
  // getInitials
  // ---------------------------------------------------------------------------

  /** `.map((n) => n[0]).join("")`: each part's first character; an empty part gives nothing. */
  function Heads(parts: seq<string>): (r: string)
    ensures |r| <= |parts|
    decreases |parts|
  {
    if parts == [] then ""
    else (if parts[0] == "" then "" else [parts[0][0]]) + Heads(parts[1..])
  }

  /** `getInitials`: "U" for a null or empty name, otherwise the upper-cased first characters of the words. */
  function Initials(name: Option<string>): string {
    if name.None? || name.value == "" then "U"
    else Upper(Heads(Split(name.value, ' ')))
  }

  /**
   * The reference reading of "first characters of the words": the characters
   * other than a space that start the string (when `atStart`) or follow a space.
   */
  function WordStarts(s: string, afterSpace: bool): string
    decreases |s|
  {
    if s == [] then ""
    else (if s[0] != ' ' && afterSpace then [s[0]] else "") + WordStarts(s[1..], s[0] == ' ')
  }

  /** The parts after the first space begin exactly at the word starts that follow a space. */
  lemma {:induction false} HeadsOfLaterParts(s: string)
    ensures Heads(Split(s, ' ')[1..]) == WordStarts(s, false)
    decreases |s|
  {
    if s != [] {
      var rest := Split(s[1..], ' ');
      HeadsOfLaterParts(s[1..]);
      if s[0] == ' ' {
        assert Split(s, ' ')[1..] == rest;
        var t := s[1..];
        if t != [] {
          assert rest[0] == [] || rest[0][0] == t[0] by {
            if t[0] != ' ' {
              assert rest[0][0] == t[0];
            }
          }
          assert rest[0] == [] <==> t[0] == ' ';
          assert Heads(rest) == (if rest[0] == "" then "" else [rest[0][0]]) + Heads(rest[1..]);
        }
      } else {
        assert Split(s, ' ')[1..] == rest[1..];
      }
    }
  }

  lemma HeadsAreWordStarts(s: string)
    requires s != ""
    ensures Heads(Split(s, ' ')) == WordStarts(s, true)
  {
    var parts := Split(s, ' ');
    HeadsOfLaterParts(s);
    assert Heads(parts) == (if parts[0] == "" then "" else [parts[0][0]]) + Heads(parts[1..]);
    assert WordStarts(s, true) == (if s[0] != ' ' then [s[0]] else "") + WordStarts(s[1..], s[0] == ' ');
    assert WordStarts(s, false) == WordStarts(s[1..], s[0] == ' ');
    if s[0] == ' ' {
      assert parts[0] == "";
    } else {
      assert parts[0][0] == s[0];
    }
  }

  /** The initials are the word starts of the name, upper-cased; extra spaces add nothing. */
  lemma InitialsAreWordStarts(s: string)
    requires s != ""
    ensures Initials(Some(s)) == Upper(WordStarts(s, true))
  {
    HeadsAreWordStarts(s);
  }

  /** The avatar never goes blank except for a name made only of spaces. */
  lemma InitialsEmptyOnlyForSpaces(s: string)
    requires s != "" && s[0] != ' '
    ensures |Initials(Some(s))| >= 1
  {
    InitialsAreWordStarts(s);
  }

  // ---------------------------------------------------------------------------
  // The page
  // ---------------------------------------------------------------------------

  /** The GET made on load: the profile, or a non-ok or thrown request. */
  datatype FetchReply = Fetched(profile: Profile) | FetchFailed

  /**
   * The PUT's outcome: a response with its `ok` flag and the `error` field of
   * its JSON body, or `Failed` for a thrown fetch or a body that is not JSON.
   */
  datatype SaveReply = Answered(ok: bool, error: Value) | Failed

  class Page {
    var profile: Option<Profile>
    var name: string
    var currentPassword: string
    var newPassword: string
    var confirmPassword: string
    var errors: map<string, string>
    var isLoading: bool
    var isSaving: bool
    var notice: Option<Notice>

    constructor ()
      ensures profile.None? && name == "" && currentPassword == "" && newPassword == "" && confirmPassword == ""
      ensures errors == map[] && isLoading && !isSaving && notice.None?
    {
      profile := None;
      name := "";
      currentPassword := "";
      newPassword := "";
      confirmPassword := "";
      errors := map[];
      isLoading := true;
      isSaving := false;
      notice := None;
    }

    /** `fetchProfile`: the name field takes `data.name || ""`; a failure only shows a notification. */
    method FetchProfile(reply: FetchReply)
      modifies this`profile, this`name, this`notice, this`isLoading
      ensures !isLoading
      ensures reply.Fetched? ==>
                profile == Some(reply.profile) && name == reply.profile.name.GetOr("") && notice == old(notice)
      ensures reply.FetchFailed? ==> profile == old(profile) && name == old(name) && notice == Some(LoadFailed)
    {
      match reply {
        case Fetched(p) =>
          profile := Some(p);
          name := if p.name.Some? then p.name.value else "";
        case FetchFailed =>
          notice := Some(LoadFailed);
      }
      isLoading := false;
    }

    /**
     * `handleSaveProfile`. `sessionUpdateOk` is whether NextAuth's `update`
     * resolved; when it throws, the page has already taken the new name and
     * cleared the password fields, and the generic error is shown.
     */
    method SaveProfile(reply: SaveReply, sessionUpdateOk: bool) returns (request: Option<SaveBody>)
      modifies this`profile, this`currentPassword, this`newPassword, this`confirmPassword
      modifies this`errors, this`isSaving, this`notice
      ensures !isSaving && name == old(name)
      ensures var errs := FormErrors(old(name), old(currentPassword), old(newPassword), old(confirmPassword));
        && (request.Some? <==> errs == map[])
        && (request.Some? ==> request.value == RequestBody(old(name), old(currentPassword), old(newPassword)))
        && (errs != map[] ==> errors == errs && notice == old(notice) && profile == old(profile)
                              && currentPassword == old(currentPassword) && newPassword == old(newPassword)
                              && confirmPassword == old(confirmPassword))
      ensures request.Some? && OkReply(reply) ==> SavedState(old(profile), name, sessionUpdateOk)
      ensures request.Some? && !OkReply(reply) ==>
                profile == old(profile) && currentPassword == old(currentPassword)
                && newPassword == old(newPassword) && confirmPassword == old(confirmPassword)
                && ServerErrorShown(reply, errors, notice, old(notice))
    {
      isSaving := true;
      errors := map[];
      var newErrors := CollectErrors(name, currentPassword, newPassword, confirmPassword);
      if |newErrors.Keys| > 0 {
        errors := newErrors;
        isSaving := false;
        request := None;
        return;
      }
      assert newErrors.Keys == {};
      request := Some(RequestBody(name, currentPassword, newPassword));
      ApplyReply(reply, sessionUpdateOk);
      isSaving := false;
    }

    /** The state a successful save leaves: the trimmed name in the profile, the password fields cleared. */
    ghost predicate SavedState(before: Option<Profile>, formName: string, sessionUpdateOk: bool)
      reads this
    {
      && errors == map[]
      && profile == (if before.Some? then Some(before.value.(name := Some(Trim(formName)))) else None)
      && currentPassword == "" && newPassword == "" && confirmPassword == ""
      && notice == Some(if sessionUpdateOk then Saved else Notice(Failure, "Ошибка", SaveFailedText))
    }

    /** What the page does with the PUT's answer, from `const data = await response.json()` on. */
    method ApplyReply(reply: SaveReply, sessionUpdateOk: bool)
      requires errors == map[]
      modifies this`profile, this`currentPassword, this`newPassword, this`confirmPassword
      modifies this`errors, this`notice
      ensures OkReply(reply) ==> SavedState(old(profile), name, sessionUpdateOk)
      ensures !OkReply(reply) ==>
                profile == old(profile) && currentPassword == old(currentPassword)
                && newPassword == old(newPassword) && confirmPassword == old(confirmPassword)
                && ServerErrorShown(reply, errors, notice, old(notice))
    {
      if OkReply(reply) {
        ApplySuccess(sessionUpdateOk);
      } else {
        ApplyFailure(reply);
      }
    }

    /** `response.ok`: the profile takes the trimmed name and the password fields are cleared. */
    method ApplySuccess(sessionUpdateOk: bool)
      requires errors == map[]
      modifies this`profile, this`currentPassword, this`newPassword, this`confirmPassword, this`notice
      ensures SavedState(old(profile), name, sessionUpdateOk)
    {
      if profile.Some? {
        profile := Some(profile.value.(name := Some(Trim(name))));
      }
      currentPassword := "";
      newPassword := "";
      confirmPassword := "";
      if sessionUpdateOk {
        notice := Some(Saved);
      } else {
        notice := Some(Notice(Failure, "Ошибка", SaveFailedText));
      }
    }

    /** A non-ok answer or a thrown request: only the error slots change. */
    method ApplyFailure(reply: SaveReply)
      requires errors == map[] && !OkReply(reply)
      modifies this`errors, this`notice
      ensures ServerErrorShown(reply, errors, notice, old(notice))
    {
      if reply.Answered? && reply.error.Str? {
        var text := reply.error.s;
        if Includes(text, "пароль") {
          errors := map["currentPassword" := text];
        } else {
          notice := Some(Notice(Failure, "Ошибка", if text != "" then text else SaveFailedText));
        }
      } else {
        // A thrown request, or `data.error.includes` on a missing or non-string field.
        notice := Some(Notice(Failure, "Ошибка", SaveFailedText));
      }
    }
  }

  /** The validation block of `handleSaveProfile`, building the error record field by field. */
  method CollectErrors(name: string, current: string, newPassword: string, confirm: string)
    returns (newErrors: map<string, string>)
    ensures newErrors == FormErrors(name, current, newPassword, confirm)
  {
    newErrors := map[];
    if IsBlank(name) {
      newErrors := newErrors["name" := NameRequired];
    }
    if newPassword != "" {
      if current == "" {
        newErrors := newErrors["currentPassword" := CurrentRequired];
      }
      if |newPassword| < 6 {
        newErrors := newErrors["newPassword" := TooShort];
      }
      if newPassword != confirm {
        newErrors := newErrors["confirmPassword" := Mismatch];
      }
    }
  }

  predicate OkReply(reply: SaveReply) {
    reply.Answered? && reply.ok
  }

  /**
   * Where a failed save is reported: an error text mentioning "пароль" goes
   * under the current-password field, any other text (or the default for an
   * empty one) to the notification; a thrown request or a missing error
   * field shows the default notification.
   */
  predicate ServerErrorShown(reply: SaveReply, errors: map<string, string>, notice: Option<Notice>, before: Option<Notice>) {
    match reply
    case Failed => errors == map[] && notice == Some(Notice(Failure, "Ошибка", SaveFailedText))
    case Answered(ok, error) =>
      if error.Str? && Includes(error.s, "пароль") then
        errors == map["currentPassword" := error.s] && notice == before
      else if error.Str? then
        errors == map[] && notice == Some(Notice(Failure, "Ошибка", if error.s != "" then error.s else SaveFailedText))
      else
        errors == map[] && notice == Some(Notice(Failure, "Ошибка", SaveFailedText))
  }

  /**
   * An empty error text never reaches the password field: it falls through to
   * the default notification, because "" contains no "пароль".
   */
  lemma EmptyServerErrorIsGeneric(errors: map<string, string>, notice: Option<Notice>, before: Option<Notice>)
    requires ServerErrorShown(Answered(false, Str("")), errors, notice, before)
    ensures errors == map[] && notice == Some(Notice(Failure, "Ошибка", SaveFailedText))
  {
    assert !StartsWith("", "пароль");
  }
}
