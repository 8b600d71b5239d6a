/**
 * The sign-up dialog (src/components/auth/signup-modal.tsx): the debounced
 * "is this email taken" check, and the three-valued `emailExists` guard on
 * submit.
 */
module SignUpModal {
  import opened Wrappers
  import opened Text

  const AlreadyRegistered := "Этот email уже зарегистрирован"
  const StillChecking := "Проверка email..."
  const CheckFailedText := "Ошибка проверки email"
  const RegisteredText := "Регистрация успешна! Теперь войдите в систему."
  const RegisterFailedText := "Ошибка регистрации"
  const RegisterThrownText := "Произошла ошибка при регистрации"

  /** `text || fallback` for an optional string field of a reply. */
  function OrDefault(text: Option<string>, fallback: string): string {
    if text.Some? && text.value != "" then text.value else fallback
  }

  /** The check-email reply: `ok`, the `exists` flag (`taken`) and the `error` text of its body, or a thrown fetch or parse. */
  datatype CheckReply = CheckAnswered(ok: bool, taken: bool, error: Option<string>) | CheckThrown

  /** The register reply: `ok`, the `message` and `error` texts of its body, or a thrown fetch or parse. */
  datatype RegisterReply = RegisterAnswered(ok: bool, message: Option<string>, error: Option<string>) | RegisterThrown

  datatype RegisterBody = RegisterBody(name: string, email: string, password: string)

  /**
   * The submit guard on `emailExists`: a known-taken address is refused, an
   * unchecked non-blank one waits; registration goes ahead for an address
   * known to be free, or for a blank one (the server then judges it).
   */
  predicate MayRegister(emailExists: Option<bool>, email: string) {
    emailExists == Some(false) || (emailExists.None? && IsBlank(email))
  }

  /** The guard's three values, case by case. */
  lemma MayRegisterCases(emailExists: Option<bool>, email: string)
    ensures emailExists == Some(true) ==> !MayRegister(emailExists, email)
    ensures emailExists == Some(false) ==> MayRegister(emailExists, email)
    ensures emailExists.None? ==> (MayRegister(emailExists, email) <==> IsBlank(email))
  {
  }

  class Dialog {
    var name: string
    var email: string
    var password: string
    var isLoading: bool
    var error: string
    var success: string
    var emailExists: Option<bool>
    var checkingEmail: bool
    /** The value the pending 500 ms check will send, while one is scheduled. */
    var pendingCheck: Option<string>

    constructor ()
      ensures name == "" && email == "" && password == "" && !isLoading && error == "" && success == ""
      ensures emailExists.None? && !checkingEmail && pendingCheck.None?
    {
      name := "";
      email := "";
      password := "";
      isLoading := false;
      error := "";
      success := "";
      emailExists := None;
      checkingEmail := false;
      pendingCheck := None;
    }

    /** The effect on closing: the pending check is cancelled and the check state and messages reset; the fields stay. */
    method Close()
      modifies this`emailExists, this`checkingEmail, this`error, this`success, this`pendingCheck
      ensures emailExists.None? && !checkingEmail && error == "" && success == "" && pendingCheck.None?
    {
      pendingCheck := None;
      emailExists := None;
      checkingEmail := false;
      error := "";
      success := "";
    }

    /** `handleEmailChange`: the field takes the value, the earlier verdict and error are dropped, a check is scheduled. */
    method EmailChanged(newEmail: string)
      modifies this`email, this`emailExists, this`error, this`pendingCheck
      ensures email == newEmail && emailExists.None? && error == "" && pendingCheck == Some(newEmail)
    {
      email := newEmail;
      emailExists := None;
      error := "";
      pendingCheck := Some(newEmail);
    }

    /** The scheduled check's timer: a blank value is never sent. */
    method CheckFired() returns (toCheck: Option<string>)
      requires pendingCheck.Some?
      modifies this`pendingCheck
      ensures pendingCheck.None?
      ensures toCheck.Some? <==> !IsBlank(old(pendingCheck).value)
      ensures toCheck.Some? ==> toCheck.value == old(pendingCheck).value
    {
      var v := pendingCheck.value;
      pendingCheck := None;
      toCheck := if !IsBlank(v) then Some(v) else None;
    }

    /**
     * `checkEmailExists`: with an `ok` reply the verdict is stored and the error
     * says whether the address is taken; otherwise the error shows the reply's
     * text or the default. The reply is applied whatever the field now holds:
     * nothing ties it to the current value.
     */
    method CheckEmailExists(emailToCheck: string, reply: CheckReply)
      modifies this`emailExists, this`error, this`checkingEmail
      ensures IsBlank(emailToCheck) ==>
                emailExists == old(emailExists) && error == old(error) && checkingEmail == old(checkingEmail)
      ensures !IsBlank(emailToCheck) ==> !checkingEmail
      ensures !IsBlank(emailToCheck) && reply.CheckAnswered? && reply.ok ==>
                emailExists == Some(reply.taken) && error == (if reply.taken then AlreadyRegistered else "")
      ensures !IsBlank(emailToCheck) && !(reply.CheckAnswered? && reply.ok) ==>
                emailExists == old(emailExists)
                && error == (if reply.CheckAnswered? then OrDefault(reply.error, CheckFailedText) else CheckFailedText)
    {
      if IsBlank(emailToCheck) {
        return;
      }
      checkingEmail := true;
      match reply {
        case CheckAnswered(ok, taken, err) =>
          if ok {
            emailExists := Some(taken);
            if taken {
              error := AlreadyRegistered;
            } else {
              error := "";
            }
          } else {
            error := OrDefault(err, CheckFailedText);
          }
        case CheckThrown =>
          error := CheckFailedText;
      }
      checkingEmail := false;
    }

    /**
     * `handleSubmit`. The body goes out exactly when `MayRegister` holds; after
     * a successful registration the fields are cleared and the dialog hands
     * over to sign-in (`switched`).
     */
    method Submit(reply: RegisterReply) returns (request: Option<RegisterBody>, switched: bool)
      modifies this`name, this`email, this`password, this`isLoading, this`error, this`success
      modifies this`emailExists, this`checkingEmail
      ensures !isLoading
      ensures request.Some? <==> MayRegister(old(emailExists), old(email))
      ensures request.Some? ==> request.value == RegisterBody(old(name), old(email), old(password))
      ensures old(emailExists) == Some(true) ==> error == AlreadyRegistered && success == ""
      ensures old(emailExists).None? && !IsBlank(old(email)) ==> error == StillChecking && success == ""
      ensures request.None? || !(reply.RegisterAnswered? && reply.ok) ==>
                name == old(name) && email == old(email) && password == old(password)
                && emailExists == old(emailExists) && checkingEmail == old(checkingEmail) && !switched
      ensures request.Some? && reply.RegisterAnswered? && reply.ok ==>
                name == "" && email == "" && password == "" && emailExists.None? && !checkingEmail
                && success == OrDefault(reply.message, RegisteredText) && error == "" && switched
      ensures request.Some? && reply.RegisterAnswered? && !reply.ok ==>
                error == OrDefault(reply.error, RegisterFailedText) && success == ""
      ensures request.Some? && reply.RegisterThrown? ==> error == RegisterThrownText && success == ""
    {
      isLoading := true;
      error := "";
      success := "";
      switched := false;
      if emailExists == Some(true) {
        error := AlreadyRegistered;
        isLoading := false;
        return None, false;
      }
      if emailExists.None? && !IsBlank(email) {
        error := StillChecking;
        isLoading := false;
        return None, false;
      }
      assert emailExists != Some(true);
      assert emailExists.Some? ==> !emailExists.value;
      request := Some(RegisterBody(name, email, password));
      match reply {
        case RegisterAnswered(ok, message, err) =>
          if ok {
            success := OrDefault(message, RegisteredText);
            name := "";
            email := "";
            password := "";
            emailExists := None;
            checkingEmail := false;
            switched := true;
          } else {
            error := OrDefault(err, RegisterFailedText);
          }
        case RegisterThrown =>
          error := RegisterThrownText;
      }
      isLoading := false;
    }
  }
}
