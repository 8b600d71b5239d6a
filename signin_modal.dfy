/**
 * The sign-in dialog (src/components/auth/signin-modal.tsx): the email format
 * hint, the submit guard and what the sign-in outcome does to the dialog.
 */
module SignInModal {
  import opened Wrappers
  import opened Text

  // ---------------------------------------------------------------------------
  // The pattern /^[^\s@]+@[^\s@]+\.[^\s@]+$/
  // ---------------------------------------------------------------------------

  /** A run matched by `[^\s@]+`: non-empty, with neither white space nor '@'. */
  predicate Plain(t: string) {
    t != [] && forall k :: 0 <= k < |t| ==> !IsSpace(t[k]) && t[k] != '@'
  }

  /** The pattern matches with its '@' at `i` and its '.' at `j`. */
  predicate SplitsAt(s: string, i: int, j: int) {
    0 <= i < j < |s| && s[i] == '@' && s[j] == '.'
    && Plain(s[..i]) && Plain(s[i + 1..j]) && Plain(s[j + 1..])
  }

  /** `emailRegex.test(s)`: the anchored pattern matches for some choice of the '@' and the '.'. */
  predicate EmailPattern(s: string) {
    exists i, j | 0 <= i < j < |s| :: SplitsAt(s, i, j)
  }

  /** The only '@' of `s` is at `i`. */
  predicate OnlyAt(s: string, i: int) {
    0 <= i < |s| && s[i] == '@' && forall k :: 0 <= k < |s| && k != i ==> s[k] != '@'
  }

  /** The domain after the '@' at `i` has a '.' that is neither its first nor its last character. */
  predicate InnerDot(s: string, i: int, j: int) {
    0 <= i && i + 1 < j < |s| - 1 && s[j] == '.'
  }

  /**
   * What the pattern accepts, in plain terms: no white space, exactly one '@'
   * with a non-empty part before it, and a '.' inside the domain.
   */
  predicate LooksLikeEmail(s: string) {
    && (forall k :: 0 <= k < |s| ==> !IsSpace(s[k]))
    && exists i | 0 <= i < |s| :: OnlyAt(s, i) && i > 0 && exists j | 0 <= j < |s| :: InnerDot(s, i, j)
  }

  /** The pattern accepts exactly the strings described by `LooksLikeEmail`. */
  lemma PatternIff(s: string)
    ensures EmailPattern(s) <==> LooksLikeEmail(s)
  {
    if EmailPattern(s) {
      var i, j :| 0 <= i < j < |s| && SplitsAt(s, i, j);
      forall k | 0 <= k < |s|
        ensures !IsSpace(s[k]) && (k != i ==> s[k] != '@')
      {
        if k < i {
          assert s[k] == s[..i][k];
        } else if i < k < j {
          assert s[k] == s[i + 1..j][k - i - 1];
        } else if j < k {
          assert s[k] == s[j + 1..][k - j - 1];
        }
      }
      assert OnlyAt(s, i) && InnerDot(s, i, j);
    }
    if LooksLikeEmail(s) {
      var i :| 0 <= i < |s| && OnlyAt(s, i) && i > 0 && exists j | 0 <= j < |s| :: InnerDot(s, i, j);
      var j :| 0 <= j < |s| && InnerDot(s, i, j);
      assert Plain(s[..i]);
      var b, c := s[i + 1..j], s[j + 1..];
      forall k | 0 <= k < |b| ensures !IsSpace(b[k]) && b[k] != '@' {
        assert b[k] == s[i + 1 + k];
      }
      forall k | 0 <= k < |c| ensures !IsSpace(c[k]) && c[k] != '@' {
        assert c[k] == s[j + 1 + k];
      }
      assert SplitsAt(s, i, j);
    }
  }

  /** The pattern is loose: it takes "a@b.c" and "a.b@c.d", but not "a@b", "@b.c", "a@.b", "a@b." or "a b@c.d". */
  lemma PatternExamples()
    ensures EmailPattern("a@b.c") && EmailPattern("a.b@c.d")
    ensures !EmailPattern("a@b") && !EmailPattern("@b.c") && !EmailPattern("a@.b") && !EmailPattern("a@b.")
    ensures !EmailPattern("a b@c.d")
  {
    assert SplitsAt("a@b.c", 1, 3);
    assert "a.b@c.d"[..3] == "a.b";
    assert SplitsAt("a.b@c.d", 3, 5);
    PatternIff("a@b");
    PatternIff("@b.c");
    PatternIff("a@.b");
    PatternIff("a@b.");
    PatternIff("a b@c.d");
    assert IsSpace("a b@c.d"[1]);
  }

  // ---------------------------------------------------------------------------
  // The dialog
  // ---------------------------------------------------------------------------

  const FormatHint := "Неверный формат email"
  const EnterValidEmail := "Введите корректный email"
  const BadCredentials := "Неверный email или пароль"
  const SignInFailed := "Произошла ошибка при входе"

  /** What `signIn("credentials", ...)` gave: a result with or without an `error`, or a thrown call. */
  datatype SignInOutcome = Resolved(hasError: bool) | Thrown

  /** The submit guard: `emailRegex.test(email.trim())`. */
  predicate FormatOk(email: string) {
    EmailPattern(Trim(email))
  }

  datatype Credentials = Credentials(email: string, password: string)

  class Dialog {
    var email: string
    var password: string
    var isLoading: bool
    var error: string
    var emailMessage: string
    var emailMessageIsError: bool
    /** The value the pending 1.5 s check will test, while one is scheduled. */
    var pendingCheck: Option<string>

    constructor ()
      ensures email == "" && password == "" && !isLoading && error == ""
      ensures emailMessage == "" && !emailMessageIsError && pendingCheck.None?
    {
      email := "";
      password := "";
      isLoading := false;
      error := "";
      emailMessage := "";
      emailMessageIsError := false;
      pendingCheck := None;
    }

    /** The effect on closing: the pending check is cancelled and the messages cleared; the fields stay. */
    method Close()
      modifies this`error, this`emailMessage, this`emailMessageIsError, this`pendingCheck
      ensures error == "" && emailMessage == "" && !emailMessageIsError && pendingCheck.None?
    {
      pendingCheck := None;
      error := "";
      emailMessage := "";
      emailMessageIsError := false;
    }

    /** `validateEmailFormat`: a blank value clears the hint; otherwise the hint shows iff the trimmed value fails the pattern. */
    method ValidateEmailFormat(value: string)
      modifies this`emailMessage, this`emailMessageIsError
      ensures IsBlank(value) ==> emailMessage == "" && !emailMessageIsError
      ensures !IsBlank(value) ==>
                (emailMessageIsError <==> !EmailPattern(Trim(value)))
                && emailMessage == (if emailMessageIsError then FormatHint else "")
    {
      if IsBlank(value) {
        emailMessage := "";
        emailMessageIsError := false;
        return;
      }
      if !EmailPattern(Trim(value)) {
        emailMessage := FormatHint;
        emailMessageIsError := true;
      } else {
        emailMessage := "";
        emailMessageIsError := false;
      }
    }

    /** `handleEmailChange`: the field takes the value, the error clears at once, and a check is (re)scheduled. */
    method EmailChanged(newEmail: string)
      modifies this`email, this`error, this`pendingCheck
      ensures email == newEmail && error == "" && pendingCheck == Some(newEmail)
    {
      email := newEmail;
      error := "";
      pendingCheck := Some(newEmail);
    }

    /** The scheduled check runs: the latest typed value is validated. */
    method CheckFired()
      requires pendingCheck.Some?
      modifies this`emailMessage, this`emailMessageIsError, this`pendingCheck
      ensures pendingCheck.None?
      ensures var v := old(pendingCheck).value;
        && (IsBlank(v) ==> emailMessage == "" && !emailMessageIsError)
        && (!IsBlank(v) ==> (emailMessageIsError <==> !EmailPattern(Trim(v))))
    {
      var v := pendingCheck.value;
      pendingCheck := None;
      if !IsBlank(v) {
        ValidateEmailFormat(v);
      } else {
        emailMessage := "";
        emailMessageIsError := false;
      }
    }

    /**
     * `handleSubmit`. The pattern is tested on the trimmed email, but the
     * credentials carry the email as typed. `closed` says whether `onClose` ran.
     */
    method Submit(outcome: SignInOutcome) returns (sent: Option<Credentials>, closed: bool)
      modifies this`isLoading, this`error
      ensures !isLoading
      ensures !FormatOk(email) ==> sent.None? && !closed && error == EnterValidEmail
      ensures FormatOk(email) ==> sent == Some(Credentials(email, password))
      ensures sent.Some? ==>
                (closed <==> outcome == Resolved(false))
                && error == (match outcome
                             case Resolved(e) => if e then BadCredentials else ""
                             case Thrown => SignInFailed)
    {
      var typed := email;
      var formatOk := FormatOk(typed);
      isLoading := true;
      error := "";
      if !formatOk {
        error := EnterValidEmail;
        isLoading := false;
        return None, false;
      }
      sent := Some(Credentials(typed, password));
      closed := ApplyOutcome(outcome);
      isLoading := false;
    }

    /** What the outcome of the sent request does: close on success, otherwise show its error. */
    method ApplyOutcome(outcome: SignInOutcome) returns (closed: bool)
      modifies this`error
      ensures closed <==> outcome == Resolved(false)
      ensures error == (match outcome
                        case Resolved(e) => if e then BadCredentials else old(error)
                        case Thrown => SignInFailed)
    {
      closed := false;
      match outcome {
        case Resolved(hasError) =>
          if hasError {
            error := BadCredentials;
          } else {
            closed := true;
          }
        case Thrown =>
          error := SignInFailed;
      }
    }
  }

  /** A string that neither starts nor ends with white space is its own trim. */
  lemma TrimOfTrimmed(s: string)
    requires s != [] && !IsSpace(s[0]) && !IsSpace(s[|s| - 1])
    ensures Trim(s) == s
  {
    assert TrimStart(s) == s;
    assert TrimEnd(s) == s;
  }

  /**
   * The guard tests the trimmed value, so an address typed with a space in
   * front passes it, and is sent with that space still in it, although the
   * pattern itself rejects what is sent.
   */
  lemma PaddedEmailPassesGuard(s: string)
    requires EmailPattern(s)
    ensures EmailPattern(Trim(" " + s)) && !EmailPattern(" " + s)
  {
    var e := " " + s;
    assert Trim(e) == s by {
      assert !IsSpace(s[0]) && !IsSpace(s[|s| - 1]) by {
        PatternIff(s);
      }
      assert e[1] == s[0] && e[1..] == s;
      assert Lead(e, 1) == 1;
      assert Lead(e, 0) == 1;
      assert TrimEnd(s) == s;
    }
    forall i, j | 0 <= i < j < |e| ensures !SplitsAt(e, i, j) {
      if i > 0 {
        assert e[..i][0] == ' ';
      }
    }
  }
}
