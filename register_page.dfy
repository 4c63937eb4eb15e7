/** The registration page's logic: the username sanitiser, the gate in
    front of the debounced availability check, the error list the check
    result updates, and the submit gate with its error mapping.  The page's
    state is a `RegisterForm` whose methods are the page's handlers. */
module RegisterPage {
  import opened Common
  import opened Strings
  import opened Validation
  import opened Effects
  import opened ProcessAuth

  // ---------------------------------------------------------------------
  // The username sanitiser

  /** The longest username the input keeps. */
  const MaxUsername: nat := 20

  /** `s.replace(/[^a-zA-Z0-9_.-]/g, '')`. */
  function KeepNameChars(s: string): (r: string)
    ensures |r| <= |s|
    ensures forall i :: 0 <= i < |r| ==> IsNameChar(r[i])
    ensures forall c :: c in r <==> c in s && IsNameChar(c)
  {
    if s == [] then [] else (if IsNameChar(s[0]) then [s[0]] else []) + KeepNameChars(s[1..])
  }

  /** The characters a sanitised username is made of: `[a-z0-9_.-]`. */
  predicate IsSanitisedChar(c: char)
  {
    IsLower(c) || IsDigit(c) || IsNameSymbol(c)
  }

  /** What the input holds after a keystroke: the allowed characters in
      their order, lowercased, cut to 20.  Only ASCII survives the filter,
      so ASCII lowercasing and code-point lengths are exact here. */
  function Sanitised(s: string): (r: string)
    ensures |r| <= MaxUsername
    ensures forall i :: 0 <= i < |r| ==> IsSanitisedChar(r[i])
    ensures |r| == if |KeepNameChars(s)| > MaxUsername then MaxUsername else |KeepNameChars(s)|
    ensures r == Lower(KeepNameChars(s))[..|r|]
  {
    var v := Lower(KeepNameChars(s));
    if |v| > MaxUsername then v[..MaxUsername] else v
  }

  /** The filter keeps the order: it distributes over concatenation and
      keeps exactly the allowed characters of a one-character string. */
  lemma {:induction false} KeepNameCharsAppend(a: string, b: string)
    ensures KeepNameChars(a + b) == KeepNameChars(a) + KeepNameChars(b)
    decreases |a|
  {
    if a == [] {
      assert a + b == b;
    } else {
      assert (a + b)[0] == a[0];
      assert (a + b)[1..] == a[1..] + b;
      KeepNameCharsAppend(a[1..], b);
    }
  }

  /** A string of allowed characters passes the filter unchanged. */
  lemma {:induction false} KeepNameCharsOfNameChars(s: string)
    requires forall i :: 0 <= i < |s| ==> IsNameChar(s[i])
    ensures KeepNameChars(s) == s
    decreases |s|
  {
    if s != [] {
      KeepNameCharsOfNameChars(s[1..]);
    }
  }

  /** Filtering and lowercasing commute: lowercasing neither adds nor
      removes an allowed character. */
  lemma {:induction false} KeepNameCharsLower(s: string)
    ensures KeepNameChars(Lower(s)) == Lower(KeepNameChars(s))
    decreases |s|
  {
    if s != [] {
      var l := Lower(s);
      assert l == [LowerChar(s[0])] + Lower(s[1..]);
      assert l[0] == LowerChar(s[0]) && l[1..] == Lower(s[1..]);
      KeepNameCharsLower(s[1..]);
      var head := if IsNameChar(s[0]) then [s[0]] else [];
      assert KeepNameChars(s) == head + KeepNameChars(s[1..]);
      assert Lower(head + KeepNameChars(s[1..])) == Lower(head) + Lower(KeepNameChars(s[1..])) by {
        LowerAppend(head, KeepNameChars(s[1..]));
      }
    }
  }

  /** Lowercasing distributes over concatenation. */
  lemma LowerAppend(a: string, b: string)
    ensures Lower(a + b) == Lower(a) + Lower(b)
  {
    assert forall i :: 0 <= i < |a + b| ==> Lower(a + b)[i] == (Lower(a) + Lower(b))[i];
  }

  /** Sanitising twice is sanitising once. */
  lemma {:induction false} SanitisedIdempotent(s: string)
    ensures Sanitised(Sanitised(s)) == Sanitised(s)
  {
    var t := Sanitised(s);
    KeepNameCharsOfNameChars(t);
    assert forall i :: 0 <= i < |t| ==> Lower(t)[i] == t[i];
  }

  /** A non-empty sanitised username never fails the validator's length
      limit or its character set. */
  lemma {:induction false} SanitisedPassesCharset(s: string)
    requires Sanitised(s) != []
    ensures !ViolatesUsername(Sanitised(s), NameTooLong)
    ensures !ViolatesUsername(Sanitised(s), NameCharset)
  {
  }

  // ---------------------------------------------------------------------
  // The availability check

  /** `handleUsernameChange` schedules the debounced check when the
      validator reports no errors and the name has at least 3 characters. */
  predicate ScheduleGate(value: string)
  {
    UsernameResult(value).errors == [] && |value| >= 3
  }

  /** The debounced check itself goes on to the server only for a
      non-empty name of at least 3 characters with no validator errors. */
  predicate CheckProceeds(username: string)
  {
    !(username == [] || |username| < 3) && UsernameResult(username).errors == []
  }

  /** The two gates agree, and both are `validateUsername`'s verdict. */
  lemma {:induction false} GatesAgree(username: string)
    ensures ScheduleGate(username) <==> CheckProceeds(username)
    ensures ScheduleGate(username) <==> UsernameResult(username).isValid
  {
  }

  /** The fragment every "already used" message contains. */
  const UsedFragment: string := "既に使用されています"

  /** `err.includes('既に使用されています')`. */
  predicate MentionsUsed(m: Message)
  {
    Contains(Text(m), UsedFragment)
  }

  /** The message the check result adds contains the fragment. */
  lemma UsernameTakenMentionsUsed()
    ensures MentionsUsed(UsernameTaken)
  {
    assert OccursAt(Text(UsernameTaken), UsedFragment, 8);
  }

  /** `[...prev.username, 'このユーザー名は既に使用されています']`. */
  function AddUsedError(errors: seq<Message>): (r: seq<Message>)
    ensures |r| == |errors| + 1 && r[..|errors|] == errors && r[|errors|] == UsernameTaken
  {
    errors + [UsernameTaken]
  }

  /** `errors.filter(keep)`: the messages `keep` accepts, in their order. */
  function FilterMessages(errors: seq<Message>, keep: Message -> bool): (r: seq<Message>)
    ensures |r| <= |errors|
    ensures forall i :: 0 <= i < |r| ==> keep(r[i])
    ensures forall m :: m in r <==> m in errors && keep(m)
  {
    if errors == [] then []
    else (if keep(errors[0]) then [errors[0]] else []) + FilterMessages(errors[1..], keep)
  }

  /** The filter keeps the order: it distributes over concatenation. */
  lemma {:induction false} FilterMessagesAppend(a: seq<Message>, b: seq<Message>, keep: Message -> bool)
    ensures FilterMessages(a + b, keep) == FilterMessages(a, keep) + FilterMessages(b, keep)
    decreases |a|
  {
    if a == [] {
      assert a + b == b;
    } else {
      assert (a + b)[0] == a[0];
      assert (a + b)[1..] == a[1..] + b;
      FilterMessagesAppend(a[1..], b, keep);
    }
  }

  /** A list whose every message is accepted is kept as it is. */
  lemma {:induction false} FilterMessagesKeepsAll(errors: seq<Message>, keep: Message -> bool)
    requires forall i :: 0 <= i < |errors| ==> keep(errors[i])
    ensures FilterMessages(errors, keep) == errors
    decreases |errors|
  {
    if errors != [] {
      FilterMessagesKeepsAll(errors[1..], keep);
    }
  }

  /** The messages without the fragment. */
  predicate NotUsed(m: Message)
  {
    !MentionsUsed(m)
  }

  /** `prev.username.filter((err) => !err.includes('既に使用されています'))`. */
  function ClearUsedErrors(errors: seq<Message>): (r: seq<Message>)
    ensures |r| <= |errors|
    ensures forall i :: 0 <= i < |r| ==> !MentionsUsed(r[i])
    ensures forall m :: m in r <==> m in errors && !MentionsUsed(m)
  {
    FilterMessages(errors, NotUsed)
  }

  /** The removal keeps the order of the messages it keeps. */
  lemma ClearUsedErrorsAppend(a: seq<Message>, b: seq<Message>)
    ensures ClearUsedErrors(a + b) == ClearUsedErrors(a) + ClearUsedErrors(b)
  {
    FilterMessagesAppend(a, b, NotUsed);
  }

  /** A list without an "already used" message is kept as it is. */
  lemma ClearUsedErrorsKeepsOthers(errors: seq<Message>)
    requires forall i :: 0 <= i < |errors| ==> !MentionsUsed(errors[i])
    ensures ClearUsedErrors(errors) == errors
  {
    FilterMessagesKeepsAll(errors, NotUsed);
  }

  /** A name reported taken and then available ends with the list it had
      before the first report, less any "already used" message. */
  lemma {:induction false} TakenThenAvailable(errors: seq<Message>)
    ensures ClearUsedErrors(AddUsedError(errors)) == ClearUsedErrors(errors)
  {
    ClearUsedErrorsAppend(errors, [UsernameTaken]);
    UsernameTakenMentionsUsed();
    assert ClearUsedErrors([UsernameTaken]) == [];
  }

  /** The line under the username field. */
  datatype CheckMessage =
    | NoCheckMessage      // ''
    | Checking            // 'ユーザー名を確認中...'
    | ServerMessage(text: string)
    | CheckComplete       // 'チェック完了'
    | CheckFailedMessage  // 'チェックに失敗しました'

  /** `response.isAvailable ?? null`: a failed check's `{ error }` has no
      `isAvailable`. */
  function Availability(response: CheckResult): (r: Option<bool>)
    ensures r.Some? <==> response.Checked?
    ensures response.Checked? ==> r == Some(response.isAvailable)
  {
    match response
    case Checked(b, _) => Some(b)
    case CheckFailed(_) => None
  }

  /** `response.message || 'チェック完了'` as written: a failed check's
      `{ error }` has no `message` either, so it reads as complete. */
  function CheckMessageAsWritten(response: CheckResult): (r: CheckMessage)
    ensures response.Checked? && response.message != [] ==> r == ServerMessage(response.message)
    ensures response.Checked? && response.message == [] ==> r == CheckComplete
    ensures response.CheckFailed? ==> r == CheckComplete
  {
    match response
    case Checked(_, message) => if message != [] then ServerMessage(message) else CheckComplete
    case CheckFailed(_) => CheckComplete
  }

  /** The message evidently intended: a failed check says so. */
  function CheckMessageFor(response: CheckResult): (r: CheckMessage)
    ensures r == CheckFailedMessage <==> response.CheckFailed?
    ensures r != NoCheckMessage && r != Checking
    ensures response.Checked? && response.message != [] ==> r == ServerMessage(response.message)
    ensures response.Checked? && response.message == [] ==> r == CheckComplete
  {
    match response
    case Checked(_, message) => if message != [] then ServerMessage(message) else CheckComplete
    case CheckFailed(_) => CheckFailedMessage
  }

  /** A check that failed at the server is reported as complete; the
      branches that say "failed" are unreachable because
      `checkUsernameAvailability` always resolves to an object. */
  lemma FailedCheckReadsComplete(username: string, f: Failure)
    ensures CheckMessageAsWritten(CheckUsernameAvailability(username, Rejected(f))) == CheckComplete
    ensures CheckMessageFor(CheckUsernameAvailability(username, Rejected(f))) == CheckFailedMessage
  {
  }

  /** The error list after a check result: a taken name adds the message,
      an available one clears every "already used" message, a failed check
      leaves the list alone. */
  function ErrorsAfterCheck(errors: seq<Message>, response: CheckResult): (r: seq<Message>)
    ensures Availability(response) == Some(false) ==> r == AddUsedError(errors)
    ensures Availability(response) == Some(true) ==> r == ClearUsedErrors(errors)
    ensures Availability(response).None? ==> r == errors
  {
    match Availability(response)
    case Some(b) => if b then ClearUsedErrors(errors) else AddUsedError(errors)
    case None => errors
  }

  // ---------------------------------------------------------------------
  // Submitting

  /** The banner above the form. */
  datatype SubmitError =
    | NoSubmitError      // ''
    | NameUnavailable    // 'このユーザー名は既に使用されています'
    | SessionExpired     // 'セッションが期限切れです。ページを再読み込みしてください'
    | RegisterFailed     // '登録に失敗しました。再試行してください'

  /** The banner for a rejected registration: the error's `type` first,
      then the CSRF literal read with optional chaining, then the generic
      text. */
  function SubmitErrorFor(f: Failure): (r: SubmitError)
    ensures r != NoSubmitError
    ensures r == NameUnavailable <==> f.errorType == Some("USERNAME_UNAVAILABLE")
    ensures r == SessionExpired <==> f.errorType != Some("USERNAME_UNAVAILABLE") && IsCsrfExpired(f)
    ensures r == RegisterFailed <==> f.errorType != Some("USERNAME_UNAVAILABLE") && !IsCsrfExpired(f)
  {
    if f.errorType == Some("USERNAME_UNAVAILABLE") then NameUnavailable
    else if OptionalDetail(f) == Some(CsrfExpired) then SessionExpired
    else RegisterFailed
  }

  /** A taken name shows the used-name banner. */
  lemma TakenNameBanner(username: string, password: string, check: Settled<CheckResponse>,
                        register: Settled<()>, login: Settled<LoginResponse>)
    requires check.Fulfilled? && !check.value.isAvailable
    ensures SubmitErrorFor(RegisterSubmit(username, password, check, register, login).outcome.failure) == NameUnavailable
  {
    TakenNameNeverRegisters(username, password, check, register, login);
  }

  /** A register call refused for an expired CSRF token shows the session
      banner; one that never reached the server shows the generic one,
      because the register mutation's `onError` throws a TypeError. */
  lemma RegisterFailureBanner(username: string, password: string, check: Settled<CheckResponse>,
                              f: Failure, login: Settled<LoginResponse>)
    requires check.Fulfilled? && check.value.isAvailable
    ensures f.response.Some? && f.errorType.None? && IsCsrfExpired(f) ==>
      SubmitErrorFor(RegisterSubmit(username, password, check, Rejected(f), login).outcome.failure) == SessionExpired
    ensures f.response.None? ==>
      SubmitErrorFor(RegisterSubmit(username, password, check, Rejected(f), login).outcome.failure) == RegisterFailed
  {
  }

  /** All three validators pass. */
  predicate FormValid(username: string, password: string, confirmPassword: string)
  {
    UsernameResult(username).isValid && PasswordResult(password, username).isValid
    && ConfirmResult(password, confirmPassword).isValid
  }

  /** The submit handler's three validator calls. */
  method ValidateForm(username: string, password: string, confirmPassword: string)
    returns (valid: bool, usernameErrors: seq<Message>, passwordErrors: seq<Message>, confirmErrors: seq<Message>)
    ensures valid == FormValid(username, password, confirmPassword)
    ensures usernameErrors == UsernameResult(username).errors
    ensures passwordErrors == PasswordResult(password, username).errors
    ensures confirmErrors == ConfirmResult(password, confirmPassword).errors
  {
    var u := ValidateUsername(username);
    var p := ValidatePassword(password, username);
    var c := ValidateConfirmPassword(password, confirmPassword);
    valid := u.isValid && p.isValid && c.isValid;
    usernameErrors, passwordErrors, confirmErrors := u.errors, p.errors, c.errors;
  }

  /** The page's state: the three inputs, the availability line, the three
      error lists and the submit banner. */
  class RegisterForm {
    var username: string
    var password: string
    var confirmPassword: string
    var isChecking: bool
    var isAvailable: Option<bool>
    var checkMessage: CheckMessage
    var usernameErrors: seq<Message>
    var passwordErrors: seq<Message>
    var confirmErrors: seq<Message>
    var submitError: SubmitError
    var isSubmitting: bool

    /** The state of a freshly mounted page. */
    constructor ()
      ensures username == [] && password == [] && confirmPassword == []
      ensures !isChecking && isAvailable.None? && checkMessage == NoCheckMessage
      ensures usernameErrors == [] && passwordErrors == [] && confirmErrors == []
      ensures submitError == NoSubmitError && !isSubmitting
    {
      username, password, confirmPassword := [], [], [];
      isChecking, isAvailable, checkMessage := false, None, NoCheckMessage;
      usernameErrors, passwordErrors, confirmErrors := [], [], [];
      submitError, isSubmitting := NoSubmitError, false;
    }

    /** `handleUsernameChange`: store the sanitised value, show its
      validator errors, and hand it to the debounced check when it is
      valid; `scheduled` is the argument of that call. */
    method HandleUsernameChange(input: string) returns (scheduled: Option<string>)
      modifies this`username, this`usernameErrors
      ensures username == Sanitised(input)
      ensures usernameErrors == UsernameResult(username).errors
      ensures scheduled.Some? <==> UsernameResult(username).isValid
      ensures scheduled.Some? ==> scheduled.value == username
    {
      var value := KeepNameChars(input);
      value := Lower(value);
      if |value| > MaxUsername {
        value := value[..MaxUsername];
      }
      username := value;
      var validation := ValidateUsername(value);
      usernameErrors := validation.errors;
      if |validation.errors| == 0 && |value| >= 3 {
        scheduled := Some(value);
      } else {
        scheduled := None;
      }
    }

    /** The debounced check up to the server call: a short or invalid name
      clears the availability line; otherwise the line says the check is
      running.  `proceed` says whether the server is asked. */
    method StartCheck(name: string) returns (proceed: bool)
      modifies this`isChecking, this`isAvailable, this`checkMessage
      ensures proceed <==> CheckProceeds(name)
      ensures !proceed ==> !isChecking && isAvailable.None? && checkMessage == NoCheckMessage
      ensures proceed ==> isChecking && isAvailable == old(isAvailable) && checkMessage == Checking
    {
      if name == [] || |name| < 3 {
        isChecking, isAvailable, checkMessage := false, None, NoCheckMessage;
        return false;
      }
      var frontendErrors := ValidateUsername(name);
      if |frontendErrors.errors| > 0 {
        isChecking, isAvailable, checkMessage := false, None, NoCheckMessage;
        return false;
      }
      isChecking, checkMessage := true, Checking;
      proceed := true;
    }

    /** The debounced check after the server call, as written: a failed
      check reads as complete. */
    method FinishCheckAsWritten(response: CheckResult)
      modifies this`isChecking, this`isAvailable, this`checkMessage, this`usernameErrors
      ensures !isChecking && isAvailable == Availability(response)
      ensures checkMessage == CheckMessageAsWritten(response)
      ensures usernameErrors == ErrorsAfterCheck(old(usernameErrors), response)
    {
      isChecking, isAvailable, checkMessage := false, Availability(response), CheckMessageAsWritten(response);
      if Availability(response) == Some(false) {
        usernameErrors := AddUsedError(usernameErrors);
      } else if Availability(response) == Some(true) {
        usernameErrors := ClearUsedErrors(usernameErrors);
      }
    }

    /** The debounced check after the server call with a failed check
      reported as failed. */
    method FinishCheck(response: CheckResult)
      modifies this`isChecking, this`isAvailable, this`checkMessage, this`usernameErrors
      ensures !isChecking && isAvailable == Availability(response)
      ensures checkMessage == CheckMessageFor(response)
      ensures usernameErrors == ErrorsAfterCheck(old(usernameErrors), response)
    {
      isChecking, isAvailable, checkMessage := false, Availability(response), CheckMessageFor(response);
      if Availability(response) == Some(false) {
        usernameErrors := AddUsedError(usernameErrors);
      } else if Availability(response) == Some(true) {
        usernameErrors := ClearUsedErrors(usernameErrors);
      }
    }

    /** `handleSubmit`: with any validator failing, the three error lists
      are replaced and nothing is sent; otherwise the check-register-login
      chain runs and a rejection sets the banner.  `effects` are the
      chain's requests and callbacks. */
    method HandleSubmit(check: Settled<CheckResponse>, register: Settled<()>, login: Settled<LoginResponse>)
      returns (valid: bool, effects: seq<Effect>)
      modifies this`usernameErrors, this`passwordErrors, this`confirmErrors, this`submitError, this`isSubmitting
      ensures valid == FormValid(username, password, confirmPassword)
      ensures !isSubmitting
      ensures !valid ==> effects == [] && submitError == NoSubmitError
      ensures !valid ==> usernameErrors == UsernameResult(username).errors
      ensures !valid ==> passwordErrors == PasswordResult(password, username).errors
      ensures !valid ==> confirmErrors == ConfirmResult(password, confirmPassword).errors
      ensures valid ==>
        usernameErrors == old(usernameErrors) && passwordErrors == old(passwordErrors) && confirmErrors == old(confirmErrors)
      ensures valid ==> effects == RegisterSubmit(username, password, check, register, login).effects
      ensures valid ==>
        (submitError == NoSubmitError <==> RegisterSubmit(username, password, check, register, login).outcome.Fulfilled?)
      ensures valid && RegisterSubmit(username, password, check, register, login).outcome.Rejected? ==>
        submitError == SubmitErrorFor(RegisterSubmit(username, password, check, register, login).outcome.failure)
    {
      var u, p, c := username, password, confirmPassword;
      submitError, isSubmitting := NoSubmitError, true;
      valid := ShowValidation(u, p, c);
      if !valid {
        effects := [];
      } else {
        effects := RunChain(u, p, check, register, login);
      }
      isSubmitting := false;
      assert username == u && password == p && confirmPassword == c;
    }

    /** The three validator calls; when any fails, its lists replace the
        shown errors. */
    method ShowValidation(u: string, p: string, c: string) returns (valid: bool)
      modifies this`usernameErrors, this`passwordErrors, this`confirmErrors
      ensures valid == FormValid(u, p, c)
      ensures !valid ==> usernameErrors == UsernameResult(u).errors
      ensures !valid ==> passwordErrors == PasswordResult(p, u).errors
      ensures !valid ==> confirmErrors == ConfirmResult(p, c).errors
      ensures valid ==> unchanged(this`usernameErrors, this`passwordErrors, this`confirmErrors)
    {
      var ue, pe, ce;
      valid, ue, pe, ce := ValidateForm(u, p, c);
      if !valid {
        usernameErrors, passwordErrors, confirmErrors := ue, pe, ce;
      }
    }

    /** The registration chain for the current fields, with the banner it
        leaves. */
    method RunChain(u: string, p: string, check: Settled<CheckResponse>, register: Settled<()>, login: Settled<LoginResponse>)
      returns (effects: seq<Effect>)
      modifies this`submitError
      ensures effects == RegisterSubmit(u, p, check, register, login).effects
      ensures submitError == NoSubmitError <==> RegisterSubmit(u, p, check, register, login).outcome.Fulfilled?
      ensures RegisterSubmit(u, p, check, register, login).outcome.Rejected? ==>
        submitError == SubmitErrorFor(RegisterSubmit(u, p, check, register, login).outcome.failure)
    {
      var r := RegisterSubmit(u, p, check, register, login);
      effects := r.effects;
      ShowOutcome(r.outcome);
    }

    /** The banner after the registration chain settles: cleared on
        success, the failure's message otherwise. */
    method ShowOutcome(outcome: Settled<Void>)
      modifies this`submitError
      ensures submitError == NoSubmitError <==> outcome.Fulfilled?
      ensures outcome.Rejected? ==> submitError == SubmitErrorFor(outcome.failure)
    {
      submitError := NoSubmitError;
      if outcome.Rejected? {
        submitError := SubmitErrorFor(outcome.failure);
      }
    }
  }
}
