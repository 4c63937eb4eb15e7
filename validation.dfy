/** The form validators of src/utils/validation.js.  Each validator is a
    push-style method (a local `errors` list grown check by check, with an
    early return on an empty input) proved equal to a declarative result:
    the messages of the rules the input violates, in the order the source
    runs the checks.  A message is kept as a `Message` value; `Text` gives
    the exact string the source pushes. */
module Validation {
  import opened Strings

  /** Every error message the validators push, plus the one the
      registration page adds after an availability check. */
  datatype Message =
    | UsernameRequired | UsernameTooShort | UsernameTooLong | UsernameCharset
    | UsernameLeading | UsernameConsecutive | UsernameReserved(username: string)
    | UsernameTaken
    | PasswordRequired | PasswordTooShort | PasswordTooLong | PasswordWeak | PasswordSimilar
    | ConfirmRequired | ConfirmMismatch
    | LoginUsernameRequired | LoginPasswordRequired | LoginUsernameTooLong | LoginPasswordTooLong
    | CategoryRequired | TitleRequired | TitleLength | DescriptionLength
    | Recommend1Required | Recommend2Required | Recommend3Required | RecommendLength
    | CommentRequired | CommentTooLong

  /** The text shown for a message. */
  function Text(m: Message): string
  {
    match m
    case UsernameRequired => "ユーザー名は必須です"
    case UsernameTooShort => "3文字以上で入力してください"
    case UsernameTooLong => "20文字以下で入力してください"
    case UsernameCharset => "半角英数字と_-.のみ使用可能です"
    case UsernameLeading => "英字または数字で始まる必要があります"
    case UsernameConsecutive => "記号を連続して使用することはできません"
    case UsernameReserved(u) => "\"" + u + "\" は予約語のため使用できません"
    case UsernameTaken => "このユーザー名は既に使用されています"
    case PasswordRequired => "パスワードは必須です"
    case PasswordTooShort => "8文字以上で入力してください"
    case PasswordTooLong => "72文字以下で入力してください"
    case PasswordWeak => "英大文字、英小文字、数字、記号（!@#$%^&*(),.?\":{}|<>）のうち3種類以上を含む必要があります"
    case PasswordSimilar => "ユーザー名と類似するパスワードは使用できません"
    case ConfirmRequired => "パスワード確認は必須です"
    case ConfirmMismatch => "パスワードが一致しません"
    case LoginUsernameRequired => "ユーザー名を入力してください"
    case LoginPasswordRequired => "パスワードを入力してください"
    case LoginUsernameTooLong => "ユーザー名が長すぎます"
    case LoginPasswordTooLong => "パスワードが長すぎます"
    case CategoryRequired => "カテゴリを選択してください"
    case TitleRequired => "タイトルを入力してください"
    case TitleLength => "タイトルは1文字以上50文字以下で入力してください"
    case DescriptionLength => "説明は300文字以下で入力してください"
    case Recommend1Required => "1位のおすすめを入力してください"
    case Recommend2Required => "2位のおすすめを入力してください"
    case Recommend3Required => "3位のおすすめを入力してください"
    case RecommendLength => "おすすめは1文字以上50文字以下で入力してください"
    case CommentRequired => "コメントを入力してください"
    case CommentTooLong => "コメントは200文字以下で入力してください"
  }

  /** `{ errors, isValid }` of the single-field validators. */
  datatype FieldResult = FieldResult(errors: seq<Message>, isValid: bool)

  /** The message a check pushes: one message when it fails, none otherwise. */
  function Opt(fails: bool, message: Message): seq<Message>
  {
    if fails then [message] else []
  }

  /** No message occurs twice in a list: the last one is not among the
      earlier ones, which have no repeats either. */
  predicate NoRepeats(s: seq<Message>)
  {
    s == [] || (s[|s| - 1] !in s[..|s| - 1] && NoRepeats(s[..|s| - 1]))
  }

  /** The recursive form means what it says: any two positions hold
      different messages. */
  lemma {:induction false} NoRepeatsPairwise(s: seq<Message>)
    requires NoRepeats(s)
    ensures forall i, j :: 0 <= i < j < |s| ==> s[i] != s[j]
  {
    if s != [] {
      var init := s[..|s| - 1];
      NoRepeatsPairwise(init);
      forall i, j | 0 <= i < j < |s|
        ensures s[i] != s[j]
      {
        if j == |s| - 1 {
          assert s[i] == init[i];
        } else {
          assert s[i] == init[i] && s[j] == init[j];
        }
      }
    }
  }

  /** Appending the message of one more check adds that message when the
      check fails and nothing else. */
  lemma OptAppendIn(a: seq<Message>, fails: bool, m: Message, x: Message)
    ensures x in a + Opt(fails, m) <==> x in a || (fails && x == m)
  {
  }

  /** A message new to a list keeps it free of repeats. */
  lemma OptAppendNoRepeats(a: seq<Message>, fails: bool, m: Message)
    requires NoRepeats(a) && m !in a
    ensures NoRepeats(a + Opt(fails, m))
  {
    if fails {
      assert (a + [m])[..|a|] == a;
    } else {
      assert a + Opt(fails, m) == a;
    }
  }

  /** Four checks with distinct messages push no message twice. */
  lemma {:induction false} FourNoRepeats(b1: bool, m1: Message, b2: bool, m2: Message,
                                         b3: bool, m3: Message, b4: bool, m4: Message)
    requires m1 != m2 && m1 != m3 && m1 != m4 && m2 != m3 && m2 != m4 && m3 != m4
    ensures NoRepeats(Opt(b1, m1) + Opt(b2, m2) + Opt(b3, m3) + Opt(b4, m4))
  {
    var s1 := Opt(b1, m1);
    OptAppendNoRepeats([], b1, m1);
    assert [] + s1 == s1;
    OptAppendIn([], b1, m1, m2);
    OptAppendNoRepeats(s1, b2, m2);
    var s2 := s1 + Opt(b2, m2);
    OptAppendIn([], b1, m1, m3);
    OptAppendIn(s1, b2, m2, m3);
    OptAppendNoRepeats(s2, b3, m3);
    var s3 := s2 + Opt(b3, m3);
    OptAppendIn([], b1, m1, m4);
    OptAppendIn(s1, b2, m2, m4);
    OptAppendIn(s2, b3, m3, m4);
    OptAppendNoRepeats(s3, b4, m4);
  }

  /** Six checks with distinct messages push no message twice. */
  lemma {:induction false} SixNoRepeats(b1: bool, m1: Message, b2: bool, m2: Message, b3: bool, m3: Message,
                                        b4: bool, m4: Message, b5: bool, m5: Message, b6: bool, m6: Message)
    requires m1 != m2 && m1 != m3 && m1 != m4 && m1 != m5 && m1 != m6
    requires m2 != m3 && m2 != m4 && m2 != m5 && m2 != m6
    requires m3 != m4 && m3 != m5 && m3 != m6 && m4 != m5 && m4 != m6 && m5 != m6
    ensures NoRepeats(Opt(b1, m1) + Opt(b2, m2) + Opt(b3, m3) + Opt(b4, m4) + Opt(b5, m5) + Opt(b6, m6))
  {
    var s4 := Opt(b1, m1) + Opt(b2, m2) + Opt(b3, m3) + Opt(b4, m4);
    FourNoRepeats(b1, m1, b2, m2, b3, m3, b4, m4);
    FourIn(b1, m1, b2, m2, b3, m3, b4, m4, m5);
    OptAppendNoRepeats(s4, b5, m5);
    FourIn(b1, m1, b2, m2, b3, m3, b4, m4, m6);
    OptAppendIn(s4, b5, m5, m6);
    OptAppendNoRepeats(s4 + Opt(b5, m5), b6, m6);
  }

  /** A message is among those of four checks exactly when it is the
      message of a failing one. */
  lemma {:induction false} FourIn(b1: bool, m1: Message, b2: bool, m2: Message,
                                  b3: bool, m3: Message, b4: bool, m4: Message, x: Message)
    ensures x in Opt(b1, m1) + Opt(b2, m2) + Opt(b3, m3) + Opt(b4, m4) <==>
      (b1 && x == m1) || (b2 && x == m2) || (b3 && x == m3) || (b4 && x == m4)
  {
    OptAppendIn(Opt(b1, m1), b2, m2, x);
    OptAppendIn(Opt(b1, m1) + Opt(b2, m2), b3, m3, x);
    OptAppendIn(Opt(b1, m1) + Opt(b2, m2) + Opt(b3, m3), b4, m4, x);
  }

  /** The same for six checks. */
  lemma {:induction false} SixIn(b1: bool, m1: Message, b2: bool, m2: Message, b3: bool, m3: Message,
                                 b4: bool, m4: Message, b5: bool, m5: Message, b6: bool, m6: Message, x: Message)
    ensures x in Opt(b1, m1) + Opt(b2, m2) + Opt(b3, m3) + Opt(b4, m4) + Opt(b5, m5) + Opt(b6, m6) <==>
      (b1 && x == m1) || (b2 && x == m2) || (b3 && x == m3) || (b4 && x == m4)
      || (b5 && x == m5) || (b6 && x == m6)
  {
    var s4 := Opt(b1, m1) + Opt(b2, m2) + Opt(b3, m3) + Opt(b4, m4);
    FourIn(b1, m1, b2, m2, b3, m3, b4, m4, x);
    OptAppendIn(s4, b5, m5, x);
    OptAppendIn(s4 + Opt(b5, m5), b6, m6, x);
  }

  // ---------------------------------------------------------------------
  // validateUsername

  const ReservedWords: seq<string> :=
    ["admin", "administrator", "root", "system", "api", "www", "mail", "support", "help"]

  /** `/^[a-zA-Z0-9_.-]*$/.test(s)`. */
  predicate AllNameChars(s: string)
  {
    forall i :: 0 <= i < |s| ==> IsNameChar(s[i])
  }

  /** `/[_.-]{2,}/.test(s)`. */
  predicate HasConsecutiveSymbols(s: string)
  {
    exists i :: 0 <= i < |s| - 1 && IsNameSymbol(s[i]) && IsNameSymbol(s[i + 1])
  }

  /** The checks of a non-empty username, in the order the source runs them. */
  datatype UsernameRule = NameTooShort | NameTooLong | NameCharset | NameLeading | NameConsecutive | NameReserved

  predicate ViolatesUsername(username: string, rule: UsernameRule)
    requires username != []
  {
    match rule
    case NameTooShort => |username| < 3
    case NameTooLong => |username| > 20
    case NameCharset => !AllNameChars(username)
    case NameLeading => !IsAlnum(username[0])
    case NameConsecutive => HasConsecutiveSymbols(username)
    case NameReserved => Lower(username) in ReservedWords
  }

  function UsernameMessage(username: string, rule: UsernameRule): Message
  {
    match rule
    case NameTooShort => UsernameTooShort
    case NameTooLong => UsernameTooLong
    case NameCharset => UsernameCharset
    case NameLeading => UsernameLeading
    case NameConsecutive => UsernameConsecutive
    case NameReserved => UsernameReserved(username)
  }

  /** The message of a rule when the username violates it. */
  function UsernameCheck(username: string, rule: UsernameRule): seq<Message>
    requires username != []
  {
    Opt(ViolatesUsername(username, rule), UsernameMessage(username, rule))
  }

  /** The messages of the violated rules, in rule order. */
  function UsernameMessages(username: string): seq<Message>
    requires username != []
  {
    UsernameCheck(username, NameTooShort) + UsernameCheck(username, NameTooLong)
    + UsernameCheck(username, NameCharset) + UsernameCheck(username, NameLeading)
    + UsernameCheck(username, NameConsecutive) + UsernameCheck(username, NameReserved)
  }

  /** What `validateUsername` returns. */
  function UsernameResult(username: string): (r: FieldResult)
    ensures username == [] ==> r.errors == [UsernameRequired] && !r.isValid
    ensures r.isValid ==>
      3 <= |username| <= 20 && AllNameChars(username) && IsAlnum(username[0])
      && !HasConsecutiveSymbols(username) && Lower(username) !in ReservedWords
  {
    if username == [] then FieldResult([UsernameRequired], false)
    else
      var errors := UsernameMessages(username);
      FieldResult(errors, errors == [] && |username| >= 3)
  }

  method ValidateUsername(username: string) returns (r: FieldResult)
    ensures r == UsernameResult(username)
  {
    var errors: seq<Message> := [];
    if username == [] {
      errors := errors + [UsernameRequired];
      return FieldResult(errors, false);
    }
    if |username| < 3 {
      errors := errors + [UsernameTooShort];
    }
    assert errors == UsernameCheck(username, NameTooShort);
    if |username| > 20 {
      errors := errors + [UsernameTooLong];
    }
    ghost var upToLong := errors;
    assert upToLong == UsernameCheck(username, NameTooShort) + UsernameCheck(username, NameTooLong);
    if !AllNameChars(username) {
      errors := errors + [UsernameCharset];
    }
    ghost var upToCharset := errors;
    assert upToCharset == upToLong + UsernameCheck(username, NameCharset);
    if !IsAlnum(username[0]) {
      errors := errors + [UsernameLeading];
    }
    ghost var upToLeading := errors;
    assert upToLeading == upToCharset + UsernameCheck(username, NameLeading);
    if HasConsecutiveSymbols(username) {
      errors := errors + [UsernameConsecutive];
    }
    ghost var upToConsecutive := errors;
    assert upToConsecutive == upToLeading + UsernameCheck(username, NameConsecutive);
    if Lower(username) in ReservedWords {
      errors := errors + [UsernameReserved(username)];
    }
    assert errors == upToConsecutive + UsernameCheck(username, NameReserved);
    r := FieldResult(errors, errors == [] && |username| >= 3);
  }

  /** `isValid` holds exactly when no message was pushed; the empty
      username gets the single "required" message. */
  lemma {:induction false} UsernameValidIffNoErrors(username: string)
    ensures UsernameResult(username).isValid <==> UsernameResult(username).errors == []
    ensures username == [] ==> UsernameResult(username).errors == [UsernameRequired]
  {
  }

  /** A non-empty username gets the message of a check exactly when it
      fails that check. */
  lemma {:induction false} UsernameMessageIff(username: string, rule: UsernameRule)
    requires username != []
    ensures UsernameMessage(username, rule) in UsernameResult(username).errors
        <==> ViolatesUsername(username, rule)
  {
    SixIn(ViolatesUsername(username, NameTooShort), UsernameMessage(username, NameTooShort),
          ViolatesUsername(username, NameTooLong), UsernameMessage(username, NameTooLong),
          ViolatesUsername(username, NameCharset), UsernameMessage(username, NameCharset),
          ViolatesUsername(username, NameLeading), UsernameMessage(username, NameLeading),
          ViolatesUsername(username, NameConsecutive), UsernameMessage(username, NameConsecutive),
          ViolatesUsername(username, NameReserved), UsernameMessage(username, NameReserved),
          UsernameMessage(username, rule));
  }

  /** At most one message per check: no message is pushed twice. */
  lemma {:induction false} UsernameNoRepeats(username: string)
    ensures NoRepeats(UsernameResult(username).errors)
  {
    if username != [] {
      assert UsernameResult(username).errors == UsernameMessages(username);
      SixNoRepeats(ViolatesUsername(username, NameTooShort), UsernameMessage(username, NameTooShort),
                   ViolatesUsername(username, NameTooLong), UsernameMessage(username, NameTooLong),
                   ViolatesUsername(username, NameCharset), UsernameMessage(username, NameCharset),
                   ViolatesUsername(username, NameLeading), UsernameMessage(username, NameLeading),
                   ViolatesUsername(username, NameConsecutive), UsernameMessage(username, NameConsecutive),
                   ViolatesUsername(username, NameReserved), UsernameMessage(username, NameReserved));
    }
  }

  /** Every reserved word is 3 to 13 lowercase ASCII letters. */
  lemma {:induction false} ReservedWordsShape(w: string)
    requires w in ReservedWords
    ensures 3 <= |w| <= 13
    ensures forall i :: 0 <= i < |w| ==> IsLower(w[i])
  {
  }

  /** A username whose lowercase form is a reserved word gets the reserved
      message, whatever its case, and no other message. */
  lemma {:induction false} ReservedAnyCase(username: string)
    requires Lower(username) in ReservedWords
    ensures UsernameResult(username).errors == [UsernameReserved(username)]
    ensures !UsernameResult(username).isValid
  {
    var w := Lower(username);
    ReservedWordsShape(w);
    forall i | 0 <= i < |username|
      ensures IsAlnum(username[i])
    {
      assert IsLower(LowerChar(username[i]));
    }
    assert !HasConsecutiveSymbols(username);
  }

  /** Two adjacent symbols anywhere give the consecutive-symbol message. */
  lemma {:induction false} AdjacentSymbolsRejected(username: string, i: nat)
    requires i + 1 < |username|
    requires IsNameSymbol(username[i]) && IsNameSymbol(username[i + 1])
    ensures UsernameConsecutive in UsernameResult(username).errors
    ensures !UsernameResult(username).isValid
  {
  }

  // ---------------------------------------------------------------------
  // validatePassword

  /** `[!@#$%^&*(),.?":{}|<>]`. */
  predicate IsSpecial(c: char)
  {
    c in "!@#$%^&*(),.?\":{}|<>"
  }

  predicate HasUpper(s: string) { exists i :: 0 <= i < |s| && IsUpper(s[i]) }
  predicate HasLower(s: string) { exists i :: 0 <= i < |s| && IsLower(s[i]) }
  predicate HasDigit(s: string) { exists i :: 0 <= i < |s| && IsDigit(s[i]) }
  predicate HasSpecial(s: string) { exists i :: 0 <= i < |s| && IsSpecial(s[i]) }

  /** How many of the four character classes occur in `s`. */
  function ClassCount(s: string): (n: nat)
    ensures n <= 4
  {
    (if HasUpper(s) then 1 else 0) + (if HasLower(s) then 1 else 0)
    + (if HasDigit(s) then 1 else 0) + (if HasSpecial(s) then 1 else 0)
  }

  /** The checks of a non-empty password, in the order the source runs them. */
  datatype PasswordRule = PwTooShort | PwTooLong | PwWeak | PwSimilar

  /** `username` defaults to `''`, which disables the similarity check. */
  predicate ViolatesPassword(password: string, username: string, rule: PasswordRule)
  {
    match rule
    case PwTooShort => |password| < 8
    case PwTooLong => |password| > 72
    case PwWeak => ClassCount(password) < 3
    case PwSimilar => username != [] && Contains(Lower(password), Lower(username))
  }

  function PasswordMessage(rule: PasswordRule): Message
  {
    match rule
    case PwTooShort => PasswordTooShort
    case PwTooLong => PasswordTooLong
    case PwWeak => PasswordWeak
    case PwSimilar => PasswordSimilar
  }

  function PasswordCheck(password: string, username: string, rule: PasswordRule): seq<Message>
  {
    Opt(ViolatesPassword(password, username, rule), PasswordMessage(rule))
  }

  /** The messages of the violated rules, in rule order. */
  function PasswordMessages(password: string, username: string): seq<Message>
  {
    PasswordCheck(password, username, PwTooShort) + PasswordCheck(password, username, PwTooLong)
    + PasswordCheck(password, username, PwWeak) + PasswordCheck(password, username, PwSimilar)
  }

  /** What `validatePassword(password, username)` returns. */
  function PasswordResult(password: string, username: string): (r: FieldResult)
    ensures password == [] ==> r.errors == [PasswordRequired] && !r.isValid
    ensures r.isValid ==>
      8 <= |password| <= 72 && ClassCount(password) >= 3
      && !(username != [] && Contains(Lower(password), Lower(username)))
  {
    if password == [] then FieldResult([PasswordRequired], false)
    else
      var errors := PasswordMessages(password, username);
      FieldResult(errors, errors == [] && |password| >= 8)
  }

  method ValidatePassword(password: string, username: string) returns (r: FieldResult)
    ensures r == PasswordResult(password, username)
  {
    var errors: seq<Message> := [];
    if password == [] {
      errors := errors + [PasswordRequired];
      return FieldResult(errors, false);
    }
    if |password| < 8 {
      errors := errors + [PasswordTooShort];
    }
    assert errors == PasswordCheck(password, username, PwTooShort);
    if |password| > 72 {
      errors := errors + [PasswordTooLong];
    }
    ghost var upToLong := errors;
    var charTypeCount := ClassCount(password);
    if charTypeCount < 3 {
      errors := errors + [PasswordWeak];
    }
    ghost var upToWeak := errors;
    assert upToWeak == upToLong + PasswordCheck(password, username, PwWeak);
    if username != [] && Contains(Lower(password), Lower(username)) {
      errors := errors + [PasswordSimilar];
    }
    assert errors == upToWeak + PasswordCheck(password, username, PwSimilar);
    r := FieldResult(errors, errors == [] && |password| >= 8);
  }

  /** `isValid` holds exactly when no message was pushed; the empty
      password gets the single "required" message. */
  lemma {:induction false} PasswordValidIffNoErrors(password: string, username: string)
    ensures PasswordResult(password, username).isValid <==> PasswordResult(password, username).errors == []
    ensures password == [] ==> PasswordResult(password, username).errors == [PasswordRequired]
  {
  }

  /** A non-empty password gets the message of a check exactly when it
      fails that check. */
  lemma {:induction false} PasswordMessageIff(password: string, username: string, rule: PasswordRule)
    requires password != []
    ensures PasswordMessage(rule) in PasswordResult(password, username).errors
        <==> ViolatesPassword(password, username, rule)
  {
    FourIn(ViolatesPassword(password, username, PwTooShort), PasswordMessage(PwTooShort),
           ViolatesPassword(password, username, PwTooLong), PasswordMessage(PwTooLong),
           ViolatesPassword(password, username, PwWeak), PasswordMessage(PwWeak),
           ViolatesPassword(password, username, PwSimilar), PasswordMessage(PwSimilar),
           PasswordMessage(rule));
  }

  /** At most one message per check. */
  lemma {:induction false} PasswordNoRepeats(password: string, username: string)
    ensures NoRepeats(PasswordResult(password, username).errors)
  {
    if password != [] {
      assert PasswordResult(password, username).errors == PasswordMessages(password, username);
      FourNoRepeats(ViolatesPassword(password, username, PwTooShort), PasswordMessage(PwTooShort),
                    ViolatesPassword(password, username, PwTooLong), PasswordMessage(PwTooLong),
                    ViolatesPassword(password, username, PwWeak), PasswordMessage(PwWeak),
                    ViolatesPassword(password, username, PwSimilar), PasswordMessage(PwSimilar));
    }
  }

  /** A password that spells the username in another case is rejected. */
  lemma {:induction false} PasswordEqualToUsernameRejected(password: string, username: string)
    requires password != [] && username != [] && Lower(password) == Lower(username)
    ensures PasswordSimilar in PasswordResult(password, username).errors
    ensures !PasswordResult(password, username).isValid
  {
    ContainsWindow(Lower(password), 0, |password|);
    assert Lower(password)[0..|password|] == Lower(password);
  }

  /** Three character classes and 8 to 72 characters, with no
      username given, make a valid password. */
  lemma {:induction false} StrongPasswordAccepted(password: string)
    requires 8 <= |password| <= 72 && ClassCount(password) >= 3
    ensures PasswordResult(password, "").isValid
  {
  }

  // ---------------------------------------------------------------------
  // validateConfirmPassword

  /** What `validateConfirmPassword(password, confirmPassword)` returns. */
  function ConfirmResult(password: string, confirmPassword: string): (r: FieldResult)
    ensures r.isValid <==> confirmPassword != [] && confirmPassword == password
    ensures r.isValid <==> r.errors == []
    ensures confirmPassword == [] ==> r.errors == [ConfirmRequired]
    ensures confirmPassword != [] && confirmPassword != password ==> r.errors == [ConfirmMismatch]
  {
    if confirmPassword == [] then FieldResult([ConfirmRequired], false)
    else if password != confirmPassword then FieldResult([ConfirmMismatch], false)
    else FieldResult([], true)
  }

  method ValidateConfirmPassword(password: string, confirmPassword: string) returns (r: FieldResult)
    ensures r == ConfirmResult(password, confirmPassword)
  {
    var errors: seq<Message> := [];
    if confirmPassword == [] {
      errors := errors + [ConfirmRequired];
      return FieldResult(errors, false);
    }
    if password != confirmPassword {
      errors := errors + [ConfirmMismatch];
    }
    r := FieldResult(errors, |errors| == 0);
  }

  // ---------------------------------------------------------------------
  // validateLoginInput

  datatype LoginResult = LoginResult(usernameErrors: seq<Message>, passwordErrors: seq<Message>, isValid: bool)

  /** What `validateLoginInput(username, password)` returns: "required" is
      judged on the trimmed username but on the untrimmed password, and
      both length limits on the untrimmed values. */
  function LoginInputResult(username: string, password: string): (r: LoginResult)
    ensures LoginUsernameRequired in r.usernameErrors <==> IsBlank(username)
    ensures LoginUsernameTooLong in r.usernameErrors <==> |username| > 50
    ensures LoginPasswordRequired in r.passwordErrors <==> password == []
    ensures LoginPasswordTooLong in r.passwordErrors <==> |password| > 100
    ensures forall m :: m in r.usernameErrors ==> m == LoginUsernameRequired || m == LoginUsernameTooLong
    ensures forall m :: m in r.passwordErrors ==> m == LoginPasswordRequired || m == LoginPasswordTooLong
    ensures r.isValid <==> r.usernameErrors == [] && r.passwordErrors == []
  {
    TrimEmptyIffBlank(username);
    LoginResult(
      Opt(Trim(username) == [], LoginUsernameRequired) + Opt(|username| > 50, LoginUsernameTooLong),
      Opt(password == [], LoginPasswordRequired) + Opt(|password| > 100, LoginPasswordTooLong),
      (Trim(username) != [] && |username| <= 50) && (password != [] && |password| <= 100))
  }

  method ValidateLoginInput(username: string, password: string) returns (r: LoginResult)
    ensures r == LoginInputResult(username, password)
  {
    var usernameErrors: seq<Message> := [];
    var passwordErrors: seq<Message> := [];
    if Trim(username) == [] {
      usernameErrors := usernameErrors + [LoginUsernameRequired];
    }
    if password == [] {
      passwordErrors := passwordErrors + [LoginPasswordRequired];
    }
    assert usernameErrors == Opt(Trim(username) == [], LoginUsernameRequired);
    assert passwordErrors == Opt(password == [], LoginPasswordRequired);
    if |username| > 50 {
      usernameErrors := usernameErrors + [LoginUsernameTooLong];
    }
    assert usernameErrors == Opt(Trim(username) == [], LoginUsernameRequired) + Opt(|username| > 50, LoginUsernameTooLong);
    if |password| > 100 {
      passwordErrors := passwordErrors + [LoginPasswordTooLong];
    }
    r := LoginResult(usernameErrors, passwordErrors, |usernameErrors| == 0 && |passwordErrors| == 0);
  }

  // ---------------------------------------------------------------------
  // validatePostForm

  datatype PostForm = PostForm(
    selectedCategory: string, title: string, description: string,
    recommend1: string, recommend2: string, recommend3: string)

  datatype PostFormErrors = PostFormErrors(
    category: seq<Message>, title: seq<Message>, description: seq<Message>,
    recommend1: seq<Message>, recommend2: seq<Message>, recommend3: seq<Message>)

  datatype PostFormResult = PostFormResult(errors: PostFormErrors, isValid: bool)

  /** The title and recommend checks: "required" when blank after trimming,
      otherwise the untrimmed length must be at most 50. */
  function RequiredField(value: string, requiredMessage: Message, lengthMessage: Message): (r: seq<Message>)
    requires requiredMessage != lengthMessage
    ensures |r| <= 1
    ensures r == [requiredMessage] <==> IsBlank(value)
    ensures !IsBlank(value) ==> (r == [] <==> |value| <= 50)
    ensures r != [] && r != [requiredMessage] ==> r == [lengthMessage]
  {
    TrimEmptyIffBlank(value);
    if Trim(value) == [] then [requiredMessage]
    else if |value| < 1 || |value| > 50 then [lengthMessage]
    else []
  }

  /** The description check: only the trimmed length is limited. */
  function DescriptionField(description: string): (r: seq<Message>)
    ensures r == [] <==> |Trim(description)| <= 300
    ensures r != [] ==> r == [DescriptionLength]
  {
    var desc := Trim(description);
    if |desc| > 0 && |desc| > 300 then [DescriptionLength] else []
  }

  /** What `validatePostForm(formData)` returns. */
  function PostFormSpec(form: PostForm): (r: PostFormResult)
    ensures r.isValid <==>
      r.errors.category == [] && r.errors.title == [] && r.errors.description == []
      && r.errors.recommend1 == [] && r.errors.recommend2 == [] && r.errors.recommend3 == []
    ensures r.errors.category == [] <==> form.selectedCategory != []
    ensures r.errors.title == RequiredField(form.title, TitleRequired, TitleLength)
    ensures r.errors.description == DescriptionField(form.description)
    ensures r.errors.recommend1 == RequiredField(form.recommend1, Recommend1Required, RecommendLength)
    ensures r.errors.recommend2 == RequiredField(form.recommend2, Recommend2Required, RecommendLength)
    ensures r.errors.recommend3 == RequiredField(form.recommend3, Recommend3Required, RecommendLength)
  {
    var errors := PostFormErrors(
      Opt(form.selectedCategory == [], CategoryRequired),
      RequiredField(form.title, TitleRequired, TitleLength),
      DescriptionField(form.description),
      RequiredField(form.recommend1, Recommend1Required, RecommendLength),
      RequiredField(form.recommend2, Recommend2Required, RecommendLength),
      RequiredField(form.recommend3, Recommend3Required, RecommendLength));
    PostFormResult(errors,
      errors.category == [] && errors.title == [] && errors.description == []
      && errors.recommend1 == [] && errors.recommend2 == [] && errors.recommend3 == [])
  }

  /** The check of one required field, pushing into its own list. */
  method CheckRequired(value: string, requiredMessage: Message, lengthMessage: Message) returns (errors: seq<Message>)
    requires requiredMessage != lengthMessage
    ensures errors == RequiredField(value, requiredMessage, lengthMessage)
  {
    errors := [];
    if Trim(value) == [] {
      errors := errors + [requiredMessage];
    } else if |value| < 1 || |value| > 50 {
      errors := errors + [lengthMessage];
    }
  }

  /** The optional description check. */
  method CheckDescription(description: string) returns (errors: seq<Message>)
    ensures errors == DescriptionField(description)
  {
    errors := [];
    var desc := Trim(description);
    if |desc| > 0 {
      if |desc| > 300 {
        errors := errors + [DescriptionLength];
      }
    }
  }

  method ValidatePostForm(form: PostForm) returns (r: PostFormResult)
    ensures r == PostFormSpec(form)
  {
    var category: seq<Message> := [];
    if form.selectedCategory == [] {
      category := category + [CategoryRequired];
    }
    assert category == Opt(form.selectedCategory == [], CategoryRequired);
    var title := CheckRequired(form.title, TitleRequired, TitleLength);
    var description := CheckDescription(form.description);
    var recommend1 := CheckRequired(form.recommend1, Recommend1Required, RecommendLength);
    var recommend2 := CheckRequired(form.recommend2, Recommend2Required, RecommendLength);
    var recommend3 := CheckRequired(form.recommend3, Recommend3Required, RecommendLength);
    var errors := PostFormErrors(category, title, description, recommend1, recommend2, recommend3);
    ghost var spec := PostFormSpec(form);
    assert errors == spec.errors;
    r := PostFormResult(errors,
      |category| == 0 && |title| == 0 && |description| == 0
      && |recommend1| == 0 && |recommend2| == 0 && |recommend3| == 0);
  }

  /** A 51-character title that is not blank gets exactly the length
      message, and the whole form is invalid however the other fields are
      filled. */
  lemma {:induction false} LongTitleRejected(form: PostForm)
    requires |form.title| == 51 && !IsBlank(form.title)
    ensures PostFormSpec(form).errors.title == [TitleLength]
    ensures !PostFormSpec(form).isValid
  {
  }

  /** A description of only white space passes, however long it is. */
  lemma {:induction false} BlankDescriptionAccepted(description: string)
    requires IsBlank(description)
    ensures DescriptionField(description) == []
  {
    TrimEmptyIffBlank(description);
  }

  // ---------------------------------------------------------------------
  // validateCommentForm

  datatype CommentFormResult = CommentFormResult(commentErrors: seq<Message>, isValid: bool)

  /** What `validateCommentForm({ comment })` returns. */
  function CommentFormSpec(comment: string): (r: CommentFormResult)
    ensures CommentRequired in r.commentErrors <==> IsBlank(comment)
    ensures CommentTooLong in r.commentErrors <==> |comment| > 200
    ensures forall m :: m in r.commentErrors ==> m == CommentRequired || m == CommentTooLong
    ensures r.isValid <==> r.commentErrors == []
  {
    TrimEmptyIffBlank(comment);
    var errors := Opt(Trim(comment) == [], CommentRequired) + Opt(|comment| > 200, CommentTooLong);
    CommentFormResult(errors, errors == [])
  }

  method ValidateCommentForm(comment: string) returns (r: CommentFormResult)
    ensures r == CommentFormSpec(comment)
  {
    var errors: seq<Message> := [];
    if Trim(comment) == [] {
      errors := errors + [CommentRequired];
    }
    if |comment| > 200 {
      errors := errors + [CommentTooLong];
    }
    r := CommentFormResult(errors, |errors| == 0);
  }

  /** The length boundary: 200 characters pass, 201 get exactly one message,
      and a blank comment over the limit gets both. */
  lemma {:induction false} CommentLengthBoundary(comment: string)
    ensures |comment| == 200 && !IsBlank(comment) ==> CommentFormSpec(comment).isValid
    ensures |comment| == 201 && !IsBlank(comment) ==> CommentFormSpec(comment).commentErrors == [CommentTooLong]
    ensures |comment| > 200 && IsBlank(comment) ==>
      CommentFormSpec(comment).commentErrors == [CommentRequired, CommentTooLong]
  {
    TrimEmptyIffBlank(comment);
  }
}
