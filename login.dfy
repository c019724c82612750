/**
 * The login screen: the e-mail pattern and password-length checks behind its
 * field messages, the rule that enables the submit button, and the screen's
 * own state (the mode and the two fields) that the toggle resets.
 */
module Login {
  import opened Wrappers
  import opened Text
  import opened Auth

  const InvalidEmailText := "Please enter a valid email address"
  const ShortPasswordText := "Password must be at least 6 characters"

  /** A character of the class `[^\s@]`. */
  predicate EmailChar(c: char)
  {
    !IsWhiteSpace(c) && c != '@'
  }

  predicate AllEmailChars(s: string)
  {
    forall i :: 0 <= i < |s| ==> EmailChar(s[i])
  }

  /**
   * `s` matches `^[^\s@]+@[^\s@]+\.[^\s@]+$` with the `@` at `at` and the
   * escaped dot at `dot`.
   */
  predicate SplitsAsEmail(s: string, at: int, dot: int)
  {
    0 < at && at + 1 < dot < |s| - 1 && s[at] == '@' && s[dot] == '.' &&
    AllEmailChars(s[..at]) && AllEmailChars(s[at + 1..dot]) && AllEmailChars(s[dot + 1..])
  }

  /** The pattern itself: some choice of `@` and dot positions makes `s` match. */
  ghost predicate MatchesEmailPattern(s: string)
  {
    exists at, dot :: SplitsAsEmail(s, at, dot)
  }

  /**
   * The same language described by its shape: no white space, exactly one
   * `@`, something before it, and a dot after it that is neither the first
   * nor the last character of the domain.
   */
  predicate HasEmailShape(s: string)
  {
    NoWhiteSpace(s) && CountChar(s, '@') == 1 &&
    var at := IndexOf(s, '@');
    at > 0 &&
    var domain := s[at + 1..];
    |domain| >= 3 && '.' in domain[1..|domain| - 1]
  }

  lemma IndexOfIsFirst(s: string, c: char, k: int)
    requires 0 <= k < |s| && s[k] == c && c !in s[..k]
    ensures IndexOf(s, c) == k
  {
  }

  /** With a single `@`, nothing after the first one is an `@`. */
  lemma OnlyAtSign(s: string, at: int)
    requires CountChar(s, '@') == 1 && at == IndexOf(s, '@') && at >= 0
    ensures '@' !in s[at + 1..]
  {
    assert s == s[..at] + [s[at]] + s[at + 1..];
    CountCharConcat(s[..at] + [s[at]], s[at + 1..], '@');
    CountCharConcat(s[..at], [s[at]], '@');
  }

  /** A slice of a string without white space, free of `@`, is made of `[^\s@]` characters. */
  lemma EmailCharsOfSlice(s: string, i: int, j: int)
    requires 0 <= i <= j <= |s| && NoWhiteSpace(s) && '@' !in s[i..j]
    ensures AllEmailChars(s[i..j])
  {
    forall k | 0 <= k < j - i ensures EmailChar(s[i..j][k]) {
      assert s[i..j][k] == s[i + k];
    }
  }

  lemma ShapeMatchesPattern(s: string)
    requires HasEmailShape(s)
    ensures MatchesEmailPattern(s)
  {
    var at := IndexOf(s, '@');
    var domain := s[at + 1..];
    var j :| 0 <= j < |domain| - 2 && domain[1..|domain| - 1][j] == '.';
    var dot := at + 2 + j;
    OnlyAtSign(s, at);
    assert s[at + 1..dot] == domain[..dot - at - 1];
    assert s[dot + 1..] == domain[dot - at..];
    EmailCharsOfSlice(s, 0, at);
    EmailCharsOfSlice(s, at + 1, dot);
    EmailCharsOfSlice(s, dot + 1, |s|);
    assert SplitsAsEmail(s, at, dot);
  }

  /** A match of the pattern contains no white space. */
  lemma PatternHasNoWhiteSpace(s: string, at: int, dot: int)
    requires SplitsAsEmail(s, at, dot)
    ensures NoWhiteSpace(s)
  {
    forall i | 0 <= i < |s| ensures !IsWhiteSpace(s[i]) {
      if i < at { assert s[i] == s[..at][i]; }
      else if at < i < dot { assert s[i] == s[at + 1..dot][i - at - 1]; }
      else if dot < i { assert s[i] == s[dot + 1..][i - dot - 1]; }
    }
  }

  /** A match of the pattern has exactly one `@`, the one at `at`. */
  lemma PatternHasOneAtSign(s: string, at: int, dot: int)
    requires SplitsAsEmail(s, at, dot)
    ensures CountChar(s, '@') == 1 && IndexOf(s, '@') == at
  {
    var a, b, c := s[..at], s[at + 1..dot], s[dot + 1..];
    assert s == a + ['@'] + b + ['.'] + c;
    assert forall i :: 0 <= i < |a| ==> EmailChar(a[i]);
    assert forall i :: 0 <= i < |b| ==> EmailChar(b[i]);
    assert forall i :: 0 <= i < |c| ==> EmailChar(c[i]);
    CountCharConcat(a + ['@'] + b + ['.'], c, '@');
    CountCharConcat(a + ['@'] + b, ['.'], '@');
    CountCharConcat(a + ['@'], b, '@');
    CountCharConcat(a, ['@'], '@');
    IndexOfIsFirst(s, '@', at);
  }

  lemma PatternHasShape(s: string, at: int, dot: int)
    requires SplitsAsEmail(s, at, dot)
    ensures HasEmailShape(s)
  {
    PatternHasNoWhiteSpace(s, at, dot);
    PatternHasOneAtSign(s, at, dot);
    var domain := s[at + 1..];
    assert domain[1..|domain| - 1][dot - at - 2] == '.';
  }

  /** The regular expression and its shape description accept the same strings. */
  lemma EmailPatternIff(s: string)
    ensures MatchesEmailPattern(s) <==> HasEmailShape(s)
  {
    if HasEmailShape(s) {
      ShapeMatchesPattern(s);
    }
    if MatchesEmailPattern(s) {
      var at, dot :| SplitsAsEmail(s, at, dot);
      PatternHasShape(s, at, dot);
    }
  }

  /** `isEmailValid`: an empty field is not flagged; otherwise the pattern decides. */
  function IsEmailValid(email: string): (r: bool)
    ensures r <==> email == "" || MatchesEmailPattern(email)
  {
    EmailPatternIff(email);
    email == "" || HasEmailShape(email)
  }

  /** `isPasswordValid`: an empty field is not flagged; otherwise six characters are needed. */
  function IsPasswordValid(password: string): (r: bool)
    ensures r <==> password == "" || |password| >= MinPasswordLength
  {
    if password == "" then true else |password| >= MinPasswordLength
  }

  /**
   * `emailErrorMessage`: the provider's error when the field is empty and the
   * error concerns it, the fixed text when a typed address does not match the
   * pattern, and nothing otherwise.
   */
  function EmailErrorMessage(email: string, error: Option<AuthError>): (msg: string)
    ensures email == "" && error.Some? && error.value.field == Some(EmailField) ==> msg == error.value.message
    ensures email == "" && !(error.Some? && error.value.field == Some(EmailField)) ==> msg == ""
    ensures email != "" && !MatchesEmailPattern(email) ==> msg == InvalidEmailText
    ensures email != "" && MatchesEmailPattern(email) ==> msg == ""
  {
    if email == "" && error.Some? && error.value.field == Some(EmailField) then error.value.message
    else if email != "" && !IsEmailValid(email) then InvalidEmailText
    else ""
  }

  /** `passwordErrorMessage`: the same rule for the password field and the length check. */
  function PasswordErrorMessage(password: string, error: Option<AuthError>): (msg: string)
    ensures password == "" && error.Some? && error.value.field == Some(PasswordField) ==> msg == error.value.message
    ensures password == "" && !(error.Some? && error.value.field == Some(PasswordField)) ==> msg == ""
    ensures password != "" && |password| < MinPasswordLength ==> msg == ShortPasswordText
    ensures password != "" && |password| >= MinPasswordLength ==> msg == ""
  {
    if password == "" && error.Some? && error.value.field == Some(PasswordField) then error.value.message
    else if password != "" && !IsPasswordValid(password) then ShortPasswordText
    else ""
  }

  /**
   * `isFormValid`: both fields filled in after trimming and neither flagged.
   * In other words: the address matches the pattern, and the password has six
   * characters of which at least one is not white space.
   */
  function IsFormValid(email: string, password: string): (r: bool)
    ensures r <==> MatchesEmailPattern(email) && |password| >= MinPasswordLength && !AllWhiteSpace(password)
  {
    EmailPatternIff(email);
    Trim(email) != "" && Trim(password) != "" && IsEmailValid(email) && IsPasswordValid(password)
  }

  /** The submit button's `disabled` prop. */
  predicate IsSubmitDisabled(email: string, password: string, isLoadingAuth: bool)
    ensures IsSubmitDisabled(email, password, isLoadingAuth) <==>
      isLoadingAuth || !MatchesEmailPattern(email) || |password| < MinPasswordLength || AllWhiteSpace(password)
  {
    !IsFormValid(email, password) || isLoadingAuth
  }

  /** A valid form has non-blank trimmed fields, a long enough password and a matching address. */
  lemma FormValidMeans(email: string, password: string)
    requires IsFormValid(email, password)
    ensures Trim(email) != "" && Trim(password) != ""
    ensures |password| >= MinPasswordLength && MatchesEmailPattern(email)
    ensures IsEmailValid(email) && IsPasswordValid(password)
  {
    EmailPatternIff(email);
  }

  /**
   * The button is enabled only when nothing is loading and the form would
   * pass every check `authenticate` makes, so a press always reaches the
   * user service.
   */
  lemma EnabledSubmitPassesValidation(email: string, password: string, isLoadingAuth: bool)
    requires !IsSubmitDisabled(email, password, isLoadingAuth)
    ensures !isLoadingAuth
    ensures ValidateCredentials(email, password) == None
  {
    EmailPatternIff(email);
  }

  /**
   * The provider's checks are weaker than the screen's: a non-blank address
   * without any `@` gets past them, though the screen never enables the
   * button for it.
   */
  lemma ProviderChecksAreWeaker(email: string, password: string)
    requires '@' !in email && !AllWhiteSpace(email)
    requires |password| >= MinPasswordLength && !AllWhiteSpace(password)
    ensures ValidateCredentials(email, password) == None
    ensures !IsFormValid(email, password)
  {
  }

  /** `onToggleAuthMode`'s choice of mode: always the other one of the two. */
  function OtherMode(m: AuthMode): (r: AuthMode)
    ensures r != m
  {
    if m == LoginMode then RegisterMode else LoginMode
  }

  /** Two toggles give back the original mode. */
  lemma TwoTogglesRestoreMode(m: AuthMode)
    ensures OtherMode(OtherMode(m)) == m && OtherMode(m) != m
  {
  }

  /** The screen and its own state variables. */
  class LoginScreen {
    var authMode: AuthMode
    var email: string
    var password: string

    /** Mounting the screen starts in login mode with empty fields; the mount effect clears the provider's error. */
    constructor (auth: AuthProvider)
      modifies auth
      ensures authMode == LoginMode && email == "" && password == ""
      ensures auth.State() == old(auth.State()).(error := None)
    {
      authMode, email, password := LoginMode, "", "";
      auth.ClearError();
    }

    /** `onChangeText` of the e-mail input. */
    method SetEmail(text: string)
      modifies this
      ensures email == text && authMode == old(authMode) && password == old(password)
    {
      email := text;
    }

    /** `onChangeText` of the password input. */
    method SetPassword(text: string)
      modifies this
      ensures password == text && authMode == old(authMode) && email == old(email)
    {
      password := text;
    }

    /**
     * `onToggleAuthMode`: the other mode, and both fields emptied; the effect
     * keyed on the mode then clears the provider's error.
     */
    method ToggleAuthMode(auth: AuthProvider)
      modifies this, auth
      ensures authMode == OtherMode(old(authMode)) && email == "" && password == ""
      ensures auth.State() == old(auth.State()).(error := None)
    {
      authMode := OtherMode(authMode);
      email := "";
      password := "";
      auth.ClearError();
    }

    /**
     * A press on the submit button. A disabled button ignores it; otherwise
     * `authenticate` runs with the screen's mode and fields, and gets as far
     * as the user service.
     */
    method Submit(auth: AuthProvider, result: ServiceResult) returns (pressed: bool, serviceCalled: bool)
      modifies auth
      ensures pressed <==> !IsSubmitDisabled(email, password, old(auth.isLoadingAuth))
      ensures !pressed ==> auth.State() == old(auth.State()) && !serviceCalled
      ensures pressed ==> auth.State() == Authenticated(old(auth.State()), authMode, email, password, result)
      ensures pressed ==> serviceCalled
    {
      if IsSubmitDisabled(email, password, auth.isLoadingAuth) {
        pressed, serviceCalled := false, false;
      } else {
        pressed := true;
        EnabledSubmitPassesValidation(email, password, auth.isLoadingAuth);
        var navigate;
        serviceCalled, navigate := auth.Authenticate(authMode, email, password, result);
      }
    }
  }
}
