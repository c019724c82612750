/**
 * The authentication provider: the logged-in, loading, user and error state
 * shared by the screens, and the operations that change it (`authenticate`,
 * `logout`, `clearError` and the start-up check of the stored session).
 * The network call and the storage writes are inputs and outcomes: the call's
 * result is a parameter, and the store is a field.
 */
module Auth {
  import opened Wrappers
  import opened Text
  import opened Storage

  datatype AuthMode = LoginMode | RegisterMode

  /** The form field an error is shown under. */
  datatype ErrorField = EmailField | PasswordField

  datatype AuthError = AuthError(message: string, field: Option<ErrorField>)

  /** The user object in the serialised form it is stored in. */
  type UserRecord = string

  /** `response.data`: the session token and the user. */
  datatype Session = Session(token: string, user: UserRecord)

  /**
   * How the call to the user service ended: it returned a response (falsy
   * responses are `None`), it threw an HTTP client error carrying the
   * server's `message` if any, or it threw something else.
   */
  datatype ServiceResult =
    | Responded(response: Option<Session>)
    | HttpFailure(serverMessage: Option<string>)
    | OtherFailure

  /** Where the provider sends the router. */
  datatype Route = AuthedHome | LoginRoute

  const MinPasswordLength: nat := 6

  const EmailRequired := AuthError("Email is required", Some(EmailField))
  const PasswordRequired := AuthError("Password is required", Some(PasswordField))
  const PasswordTooShort := AuthError("Password must be at least 6 characters", Some(PasswordField))
  const NetworkError := AuthError("Network error. Please check your connection.", None)

  /**
   * The checks made before any call, in their order: a blank e-mail first,
   * then a blank password, then a short one. `None` means the call is made.
   */
  function ValidateCredentials(email: string, password: string): (r: Option<AuthError>)
    ensures r == None <==> !AllWhiteSpace(email) && !AllWhiteSpace(password) && |password| >= MinPasswordLength
    ensures AllWhiteSpace(email) ==> r == Some(EmailRequired)
    ensures !AllWhiteSpace(email) && AllWhiteSpace(password) ==> r == Some(PasswordRequired)
    ensures !AllWhiteSpace(email) && !AllWhiteSpace(password) && |password| < MinPasswordLength ==>
              r == Some(PasswordTooShort)
    ensures r.Some? ==> r.value.field.Some?
  {
    if Trim(email) == "" then Some(EmailRequired)
    else if Trim(password) == "" then Some(PasswordRequired)
    else if |password| < MinPasswordLength then Some(PasswordTooShort)
    else None
  }

  /** The message used when the server sends none. */
  function DefaultMessage(mode: AuthMode): (msg: string)
    ensures msg != ""
    ensures msg == "Invalid credentials" <==> mode == LoginMode
    ensures mode == RegisterMode ==> msg == "Registration failed"
  {
    if mode == LoginMode then "Invalid credentials" else "Registration failed"
  }

  /** `error.response?.data?.message || default`: an empty server message counts as none. */
  function ServerErrorMessage(serverMessage: Option<string>, mode: AuthMode): (msg: string)
    ensures msg != ""
    ensures Truthy(serverMessage) ==> msg == serverMessage.value
    ensures !Truthy(serverMessage) ==> msg == DefaultMessage(mode)
  {
    if serverMessage.Some? && serverMessage.value != "" then serverMessage.value else DefaultMessage(mode)
  }

  /** `word` occurs in the lower-cased `message`. */
  ghost predicate Mentions(message: string, word: string)
  {
    exists i :: OccursAt(ToLower(message), word, i)
  }

  /** The field a server message is shown under; a mention of "email" wins over "password". */
  function FieldOf(message: string): (f: Option<ErrorField>)
    ensures f == Some(EmailField) <==> Mentions(message, "email")
    ensures f == Some(PasswordField) <==> !Mentions(message, "email") && Mentions(message, "password")
    ensures f == None <==> !Mentions(message, "email") && !Mentions(message, "password")
  {
    var lower := ToLower(message);
    if Includes(lower, "email") then Some(EmailField)
    else if Includes(lower, "password") then Some(PasswordField)
    else None
  }

  /** A word with a letter that the message lacks in either case is not mentioned. */
  lemma NotMentionedWithoutLetter(message: string, word: string, c: char)
    requires 'a' <= c <= 'z' && c in word
    requires c !in message && (c as int - 'a' as int + 'A' as int) as char !in message
    ensures !Mentions(message, word)
  {
  }

  /** No character of `message` is one of the letters m and p, in either case. */
  predicate LacksMAndP(message: string)
  {
    forall i :: 0 <= i < |message| ==> message[i] !in {'m', 'M', 'p', 'P'}
  }

  /** A message without the letters m and p mentions neither word. */
  lemma NoFieldWithoutLetters(message: string)
    requires LacksMAndP(message)
    ensures FieldOf(message) == None
  {
    assert "email"[1] == 'm' && "password"[0] == 'p';
    NotMentionedWithoutLetter(message, "email", 'm');
    NotMentionedWithoutLetter(message, "password", 'p');
  }

  /** Neither default message mentions "email" or "password", so it is shown under no field. */
  lemma DefaultMessageMentionsNoField(mode: AuthMode)
    ensures FieldOf(DefaultMessage(mode)) == None
  {
    if mode == LoginMode {
      assert LacksMAndP("Invalid credentials");
    } else {
      assert LacksMAndP("Registration failed");
    }
    NoFieldWithoutLetters(DefaultMessage(mode));
  }

  /** The error recorded when the call throws. */
  function FailureError(result: ServiceResult, mode: AuthMode): (e: AuthError)
    requires !result.Responded?
    ensures result.OtherFailure? ==> e == NetworkError
    ensures result.HttpFailure? ==> e.message == ServerErrorMessage(result.serverMessage, mode)
    ensures result.HttpFailure? ==> e.field == FieldOf(e.message)
  {
    if result.OtherFailure? then NetworkError
    else
      var msg := ServerErrorMessage(result.serverMessage, mode);
      AuthError(msg, FieldOf(msg))
  }

  /** The provider's state, with the persistent store it reads and writes. */
  datatype AuthState = AuthState(
    isLoggedIn: bool,
    isLoadingAuth: bool,
    user: Option<UserRecord>,
    error: Option<AuthError>,
    storage: Store)

  /** The state on mount: nobody logged in, nothing loading, no error; the store is what the device holds. */
  function InitialState(storage: Store): AuthState
  {
    AuthState(false, false, None, None, storage)
  }

  /** The user of a stored session: present when both a token and a user are stored and non-empty. */
  function StoredSession(store: Store): (u: Option<UserRecord>)
    ensures u.Some? <==> Truthy(GetItem(store, TokenKey)) && Truthy(GetItem(store, UserKey))
    ensures u.Some? ==> u.value == store[UserKey]
  {
    if Truthy(GetItem(store, TokenKey)) && Truthy(GetItem(store, UserKey)) then Some(store[UserKey]) else None
  }

  /** `checkIfLoggedIn`: the start-up decision; without a session only the flag is cleared. */
  function StartedUp(s: AuthState): (r: AuthState)
    ensures r.isLoggedIn <==> StoredSession(s.storage).Some?
    ensures r.isLoggedIn ==> r.user == StoredSession(s.storage)
    ensures !r.isLoggedIn ==> r.user == s.user
    ensures r.isLoadingAuth == s.isLoadingAuth && r.error == s.error && r.storage == s.storage
  {
    match StoredSession(s.storage)
    case Some(u) => s.(isLoggedIn := true, user := Some(u))
    case None => s.(isLoggedIn := false)
  }

  /** The state `authenticate` leaves once it has finished. */
  function Authenticated(s: AuthState, mode: AuthMode, email: string, password: string, result: ServiceResult): (r: AuthState)
    ensures !r.isLoadingAuth
    ensures ValidateCredentials(email, password).Some? ==>
      r.error == ValidateCredentials(email, password) &&
      r.isLoggedIn == s.isLoggedIn && r.user == s.user && r.storage == s.storage
    ensures ValidateCredentials(email, password) == None && result.Responded? ==> r.error == None
    ensures ValidateCredentials(email, password) == None && result == Responded(None) ==>
      r.isLoggedIn == s.isLoggedIn && r.user == s.user && r.storage == s.storage
    ensures ValidateCredentials(email, password) == None && result.Responded? && result.response.Some? ==>
      r.isLoggedIn && r.user == Some(result.response.value.user) &&
      GetItem(r.storage, TokenKey) == Some(result.response.value.token) &&
      GetItem(r.storage, UserKey) == Some(result.response.value.user)
    ensures ValidateCredentials(email, password) == None && !result.Responded? ==>
      !r.isLoggedIn && r.user == s.user && r.storage == s.storage && r.error == Some(FailureError(result, mode))
  {
    match ValidateCredentials(email, password)
    case Some(e) => s.(isLoadingAuth := false, error := Some(e))
    case None =>
      match result
      case Responded(None) => s.(isLoadingAuth := false, error := None)
      case Responded(Some(session)) =>
        s.(isLoggedIn := true, isLoadingAuth := false, user := Some(session.user), error := None,
           storage := s.storage[TokenKey := session.token][UserKey := session.user])
      case _ => s.(isLoggedIn := false, isLoadingAuth := false, error := Some(FailureError(result, mode)))
  }

  /** `logout`: the session is forgotten here and in the store; the error and loading flags stay. */
  function LoggedOut(s: AuthState): (r: AuthState)
    ensures !r.isLoggedIn && r.user == None
    ensures TokenKey !in r.storage && UserKey !in r.storage
    ensures forall k :: k in s.storage && k != TokenKey && k != UserKey ==> k in r.storage && r.storage[k] == s.storage[k]
    ensures r.storage.Keys <= s.storage.Keys
    ensures r.isLoadingAuth == s.isLoadingAuth && r.error == s.error
  {
    s.(isLoggedIn := false, user := None, storage := s.storage - {TokenKey, UserKey})
  }

  /** On every path, including the early returns, `authenticate` ends with loading off. */
  lemma AuthenticateEndsIdle(s: AuthState, mode: AuthMode, email: string, password: string, result: ServiceResult)
    ensures !Authenticated(s, mode, email, password, result).isLoadingAuth
  {
  }

  /** The previous error is cleared at entry: the error afterwards depends only on this call. */
  lemma AuthenticateForgetsPreviousError(s1: AuthState, s2: AuthState, mode: AuthMode, email: string,
                                           password: string, result: ServiceResult)
    ensures Authenticated(s1, mode, email, password, result).error == Authenticated(s2, mode, email, password, result).error
  {
  }

  /** A rejected form records its error and leaves the session and the store as they were. */
  lemma ValidationFailureKeepsSession(s: AuthState, mode: AuthMode, email: string, password: string,
                                      result: ServiceResult)
    requires ValidateCredentials(email, password).Some?
    ensures var t := Authenticated(s, mode, email, password, result);
      t.error == ValidateCredentials(email, password) &&
      t.isLoggedIn == s.isLoggedIn && t.user == s.user && t.storage == s.storage
  {
  }

  /** A blank e-mail is reported before anything about the password, whatever the password is. */
  lemma BlankEmailReportedFirst(s: AuthState, mode: AuthMode, email: string, password: string, result: ServiceResult)
    requires Trim(email) == ""
    ensures Authenticated(s, mode, email, password, result).error == Some(EmailRequired)
  {
  }

  /** A thrown HTTP error logs out and records a non-empty message under the field it mentions. */
  lemma HttpFailureOutcome(s: AuthState, mode: AuthMode, email: string, password: string, msg: Option<string>)
    requires ValidateCredentials(email, password) == None
    ensures var t := Authenticated(s, mode, email, password, HttpFailure(msg));
      !t.isLoggedIn && t.error.Some? && t.error.value.message != "" &&
      (Truthy(msg) ==> t.error.value.message == msg.value) &&
      (!Truthy(msg) ==> t.error == Some(AuthError(DefaultMessage(mode), None))) &&
      (t.error.value.field == Some(EmailField) <==> Mentions(t.error.value.message, "email"))
  {
    if !Truthy(msg) {
      DefaultMessageMentionsNoField(mode);
    }
  }

  /** Anything else thrown gives the network message with no field, and logs out. */
  lemma OtherFailureOutcome(s: AuthState, mode: AuthMode, email: string, password: string)
    requires ValidateCredentials(email, password) == None
    ensures var t := Authenticated(s, mode, email, password, OtherFailure);
      !t.isLoggedIn && t.error == Some(NetworkError) && t.error.value.field == None
  {
  }

  /**
   * A successful call logs in, and stores the session so that the next
   * start-up finds it again (when the token and the user are non-empty).
   */
  lemma SuccessSurvivesRestart(s: AuthState, mode: AuthMode, email: string, password: string, session: Session)
    requires ValidateCredentials(email, password) == None
    requires session.token != "" && session.user != ""
    ensures var t := Authenticated(s, mode, email, password, Responded(Some(session)));
      t.isLoggedIn && t.user == Some(session.user) && t.error == None &&
      StoredSession(t.storage) == Some(session.user) &&
      StartedUp(InitialState(t.storage)).isLoggedIn
  {
    var t := Authenticated(s, mode, email, password, Responded(Some(session)));
    assert GetItem(t.storage, TokenKey) == Some(session.token);
  }

  /** After `logout` the next start-up finds no session. */
  lemma LogoutSurvivesRestart(s: AuthState)
    ensures var t := LoggedOut(s);
      !t.isLoggedIn && t.user == None && StoredSession(t.storage) == None &&
      !StartedUp(InitialState(t.storage)).isLoggedIn
  {
  }

  /** At start-up the user counts as logged in iff a token and a user are both stored. */
  lemma StartupDecision(s: AuthState)
    ensures StartedUp(s).isLoggedIn <==>
            Truthy(GetItem(s.storage, TokenKey)) && Truthy(GetItem(s.storage, UserKey))
    ensures StartedUp(s).isLoggedIn ==> StartedUp(s).user == Some(s.storage[UserKey])
    ensures !StartedUp(s).isLoggedIn ==> StartedUp(s).user == s.user
  {
  }

  /** The provider component and the state its callbacks update in place. */
  class AuthProvider {
    var isLoggedIn: bool
    var isLoadingAuth: bool
    var user: Option<UserRecord>
    var error: Option<AuthError>
    var storage: Store

    function State(): AuthState
      reads this
    {
      AuthState(isLoggedIn, isLoadingAuth, user, error, storage)
    }

    constructor (store: Store)
      ensures State() == InitialState(store)
    {
      isLoggedIn, isLoadingAuth, user, error, storage := false, false, None, None, store;
    }

    /** The mount effect `checkIfLoggedIn`; `navigate` is the `router.replace` it makes, if any. */
    method CheckIfLoggedIn() returns (navigate: Option<Route>)
      modifies this
      ensures State() == StartedUp(old(State()))
      ensures navigate == (if isLoggedIn then Some(AuthedHome) else None)
    {
      var token := GetItem(storage, TokenKey);
      var stored := GetItem(storage, UserKey);
      if Truthy(token) && Truthy(stored) {
        isLoggedIn := true;
        user := Some(stored.value);
        navigate := Some(AuthedHome);
      } else {
        isLoggedIn := false;
        navigate := None;
      }
    }

    method ClearError()
      modifies this
      ensures State() == old(State()).(error := None)
    {
      error := None;
    }

    /**
     * `authenticate`. `result` is how the user-service call would end; it is
     * consulted only when the call is made, which `serviceCalled` reports.
     */
    method Authenticate(mode: AuthMode, email: string, password: string, result: ServiceResult)
      returns (serviceCalled: bool, navigate: Option<Route>)
      modifies this
      ensures State() == Authenticated(old(State()), mode, email, password, result)
      ensures serviceCalled <==> ValidateCredentials(email, password) == None
      ensures navigate == (if serviceCalled && result.Responded? && result.response.Some? then Some(AuthedHome) else None)
    {
      isLoadingAuth := true;
      error := None;
      serviceCalled, navigate := false, None;
      if Trim(email) == "" {
        error := Some(EmailRequired);
      } else if Trim(password) == "" {
        error := Some(PasswordRequired);
      } else if |password| < MinPasswordLength {
        error := Some(PasswordTooShort);
      } else {
        assert ValidateCredentials(email, password) == None;
        serviceCalled := true;
        match result
        case Responded(response) =>
          if response.Some? {
            isLoggedIn := true;
            storage := storage[TokenKey := response.value.token];
            storage := storage[UserKey := response.value.user];
            user := Some(response.value.user);
            navigate := Some(AuthedHome);
          }
        case HttpFailure(serverMessage) =>
          isLoggedIn := false;
          var message := ServerErrorMessage(serverMessage, mode);
          error := Some(AuthError(message, FieldOf(message)));
        case OtherFailure =>
          isLoggedIn := false;
          error := Some(NetworkError);
      }
      isLoadingAuth := false;
    }

    /** `logout`; `navigate` is the `router.replace` to the login screen. */
    method Logout() returns (navigate: Route)
      modifies this
      ensures State() == LoggedOut(old(State()))
      ensures navigate == LoginRoute
    {
      isLoggedIn := false;
      user := None;
      storage := storage - {TokenKey};
      storage := storage - {UserKey};
      assert storage.Keys == old(storage).Keys - {TokenKey, UserKey};
      navigate := LoginRoute;
    }
  }
}
