# Ticket-booking mobile client: theme, login form, authentication and API configuration

This project is a Dafny model of the decision and state logic in the ticket-booking mobile client, a React Native app. It covers four parts:

- **Theme provider** (`context/ThemeContext.tsx`). The app either follows the device's colour scheme ("system mode") or the user's own light/dark preference. Dark mode is derived from that state, and `toggleTheme` changes it. `ThemeProvider` is a class with the two state variables. The derivations are functions over a `Mode` value.
- **Login screen** (`app/login.tsx`). It covers the e-mail pattern `^[^\s@]+@[^\s@]+\.[^\s@]+$`, the password-length check, the two field messages, the form-validity rule and the button's `disabled` rule. `LoginScreen` is a class holding the mode and the two fields. Its methods change text, toggle login/register mode and press submit.
- **Authentication provider** (`context/AuthContext.tsx`). `AuthProvider` is a class with `isLoggedIn`, `isLoadingAuth`, `user`, `error` and the persistent key-value store. Its methods are `authenticate`, `logout`, `clearError` and the start-up `checkIfLoggedIn`. The function `Authenticated` gives the state `authenticate` leaves, and lemmas state its properties.
- **HTTP client configuration** (`services/api.ts`). It covers the host chosen from the environment variable and the platform, the `/api` suffix rule, and the request interceptor's `Authorization: Bearer` rule.

Inputs. Effects and platform values are parameters:

- the device's colour scheme (`useColorScheme`);
- `Platform.OS`, `window.location` and `EXPO_PUBLIC_API_URL`;
- how the user-service call ends (`ServiceResult`: a response, possibly falsy; an HTTP-client error with an optional server message; or any other exception).

AsyncStorage is the `storage` map of the provider, keyed by `"token"` and `"user"`. Navigation (`router.replace`) is returned as a `Route` out-parameter.

Modules:

- `Wrappers` holds `Option`.
- `Text` holds the JavaScript string operations the client uses: the `\s` class and `trim()`, lower-casing, `includes` and `endsWith`. It also holds two model helpers that the client does not call, `CountChar` and `IndexOf`, which describe the e-mail shape.
- `Storage` models AsyncStorage reads and truthiness.
- `Theme`, `Auth`, `Login` and `Api` hold one source file each.

In `services/api.ts` the comment on line 32 speaks of removing an `/api` suffix. The code on line 33 keeps a URL that already ends in `/api` as it is, and the model follows the code.

## Model

| member | source | states |
|---|---|---|
| `Text.Trim` | context/AuthContext.tsx:62 | `trim()` yields the empty string exactly when every character is JavaScript white space, and leaves a string without white space unchanged |
| `Text.ToLower` | context/AuthContext.tsx:95-96 | lower-casing keeps the length, and each character is mapped on its own |
| `Text.Includes` | context/AuthContext.tsx:95-96 | `includes(w)` holds exactly when `w` occurs at some position |
| `Text.EndsWithIff` | services/api.ts:33 | `endsWith(suffix)` holds exactly when the string is something followed by `suffix` |
| `Storage.GetItem` | context/AuthContext.tsx:37-38 | `getItem` returns the stored value for a present key and `null` for a missing one |
| `Theme.IsDarkMode` | context/ThemeContext.tsx:64-66 | in system mode dark mode holds iff the device reports dark, so an unreported scheme is light; in user mode it holds iff the preference is dark |
| `Theme.ThemeOf` | context/ThemeContext.tsx:69 | the palette is the dark one exactly when dark mode is on, otherwise the light one |
| `Theme.Toggled` | context/ThemeContext.tsx:72-82 | after a toggle system mode is off, and dark mode is the negation of what it was with the same scheme |
| `Theme.InitialFollowsSystem` | context/ThemeContext.tsx:58-66 | the initial state is system mode with preference light, and it is dark exactly when the device reports dark |
| `Theme.SystemModeDarkness` | context/ThemeContext.tsx:64-66 | in system mode dark mode equals "scheme is dark"; an unreported (null/undefined) scheme is not dark |
| `Theme.UserModeIgnoresScheme` | context/ThemeContext.tsx:64-66 | in user mode dark mode equals "preference is dark", whatever the device reports |
| `Theme.ToggleFromSystemMode` | context/ThemeContext.tsx:73-77 | toggling from system mode turns it off and sets the preference to dark exactly when the scheme is not dark |
| `Theme.ToggleInUserMode` | context/ThemeContext.tsx:78-80 | toggling in user mode flips only the preference and stays in user mode |
| `Theme.TwoTogglesRestoreDarkMode` | context/ThemeContext.tsx:64-81 | with the scheme fixed, two toggles restore the original dark-mode flag |
| `Theme.SystemModeNeverReentered` | context/ThemeContext.tsx:58-82 | after any non-empty run of toggles, whatever schemes were reported, system mode is off |
| `Theme.TogglesAlternateDarkMode` | context/ThemeContext.tsx:64-81 | with the scheme fixed, k toggles negate dark mode exactly when k is odd |
| `Theme.UserModeTogglesIgnoreScheme` | context/ThemeContext.tsx:78-80 | from user mode, dark mode after k toggles is the preference flipped k times, independent of the schemes seen |
| `Theme.ThemeProvider.constructor` | context/ThemeContext.tsx:58-61 | the provider starts in system mode with preference light |
| `Theme.ThemeProvider.CurrentTheme` | context/ThemeContext.tsx:69 | the rendered palette is dark exactly when the provider is in dark mode |
| `Theme.ThemeProvider.ToggleTheme` | context/ThemeContext.tsx:72-82 | the new state is the toggled mode, system mode is off, and dark mode is negated |
| `Auth.ValidateCredentials` | context/AuthContext.tsx:62-75 | a blank e-mail is reported first, then a blank password, then one under 6 characters; no error iff none of these applies |
| `Auth.ServerErrorMessage` | context/AuthContext.tsx:90-91 | the message is never empty: an empty or missing server message gives "Invalid credentials" (login) or "Registration failed" (register) |
| `Auth.DefaultMessage` | context/AuthContext.tsx:89-90 | the fallback message is never empty; it is "Invalid credentials" exactly in login mode and "Registration failed" in register mode |
| `Auth.FieldOf` | context/AuthContext.tsx:95-96 | the field is `email` iff the lower-cased message mentions "email", else `password` iff it mentions "password", else none |
| `Auth.DefaultMessageMentionsNoField` | context/AuthContext.tsx:90-96 | both default messages are shown under no field |
| `Auth.FailureError` | context/AuthContext.tsx:89-102 | an HTTP-client error gives the server or default message classified by field; anything else gives the network message with no field |
| `Auth.StoredSession` | context/AuthContext.tsx:37-42 | a stored session exists iff both the token and the user are stored and non-empty, and then it is the stored user |
| `Auth.StartedUp` | context/AuthContext.tsx:36-47 | the start-up state is logged in iff a session is stored, and then it holds the stored user; otherwise the user is unchanged; loading, error and store never change |
| `Auth.Authenticated` | context/AuthContext.tsx:56-107 | loading ends false; a rejected form records its error and keeps the session; a response clears the error, and a truthy one logs in and stores its token and user; a thrown error logs out with `FailureError`, leaving the user and the store as they were |
| `Auth.LoggedOut` | context/AuthContext.tsx:109-113 | nobody is logged in, the user is null, `token` and `user` are gone from the store and every other key keeps its value; error and loading are unchanged |
| `Auth.AuthenticateEndsIdle` | context/AuthContext.tsx:104-106 | on every path, early returns included, loading ends false |
| `Auth.AuthenticateForgetsPreviousError` | context/AuthContext.tsx:58-59 | the error afterwards does not depend on the error before the call |
| `Auth.ValidationFailureKeepsSession` | context/AuthContext.tsx:62-75 | a rejected form records its error and leaves login flag, user and store unchanged |
| `Auth.BlankEmailReportedFirst` | context/AuthContext.tsx:62-65 | a blank e-mail yields "Email is required" under `email`, whatever the password |
| `Auth.HttpFailureOutcome` | context/AuthContext.tsx:86-97 | an HTTP-client error logs out and records a non-empty message: the server's if truthy, else the default with no field, and the field is `email` iff "email" is mentioned |
| `Auth.OtherFailureOutcome` | context/AuthContext.tsx:86-103 | any other exception logs out and records the network-error message with no field |
| `Auth.SuccessSurvivesRestart` | context/AuthContext.tsx:79-85 | a response logs in with the response's user and no error, and stores the session so that the next start-up logs in again |
| `Auth.LogoutSurvivesRestart` | context/AuthContext.tsx:109-113 | after logout nobody is logged in, the user is null, and the next start-up finds no session |
| `Auth.StartupDecision` | context/AuthContext.tsx:40-46 | at start-up the user is logged in iff a token and a user are both stored; otherwise the user value is left as it was |
| `Auth.AuthProvider.constructor` | context/AuthContext.tsx:30-33 | the provider starts logged out, not loading, with no user and no error |
| `Auth.AuthProvider.CheckIfLoggedIn` | context/AuthContext.tsx:36-47 | the new state is the start-up decision on the stored session, and it navigates home exactly when logged in |
| `Auth.AuthProvider.ClearError` | context/AuthContext.tsx:52-54 | the error becomes null and nothing else changes |
| `Auth.AuthProvider.Authenticate` | context/AuthContext.tsx:56-107 | the new state is `Authenticated` of the old; the service is called iff validation passes; it navigates home iff a truthy response came back |
| `Auth.AuthProvider.Logout` | context/AuthContext.tsx:109-115 | login flag off, user null, token and user removed from the store, error and loading unchanged; it navigates to the login screen |
| `Login.EmailPatternIff` | app/login.tsx:46 | the regular expression matches exactly the strings with no white space, exactly one `@` with something before it, and a dot after it that is neither the first nor the last character of the domain |
| `Login.IsEmailValid` | app/login.tsx:44-48 | the e-mail is valid iff it is empty or matches the pattern |
| `Login.IsPasswordValid` | app/login.tsx:50-53 | the password is valid iff it is empty or has at least 6 characters |
| `Login.EmailErrorMessage` | app/login.tsx:67-71 | an empty field shows the provider's error iff its field is `email`; a non-matching address shows the fixed text; otherwise nothing |
| `Login.PasswordErrorMessage` | app/login.tsx:73-77 | an empty field shows the provider's error iff its field is `password`; a short password shows the fixed text; otherwise nothing |
| `Login.IsFormValid` | app/login.tsx:79-84 | the form is valid iff the address matches the pattern and the password has 6 characters, not all white space |
| `Login.IsSubmitDisabled` | app/login.tsx:176 | the button is disabled iff something is loading, the address does not match the pattern, or the password is under 6 characters or all white space |
| `Login.FormValidMeans` | app/login.tsx:79-84 | a valid form has non-blank trimmed fields, a password of at least 6 characters and a matching address |
| `Login.EnabledSubmitPassesValidation` | app/login.tsx:176 | an enabled button means nothing is loading and the provider's checks all pass |
| `Login.ProviderChecksAreWeaker` | app/login.tsx:79-84 | a non-blank address without `@` passes the provider's checks but never makes the form valid |
| `Login.OtherMode` | app/login.tsx:61 | the mode toggle always picks the other mode |
| `Login.TwoTogglesRestoreMode` | app/login.tsx:61 | the mode toggle swaps login and register, and two toggles restore the mode |
| `Login.LoginScreen.constructor` | app/login.tsx:26-35 | the screen starts in login mode with empty fields, and the mount effect clears the provider's error |
| `Login.LoginScreen.SetEmail` | app/login.tsx:109 | typing replaces the e-mail and leaves mode and password unchanged |
| `Login.LoginScreen.SetPassword` | app/login.tsx:143 | typing replaces the password and leaves mode and e-mail unchanged |
| `Login.LoginScreen.ToggleAuthMode` | app/login.tsx:60-65 | the mode is swapped, both fields become empty, and the effect keyed on the mode clears the provider's error |
| `Login.LoginScreen.Submit` | app/login.tsx:173-176 | a press is ignored iff the button is disabled; otherwise the provider authenticates with the screen's mode and fields, and the service is always called |
| `Api.HostUrl` | services/api.ts:11-28 | a non-empty environment URL wins; otherwise Android gives the emulator alias, a web page its own protocol and host on port 8081, and everything else the loopback URL |
| `Api.BaseUrl` | services/api.ts:33 | the base URL ends with `/api` and starts with the host URL; it equals the host URL iff the host URL already ends with `/api`, and otherwise is the host URL plus `/api` |
| `Api.ConfiguredBaseUrl` | services/api.ts:33-34 | the client's base URL ends with `/api` and starts with the chosen host URL; a non-empty environment URL decides it on its own |
| `Api.BaseUrlIdempotent` | services/api.ts:33 | applying the suffix rule twice is the same as applying it once |
| `Api.EnvironmentUrlWins` | services/api.ts:11-13 | with a non-empty environment URL, platform and window make no difference |
| `Api.EmptyEnvironmentUrlIsAbsent` | services/api.ts:11 | an empty environment URL behaves exactly like a missing one |
| `Api.AndroidBaseUrl` | services/api.ts:14-15 | Android without an environment URL gets `http://10.0.2.2:8081/api` |
| `Api.LoopbackBaseUrl` | services/api.ts:21-28 | iOS, other platforms, and the web without a window get `http://127.0.0.1:8081/api` |
| `Api.WebBaseUrl` | services/api.ts:19-20 | a web page gets its protocol, `//`, its host name, `:8081/api` |
| `Api.WithAuthorization` | services/api.ts:39 | a truthy token sets `Authorization` to `Bearer ` plus the token and changes no other header; without one the headers are unchanged |
| `Api.InterceptRequest` | services/api.ts:36-41 | with a truthy stored token the request carries `Bearer` plus that token; without one the headers are unchanged; no other header is touched |
| `Api.RequestsAfterLoginCarryToken` | services/api.ts:36-39 | after a successful authentication every request carries `Bearer` plus the new token |
| `Api.RequestsAfterLogoutCarryNoToken` | services/api.ts:36-39 | after logout the interceptor leaves request headers unchanged |

## Left out

- Rendering, styles, the colour tables' contents, the focus flags and the error `Alert` effect (app/login.tsx:38-42) are presentation. `Keyboard.dismiss` is a platform call.
- `useTheme`'s throw on a missing context cannot happen, because the context has a default value. It is not modelled.
- The user service (`services/user`) is not part of this model. Its outcome is the `ServiceResult` parameter.
- Asynchronous suspension and React's batching of state updates are not modelled. `Authenticate` is modelled by the state it leaves once it has finished; while the call is outstanding, `isLoadingAuth` is true.
- A failure of the AsyncStorage writes or of the router after a successful response would be caught and would log the user out. The model assumes those calls succeed.
- `Auth.LoggedOut` and `Auth.AuthProvider.Logout` assume both `AsyncStorage.removeItem` calls succeed. If one fails, the flags are already cleared but `token` or `user` stays stored. The redirect to `/login` is then skipped and the rejection goes unhandled. `Auth.LogoutSurvivesRestart` and `Api.RequestsAfterLogoutCarryNoToken` hold only for successful removals.
- `JSON.stringify`/`JSON.parse` of the user: the user is kept in its serialised form (`UserRecord`), and the round trip is assumed.
- A server `message` that is not a string is not modelled. The server message is an optional string.
- `Text.ToLower` lower-cases only ASCII letters, while `toLowerCase` covers all of Unicode. For the two words searched for ("email", "password") this gives the same answer for `includes`. The only non-ASCII character that lower-cases to one of their letters is U+0130, which becomes "i" followed by a combining dot, so it cannot complete either word.
- Strings are sequences of Unicode characters. JavaScript's `length` counts UTF-16 code units, so the 6-character minimum differs for characters outside the Basic Multilingual Plane.
- `Api.WithAuthorization` treats header names as exact keys. Axios compares them without regard to case.
- The response interceptor (services/api.ts:44-47) only unwraps `res.data` and re-throws errors. It is not modelled.
- The ticket-scan workflow, event services, the date-time picker, the buttons, inputs and layouts are outside this model.
